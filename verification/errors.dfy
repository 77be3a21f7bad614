/**
 How the client turns a failed chat request into the text of a bot message:
 the error text the chat request raises (`getServerResponse`) and the
 friendly message chosen from it (`getErrorMessage`).
 */
module ErrorMessages {
  import opened Options
  import opened Text

  const ServerErrorPrefix: string := "Server Error: "
  const InvalidResponse: string := "Invalid response format from server"

  /** The error text raised for a reply that is not OK: the server's `error` field, or the status. */
  function ChatErrorText(status: nat, errorField: Option<string>): (e: string)
    ensures errorField.Some? && errorField.value != "" ==> e == errorField.value
    ensures errorField.None? || errorField.value == "" ==> e == ServerErrorPrefix + NatToString(status)
  {
    match errorField
    case Some(m) => if m != "" then m else ServerErrorPrefix + NatToString(status)
    case None => ServerErrorPrefix + NatToString(status)
  }

  /** The cases of `getErrorMessage`, in the order they are tried. */
  datatype ErrorKind = BadRequest | Forbidden | RateLimited | Unreachable | Other

  /** The error text names a status: it contains `Server Error: ` followed by the code. */
  predicate Names(msg: string, code: string) {
    Contains(msg, ServerErrorPrefix + code)
  }

  /** The error text is the browser's report of a request that never reached the server. */
  predicate FetchFailed(msg: string) {
    Contains(msg, "Failed to fetch")
  }

  /** The first case whose test the error text passes. */
  function Classify(msg: string): (k: ErrorKind)
    ensures k == BadRequest <==> Names(msg, "400")
    ensures k == Forbidden <==> !Names(msg, "400") && Names(msg, "403")
    ensures k == RateLimited <==> !Names(msg, "400") && !Names(msg, "403") && Names(msg, "429")
    ensures k == Unreachable
        <==> !Names(msg, "400") && !Names(msg, "403") && !Names(msg, "429") && (FetchFailed(msg) || Names(msg, "503"))
    ensures k == Other
        <==> !Names(msg, "400") && !Names(msg, "403") && !Names(msg, "429") && !FetchFailed(msg) && !Names(msg, "503")
  {
    if Names(msg, "400") then BadRequest
    else if Names(msg, "403") then Forbidden
    else if Names(msg, "429") then RateLimited
    else if FetchFailed(msg) || Names(msg, "503") then Unreachable
    else Other
  }

  const BadRequestText: string := "I'm sorry, but I couldn't process your request. Please try rephrasing your message."
  const ForbiddenText: string := "I'm sorry, but there seems to be an issue with the API configuration. Please check with the administrator."
  const RateLimitedText: string := "I'm currently receiving too many requests. Please wait a moment and try again."
  const UnreachableText: string := "I'm sorry, but I'm having trouble connecting to the server. Please check your connection and try again."
  const OtherPrefix: string := "I'm sorry, but I encountered an error: "
  const OtherSuffix: string := ". Please try again later."

  /** None of the fixed texts ends the way the quoting text of the last case does. */
  lemma FixedTextsAreNotQuotes()
    ensures !EndsWith(BadRequestText, OtherSuffix) && !EndsWith(ForbiddenText, OtherSuffix)
    ensures !EndsWith(RateLimitedText, OtherSuffix) && !EndsWith(UnreachableText, OtherSuffix)
  {
    assert OtherSuffix[|OtherSuffix| - 2] == 'r' && OtherSuffix[|OtherSuffix| - 3] == 'e';
    assert BadRequestText[|BadRequestText| - 2] == 'e';
    assert ForbiddenText[|ForbiddenText| - 3] == 'o';
    assert RateLimitedText[|RateLimitedText| - 2] == 'n';
    assert UnreachableText[|UnreachableText| - 2] == 'n';
  }

  /** `getErrorMessage`: a fixed text per case, and for any other error a text that quotes it. */
  function ErrorMessage(msg: string): (r: string)
    ensures Classify(msg) == Other <==> EndsWith(r, OtherSuffix)
    ensures Classify(msg) == Other ==> r == OtherPrefix + msg + OtherSuffix
    ensures Classify(msg) == BadRequest ==> r == BadRequestText
    ensures Classify(msg) == Forbidden ==> r == ForbiddenText
    ensures Classify(msg) == RateLimited ==> r == RateLimitedText
    ensures Classify(msg) == Unreachable ==> r == UnreachableText
  {
    FixedTextsAreNotQuotes();
    match Classify(msg)
    case BadRequest => BadRequestText
    case Forbidden => ForbiddenText
    case RateLimited => RateLimitedText
    case Unreachable => UnreachableText
    case Other =>
      var r := OtherPrefix + msg + OtherSuffix;
      assert r[|r| - |OtherSuffix|..] == OtherSuffix;
      r
  }

  /** The quoted error can be read back out of the message. */
  lemma ErrorMessageQuotes(msg: string)
    requires Classify(msg) == Other
    ensures var r := ErrorMessage(msg); r[|OtherPrefix|..|r| - |OtherSuffix|] == msg
  {
  }

  /**
   Which message an error text gets, stated against the tests of
   `getErrorMessage` directly: each fixed message appears exactly when its
   test is the first to pass.
   */
  lemma ErrorMessageByTest(msg: string)
    ensures var r := ErrorMessage(msg);
      && (r == BadRequestText <==> Names(msg, "400"))
      && (r == ForbiddenText <==> !Names(msg, "400") && Names(msg, "403"))
      && (r == RateLimitedText <==> !Names(msg, "400") && !Names(msg, "403") && Names(msg, "429"))
      && (r == UnreachableText
          <==> !Names(msg, "400") && !Names(msg, "403") && !Names(msg, "429") && (FetchFailed(msg) || Names(msg, "503")))
  {
    FixedTextsAreNotQuotes();
    FixedTextsDiffer();
  }

  lemma FixedTextsDiffer()
    ensures |BadRequestText| == 83 && |ForbiddenText| == 106
    ensures |RateLimitedText| == 78 && |UnreachableText| == 103
  {
  }

  /** Two errors get the same message only if they fall in the same case. */
  lemma ErrorMessageDeterminesCase(m1: string, m2: string)
    requires ErrorMessage(m1) == ErrorMessage(m2)
    ensures Classify(m1) == Classify(m2)
  {
    FixedTextsDiffer();
  }

  /** A three-digit status written after the prefix contains the prefixed code only when it is that code. */
  lemma StatusTextContains(status: nat, code: string)
    requires 100 <= status <= 999 && |code| == 3
    ensures Contains(ServerErrorPrefix + NatToString(status), ServerErrorPrefix + code)
        <==> NatToString(status) == code
  {
    var m := ServerErrorPrefix + NatToString(status);
    var t := ServerErrorPrefix + code;
    ThreeDigits(status);
    ContainsIff(m, t);
    if Contains(m, t) {
      var i :| OccursAt(m, t, i);
      assert i == 0;
      assert m == t;
      assert NatToString(status) == m[|ServerErrorPrefix|..] == t[|ServerErrorPrefix|..] == code;
    }
    if NatToString(status) == code {
      assert OccursAt(m, t, 0);
    }
  }

  lemma ThreeDigits(status: nat)
    requires 100 <= status <= 999
    ensures |NatToString(status)| == 3
  {
    assert NatToString(status) == NatToString(status / 10) + [DigitChar(status % 10)];
    assert NatToString(status / 10) == NatToString(status / 100) + [DigitChar(status / 10 % 10)];
  }

  /** Reading a status back from its decimal form. */
  lemma StatusIs(status: nat, code: nat)
    ensures NatToString(status) == NatToString(code) <==> status == code
  {
    ParseNatToString(status);
    ParseNatToString(code);
  }

  /**
   A failed chat request whose reply carries no `error` text is classified by
   its status alone: 400, 403 and 429 get their own messages, 503 the
   connection message, and any other status the quoting message.
   */
  lemma StatusOnlyError(status: nat)
    requires 100 <= status <= 999
    ensures var k := Classify(ChatErrorText(status, None));
      && (k == BadRequest <==> status == 400)
      && (k == Forbidden <==> status == 403)
      && (k == RateLimited <==> status == 429)
      && (k == Unreachable <==> status == 503)
  {
    assert NatToString(400) == "400" && NatToString(403) == "403";
    assert NatToString(429) == "429" && NatToString(503) == "503";
    StatusMatches(status, 400, "400");
    StatusMatches(status, 403, "403");
    StatusMatches(status, 429, "429");
    StatusMatches(status, 503, "503");
    FailedToFetchNotInStatus(status);
  }

  /** The status text names a given code exactly when the status is that code. */
  lemma StatusMatches(status: nat, n: nat, code: string)
    requires 100 <= status <= 999 && NatToString(n) == code && |code| == 3
    ensures Contains(ServerErrorPrefix + NatToString(status), ServerErrorPrefix + code) <==> status == n
  {
    StatusTextContains(status, code);
    StatusIs(status, n);
  }

  lemma FailedToFetchNotInStatus(status: nat)
    requires 100 <= status <= 999
    ensures !Contains(ServerErrorPrefix + NatToString(status), "Failed to fetch")
  {
    var m := ServerErrorPrefix + NatToString(status);
    ThreeDigits(status);
    ContainsIff(m, "Failed to fetch");
    forall i
      ensures !OccursAt(m, "Failed to fetch", i)
    {
      if 0 <= i < |m| {
        assert "Failed to fetch"[0] == 'F';
        assert i <= 2 ==> m[i] == ServerErrorPrefix[i] != 'F';
      }
    }
  }

  /**
   When the server names the error, that text is what gets classified, whatever
   the status: an error text without a colon or a capital F (the server's own
   texts, such as "No message provided" sent with a 400) is quoted rather than
   mapped to the 400 message.
   */
  lemma ServerNamedError(status: nat, e: string)
    requires e != "" && ':' !in e && 'F' !in e
    ensures ErrorMessage(ChatErrorText(status, Some(e))) == OtherPrefix + e + OtherSuffix
  {
    NoColonNoStatus(e, "400");
    NoColonNoStatus(e, "403");
    NoColonNoStatus(e, "429");
    NoColonNoStatus(e, "503");
    if Contains(e, "Failed to fetch") {
      assert "Failed to fetch"[0] == 'F';
      ContainsElement(e, "Failed to fetch", 'F');
    }
  }

  lemma NoColonNoStatus(e: string, code: string)
    requires ':' !in e
    ensures !Contains(e, ServerErrorPrefix + code)
  {
    var t := ServerErrorPrefix + code;
    assert t[12] == ServerErrorPrefix[12] == ':';
    if Contains(e, t) {
      ContainsElement(e, t, ':');
    }
  }
}
