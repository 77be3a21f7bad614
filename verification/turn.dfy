/**
 One press of the send button (`handleSendMessage`, with `handleFileUploads`)
 as a state machine over the chat session. The browser and the network are
 replaced by inputs: the outcome of each file upload and the reply to the one
 request the message makes. What the turn does that can be observed is an
 ordered list of events, and the session after the turn is read off it.
 */
module SendTurn {
  import opened Options
  import opened Text
  import opened FileStaging
  import opened ClientSettings
  import opened ErrorMessages

  datatype Sender = User | Bot

  datatype Message = Message(text: string, sender: Sender)

  /** The part of the page a turn reads and changes. */
  datatype Session = Session(
    messages: seq<Message>,
    staged: seq<File>,
    typing: bool,
    input: string,
    settings: Settings)

  /** The server endpoints the client posts to. */
  datatype Endpoint = UploadEndpoint | ChatEndpoint | SearchEndpoint | WikipediaEndpoint

  /** What a turn does that can be observed, in order. */
  datatype Event =
    | ShowTyping
    | HideTyping
    | Post(endpoint: Endpoint, subject: string)
    | Append(message: Message)
    | Toast(text: string)
    | LogError
    | Speak(text: string)

  /**
   How one staged file's turn in the upload loop ended. `SelectorError` is the
   lookup of the file's preview by `[data-filename="<name>"]` throwing because
   the browser cannot parse that selector (a name such as `my "notes".txt`).
   The lookup comes before the loop's `try`, so nothing catches it: the loop
   and the whole send stop there.
   */
  datatype UploadOutcome =
    | Uploaded(content: string)      // an OK reply; `content` is the server's summary
    | Refused(error: string)         // a reply that is not OK, with the server's `error` text
    | Unread(reason: string)         // reading the file failed, so no request was sent
    | Failed(reason: string)         // sending the request failed
    | SelectorError(reason: string)  // the preview lookup threw before the `try`

  /** How the message's request ended. */
  datatype Reply =
    | Ok(body: string)                              // an OK reply; for chat, its `response` field
    | Status(code: nat, error: Option<string>)      // a reply that is not OK
    | Transport(reason: string)                     // the request itself failed

  /**
   The marks the client's texts start with, character for character as the
   source file holds them: a cross mark and a check mark whose encoded bytes
   were read back in another encoding, so each is three characters.
   */
  const Cross: string := "\U{201A}\U{F9}\U{E5}"
  const Check: string := "\U{201A}\U{FA}\U{D6}"

  /* ---------------- uploads ---------------- */

  /** The bot message an upload ends with. */
  function UploadReply(f: File, o: UploadOutcome): (m: Message)
    requires !o.SelectorError?
    ensures m.sender == Bot
    ensures o.Uploaded? ==> m.text == o.content
    ensures !o.Uploaded? ==> StartsWith(m.text, Cross) && Contains(m.text, f.name)
  {
    match o
    case Uploaded(content) => Message(content, Bot)
    case Refused(error) =>
      var head := Cross + " Upload failed for ";
      ContainsInfix(head, f.name, ": " + error);
      assert head + f.name + (": " + error) == head + f.name + ": " + error;
      Message(head + f.name + ": " + error, Bot)
    case Unread(reason) =>
      var head := Cross + " Error uploading ";
      ContainsInfix(head, f.name, ": " + reason);
      assert head + f.name + (": " + reason) == head + f.name + ": " + reason;
      Message(head + f.name + ": " + reason, Bot)
    case Failed(reason) =>
      var head := Cross + " Error uploading ";
      ContainsInfix(head, f.name, ": " + reason);
      assert head + f.name + (": " + reason) == head + f.name + ": " + reason;
      Message(head + f.name + ": " + reason, Bot)
  }

  function UploadToast(f: File, o: UploadOutcome): string
    requires !o.SelectorError?
  {
    match o
    case Uploaded(_) => Check + " " + f.name + " uploaded successfully!"
    case Refused(_) => Cross + " Failed to upload " + f.name
    case Unread(_) => Cross + " Error uploading " + f.name
    case Failed(_) => Cross + " Error uploading " + f.name
  }

  /**
   The events of one upload that gets past the preview lookup: the indicator is
   shown, the file posted (unless it could not be read), the indicator hidden,
   the result reported. When the reply's JSON cannot be read after the hide,
   the `catch` hides the indicator a second time; that repeated hide is folded
   into `Failed`, so such an upload has one event fewer here than in the
   browser, with the same effect.
   */
  function UploadEvents(f: File, o: UploadOutcome): (es: seq<Event>)
    requires !o.SelectorError?
    ensures |es| == (if o.Unread? then 4 else 5)
    ensures es[0] == ShowTyping && es[|es| - 3] == HideTyping && es[|es| - 2] == Append(UploadReply(f, o))
    ensures forall e :: e in es && e.Post? <==> !o.Unread? && e == Post(UploadEndpoint, f.name)
  {
    var report := [HideTyping, Append(UploadReply(f, o)), Toast(UploadToast(f, o))];
    if o.Unread? then [ShowTyping] + report
    else [ShowTyping, Post(UploadEndpoint, f.name)] + report
  }

  /** How many staged files the loop gets through: those before the first selector error. */
  function Reached(outcomes: seq<UploadOutcome>): (k: nat)
    ensures k <= |outcomes|
    ensures forall i :: 0 <= i < k ==> !outcomes[i].SelectorError?
    ensures k < |outcomes| ==> outcomes[k].SelectorError?
  {
    if |outcomes| == 0 || outcomes[0].SelectorError? then 0 else 1 + Reached(outcomes[1..])
  }

  /** The loop stops early: some staged file's preview lookup throws. */
  predicate Aborts(outcomes: seq<UploadOutcome>) {
    Reached(outcomes) < |outcomes|
  }

  /**
   `handleFileUploads`: the staged files one after another, in staged order,
   up to the first one whose preview lookup throws.
   */
  function UploadAll(files: seq<File>, outcomes: seq<UploadOutcome>): (es: seq<Event>)
    requires |outcomes| == |files|
    ensures 4 * Reached(outcomes) <= |es| <= 5 * Reached(outcomes)
    decreases |files|
  {
    if |files| == 0 || outcomes[0].SelectorError? then []
    else UploadEvents(files[0], outcomes[0]) + UploadAll(files[1..], outcomes[1..])
  }

  /**
   A name is posted to the upload endpoint exactly when a staged file of that
   name comes before the first selector error and could be read.
   */
  lemma {:induction false} UploadAllPosts(files: seq<File>, outcomes: seq<UploadOutcome>, name: string)
    requires |outcomes| == |files|
    ensures Post(UploadEndpoint, name) in UploadAll(files, outcomes)
        <==> exists i :: 0 <= i < Reached(outcomes) && files[i].name == name && !outcomes[i].Unread?
    decreases |files|
  {
    if |files| > 0 && !outcomes[0].SelectorError? {
      var p := Post(UploadEndpoint, name);
      var k := Reached(outcomes[1..]);
      assert Reached(outcomes) == k + 1;
      UploadAllPosts(files[1..], outcomes[1..], name);
      assert p in UploadEvents(files[0], outcomes[0]) <==> files[0].name == name && !outcomes[0].Unread?;
      if exists i :: 0 <= i < k + 1 && files[i].name == name && !outcomes[i].Unread? {
        var i :| 0 <= i < k + 1 && files[i].name == name && !outcomes[i].Unread?;
        if i > 0 {
          assert files[1..][i - 1] == files[i] && outcomes[1..][i - 1] == outcomes[i];
        }
      }
      if exists i :: 0 <= i < k && files[1..][i].name == name && !outcomes[1..][i].Unread? {
        var i :| 0 <= i < k && files[1..][i].name == name && !outcomes[1..][i].Unread?;
        assert files[i + 1] == files[1..][i] && outcomes[i + 1] == outcomes[1..][i];
      }
    }
  }

  /* ---------------- routing the message ---------------- */

  datatype Route = Search(query: string) | Wikipedia(query: string) | Chat(message: string)

  /**
   Which request a message makes. The prefix test is on the lower-cased text;
   the query is cut from the text as typed. `/search ` is checked first.
   */
  function RouteOf(message: string): (r: Route)
    ensures r.Search? <==> StartsWith(ToLower(message), "/search ")
    ensures r.Search? ==> message == message[..8] + r.query
    ensures r.Wikipedia? <==> !StartsWith(ToLower(message), "/search ") && StartsWith(ToLower(message), "/wiki ")
    ensures r.Wikipedia? ==> message == message[..6] + r.query
    ensures r.Chat? ==> r.message == message
  {
    var lower := ToLower(message);
    if StartsWith(lower, "/search ") then Search(message[8..])
    else if StartsWith(lower, "/wiki ") then Wikipedia(message[6..])
    else Chat(message)
  }

  /** The prefix test ignores the case of the command word; the query keeps its case. */
  lemma RouteIgnoresCommandCase(q: string)
    ensures RouteOf("/SEARCH " + q) == Search(q)
    ensures RouteOf("/Wiki " + q) == Wikipedia(q)
  {
    var s := "/SEARCH " + q;
    assert ToLower(s)[..8] == "/search ";
    assert s[8..] == q;
    var w := "/Wiki " + q;
    assert !StartsWith(ToLower(w), "/search ") by {
      if |w| >= 8 {
        assert ToLower(w)[1] == 'w';
        assert "/search "[1] == 's';
      }
    }
    assert ToLower(w)[..6] == "/wiki ";
    assert w[6..] == q;
  }

  /** A command word without its space is an ordinary chat message. */
  lemma BareCommandIsChat()
    ensures RouteOf("/search") == Chat("/search")
    ensures RouteOf("/wiki") == Chat("/wiki")
  {
    assert |ToLower("/search")| == 7;
    assert ToLower("/search")[1] == 's' && "/wiki "[1] == 'w';
    assert |ToLower("/wiki")| == 5;
  }

  /** The text a search or lookup shows: its results, or the failure it caught. */
  function LookupText(service: string, reply: Reply): (t: string)
    ensures reply.Ok? ==> t == reply.body
    ensures !reply.Ok? ==> StartsWith(t, Cross + " " + service + " failed: ")
  {
    var head := Cross + " " + service + " failed: ";
    match reply
    case Ok(body) => body
    case Status(code, _) => head + (service + " failed: " + NatToString(code)) + ". Please try again."
    case Transport(reason) => head + reason + ". Please try again."
  }

  /** The error text a chat request raises, if it raises one. */
  function ChatFailure(reply: Reply): (e: Option<string>)
    ensures e.None? <==> reply.Ok? && reply.body != ""
  {
    match reply
    case Ok(body) => if body != "" then None else Some(InvalidResponse)
    case Status(code, error) => Some(ChatErrorText(code, error))
    case Transport(reason) => Some(reason)
  }

  /** The events after the request for a non-empty message. */
  function ReplyEvents(route: Route, reply: Reply, settings: Settings): (es: seq<Event>)
  {
    match route
    case Search(_) => [HideTyping, Append(Message(LookupText("Search", reply), Bot))]
    case Wikipedia(_) => [HideTyping, Append(Message(LookupText("Wikipedia search", reply), Bot))]
    case Chat(_) =>
      match ChatFailure(reply)
      case None =>
        [HideTyping, Append(Message(reply.body, Bot))]
          + (if Truthy(if "voiceEnabled" in settings then Some(settings["voiceEnabled"]) else None)
             then [Speak(reply.body)] else [])
      case Some(e) => [LogError, HideTyping, Append(Message(ErrorMessage(e), Bot))]
  }

  function Subject(route: Route): string {
    match route
    case Search(q) => q
    case Wikipedia(q) => q
    case Chat(m) => m
  }

  function EndpointOf(route: Route): Endpoint {
    match route
    case Search(_) => SearchEndpoint
    case Wikipedia(_) => WikipediaEndpoint
    case Chat(_) => ChatEndpoint
  }

  /** The events of the message part of a turn. */
  function MessageEvents(message: string, reply: Reply, settings: Settings): seq<Event> {
    var route := RouteOf(message);
    [Append(Message(message, User)), ShowTyping, Post(EndpointOf(route), Subject(route))]
      + ReplyEvents(route, reply, settings)
  }

  /** The bot message a non-empty message is answered with. */
  function ReplyText(route: Route, reply: Reply): (t: string)
    ensures !route.Chat? ==> t == LookupText(if route.Search? then "Search" else "Wikipedia search", reply)
    ensures route.Chat? && ChatFailure(reply).None? ==> t == reply.body
    ensures route.Chat? && ChatFailure(reply).Some? ==> t == ErrorMessage(ChatFailure(reply).value)
  {
    match route
    case Search(_) => LookupText("Search", reply)
    case Wikipedia(_) => LookupText("Wikipedia search", reply)
    case Chat(_) =>
      match ChatFailure(reply)
      case None => reply.body
      case Some(e) => ErrorMessage(e)
  }

  /* ---------------- reading a list of events ---------------- */

  /**
   What a list of events amounts to: the messages it appends and the texts it
   speaks, in order; how many console errors it logs; whether the typing
   indicator shows afterwards; and whether every bot message was added while
   the indicator was hidden.
   */
  datatype Trace = Trace(appended: seq<Message>, spoken: seq<string>, errors: nat, typing: bool, hidden: bool)

  predicate IsBotMessage(e: Event) {
    e.Append? && e.message.sender == Bot
  }

  /** The trace of a single event, the indicator showing or not before it. */
  function Effect(typing: bool, e: Event): (x: Trace)
    ensures x.typing <==> e == ShowTyping || (typing && e != HideTyping)
    ensures x.hidden <==> !(typing && IsBotMessage(e))
  {
    Trace(
      if e.Append? then [e.message] else [],
      if e.Speak? then [e.text] else [],
      if e == LogError then 1 else 0,
      if e == ShowTyping then true else if e == HideTyping then false else typing,
      !(typing && IsBotMessage(e)))
  }

  /** The trace of nothing at all. */
  function Quiet(typing: bool): Trace {
    Trace([], [], 0, typing, true)
  }

  /** Two traces one after the other. */
  function Then(x: Trace, y: Trace): Trace {
    Trace(x.appended + y.appended, x.spoken + y.spoken, x.errors + y.errors, y.typing, x.hidden && y.hidden)
  }

  /** The trace of a list of events, run in order from `typing`. */
  function Run(typing: bool, es: seq<Event>): (x: Trace)
    ensures |x.appended| <= |es| && |x.spoken| <= |es| && x.errors <= |es|
    decreases |es|
  {
    if |es| == 0 then Quiet(typing)
    else
      var first := Effect(typing, es[0]);
      Then(first, Run(first.typing, es[1..]))
  }

  lemma ThenAssociative(x: Trace, y: Trace, z: Trace)
    ensures Then(Then(x, y), z) == Then(x, Then(y, z))
  {
    assert (x.appended + y.appended) + z.appended == x.appended + (y.appended + z.appended);
    assert (x.spoken + y.spoken) + z.spoken == x.spoken + (y.spoken + z.spoken);
  }

  lemma ThenQuiet(x: Trace)
    ensures Then(x, Quiet(x.typing)) == x
  {
    assert x.appended + [] == x.appended;
    assert x.spoken + [] == x.spoken;
  }

  /** Running two lists one after the other is running the first, then the second from where it left the indicator. */
  lemma {:induction false} RunConcat(t: bool, a: seq<Event>, b: seq<Event>)
    ensures Run(t, a + b) == Then(Run(t, a), Run(Run(t, a).typing, b))
    decreases |a|
  {
    if |a| == 0 {
      assert a + b == b;
      assert Then(Quiet(t), Run(t, b)) == Run(t, b) by {
        assert [] + Run(t, b).appended == Run(t, b).appended;
        assert [] + Run(t, b).spoken == Run(t, b).spoken;
      }
    } else {
      var first := Effect(t, a[0]);
      assert (a + b)[0] == a[0];
      assert (a + b)[1..] == a[1..] + b;
      RunConcat(first.typing, a[1..], b);
      ThenAssociative(first, Run(first.typing, a[1..]), Run(Run(first.typing, a[1..]).typing, b));
    }
  }

  /** A single event on its own. */
  lemma RunOne(t: bool, e: Event)
    ensures Run(t, [e]) == Effect(t, e)
  {
    assert [e][1..] == [];
    ThenQuiet(Effect(t, e));
  }

  /* The readers against their plain meanings. */

  /** The indicator after each prefix of a list, one event at a time. */
  lemma RunPrefix(t: bool, es: seq<Event>, j: nat)
    requires j < |es|
    ensures Run(t, es[..j + 1]) == Then(Run(t, es[..j]), Effect(Run(t, es[..j]).typing, es[j]))
  {
    assert es[..j + 1] == es[..j] + [es[j]];
    RunConcat(t, es[..j], [es[j]]);
    RunOne(Run(t, es[..j]).typing, es[j]);
  }

  /** Whether the event at `j`, if it adds a bot message, does so with the indicator not showing. */
  predicate HiddenAt(t: bool, es: seq<Event>, j: int) {
    0 <= j < |es| && IsBotMessage(es[j]) ==> !Run(t, es[..j]).typing
  }

  /** `hidden` says just this: each bot message is added at a point where the indicator is not showing. */
  lemma {:induction false} RunHiddenMeans(t: bool, es: seq<Event>)
    ensures Run(t, es).hidden <==> forall j :: HiddenAt(t, es, j)
    decreases |es|
  {
    if |es| > 0 {
      var last := es[|es| - 1];
      var init := es[..|es| - 1];
      RunHiddenMeans(t, init);
      assert es == init + [last];
      RunConcat(t, init, [last]);
      RunOne(Run(t, init).typing, last);
      assert es[..|init|] == init;
      forall j ensures HiddenAt(t, init, j) <==> (j < |init| ==> HiddenAt(t, es, j)) {
        if 0 <= j < |init| {
          assert init[j] == es[j] && init[..j] == es[..j];
        }
      }
      if Run(t, es).hidden {
        forall j ensures HiddenAt(t, es, j) {
          if j < |init| {
            assert HiddenAt(t, init, j);
          }
        }
      }
      if forall j :: HiddenAt(t, es, j) {
        assert HiddenAt(t, es, |init|);
      }
    }
  }

  /** Each message appended is the message of an `Append` event of the list, and each such message is appended. */
  lemma {:induction false} RunAppendedMeans(t: bool, es: seq<Event>)
    ensures forall m :: m in Run(t, es).appended <==> Append(m) in es
    decreases |es|
  {
    if |es| > 0 {
      RunAppendedMeans(Effect(t, es[0]).typing, es[1..]);
      assert es == [es[0]] + es[1..];
    }
  }

  /** The errors logged are the `LogError` events of the list. */
  lemma {:induction false} RunErrorsMeans(t: bool, es: seq<Event>)
    ensures Run(t, es).errors == multiset(es)[LogError]
    decreases |es|
  {
    if |es| > 0 {
      RunErrorsMeans(Effect(t, es[0]).typing, es[1..]);
      assert es == [es[0]] + es[1..];
      assert multiset(es) == multiset([es[0]]) + multiset(es[1..]);
    }
  }

  /** The event at `j` shows the indicator and no later event hides it. */
  predicate ShownAt(es: seq<Event>, j: int) {
    0 <= j < |es| && es[j] == ShowTyping && forall k :: j < k < |es| ==> es[k] != HideTyping
  }

  /** The indicator shows after a list exactly when some event shows it and none after hides it, or the list never touches it and it showed before. */
  lemma {:induction false} RunTypingMeans(t: bool, es: seq<Event>)
    ensures Run(t, es).typing
        <==> if ShowTyping !in es && HideTyping !in es then t else exists j :: ShownAt(es, j)
    decreases |es|
  {
    if |es| > 0 {
      var last := es[|es| - 1];
      var init := es[..|es| - 1];
      RunTypingMeans(t, init);
      assert es == init + [last];
      RunConcat(t, init, [last]);
      RunOne(Run(t, init).typing, last);
      if last == ShowTyping {
        assert ShownAt(es, |init|);
      } else if last == HideTyping {
        forall j ensures !ShownAt(es, j) {
          if 0 <= j < |init| {
            assert es[|init|] == HideTyping;
          }
        }
      } else {
        InitShownAt(es, init, last);
      }
    }
  }

  /** A last event that neither shows nor hides the indicator changes nothing about where it was last shown. */
  lemma InitShownAt(es: seq<Event>, init: seq<Event>, last: Event)
    requires es == init + [last] && last != ShowTyping && last != HideTyping
    ensures (ShowTyping in es <==> ShowTyping in init) && (HideTyping in es <==> HideTyping in init)
    ensures (exists j :: ShownAt(es, j)) <==> exists j :: ShownAt(init, j)
  {
    assert forall k :: 0 <= k < |init| ==> init[k] == es[k];
    forall j | ShownAt(init, j) ensures ShownAt(es, j) {
    }
    forall j | ShownAt(es, j) ensures ShownAt(init, j) {
      assert j < |init|;
    }
  }

  /* ---------------- the parts of a turn ---------------- */

  /** One upload: the indicator is shown, then hidden before the one bot message; nothing is spoken or logged. */
  lemma UploadShape(t: bool, es: seq<Event>)
    requires |es| == 5 && es[0] == ShowTyping && es[1].Post? && es[2] == HideTyping && es[3].Append? && es[4].Toast?
    ensures Run(t, es) == Trace([es[3].message], [], 0, false, true)
  {
    assert Run(false, es[4..]) == Quiet(false);
    assert Run(false, es[3..]) == Trace([es[3].message], [], 0, false, true);
    assert Run(true, es[2..]) == Trace([es[3].message], [], 0, false, true);
    assert Run(true, es[1..]) == Trace([es[3].message], [], 0, false, true);
  }

  /** An upload whose file could not be read: the same, without the request. */
  lemma UnreadShape(t: bool, es: seq<Event>)
    requires |es| == 4 && es[0] == ShowTyping && es[1] == HideTyping && es[2].Append? && es[3].Toast?
    ensures Run(t, es) == Trace([es[2].message], [], 0, false, true)
  {
    assert Run(false, es[3..]) == Quiet(false);
    assert Run(false, es[2..]) == Trace([es[2].message], [], 0, false, true);
    assert Run(true, es[1..]) == Trace([es[2].message], [], 0, false, true);
  }

  lemma UploadTrace(t: bool, f: File, o: UploadOutcome)
    requires !o.SelectorError?
    ensures Run(t, UploadEvents(f, o)) == Trace([UploadReply(f, o)], [], 0, false, true)
  {
    if o.Unread? {
      UnreadShape(t, UploadEvents(f, o));
    } else {
      UploadShape(t, UploadEvents(f, o));
    }
  }

  /** The bot messages of the uploads, one per file the loop reaches, in staged order. */
  function UploadReplies(files: seq<File>, outcomes: seq<UploadOutcome>): (ms: seq<Message>)
    requires |outcomes| == |files|
    ensures |ms| == Reached(outcomes)
    ensures forall i :: 0 <= i < Reached(outcomes) ==> ms[i] == UploadReply(files[i], outcomes[i])
  {
    var k := Reached(outcomes);
    seq(k, i requires 0 <= i < k => UploadReply(files[i], outcomes[i]))
  }

  /**
   The uploads as a whole: one bot message per file before the first selector
   error, in staged order, nothing spoken or logged, each reply added with the
   indicator hidden, and the indicator hidden at the end if any file was reached.
   */
  lemma {:induction false} UploadAllTrace(t: bool, files: seq<File>, outcomes: seq<UploadOutcome>)
    requires |outcomes| == |files|
    ensures Run(t, UploadAll(files, outcomes))
        == Trace(UploadReplies(files, outcomes), [], 0, if Reached(outcomes) == 0 then t else false, true)
    decreases |files|
  {
    if |files| > 0 && !outcomes[0].SelectorError? {
      var head := UploadEvents(files[0], outcomes[0]);
      var rest := UploadAll(files[1..], outcomes[1..]);
      assert Reached(outcomes) == Reached(outcomes[1..]) + 1;
      UploadTrace(t, files[0], outcomes[0]);
      UploadAllTrace(false, files[1..], outcomes[1..]);
      RunConcat(t, head, rest);
      assert UploadReplies(files, outcomes) == [UploadReply(files[0], outcomes[0])] + UploadReplies(files[1..], outcomes[1..]);
    }
  }

  /** A reply that hides the indicator and adds its bot message. */
  lemma HideAddShape(t: bool, es: seq<Event>)
    requires |es| == 2 && es[0] == HideTyping && es[1].Append? && es[1].message.sender == Bot
    ensures Run(t, es) == Trace([es[1].message], [], 0, false, true)
  {
    assert Run(false, es[1..]) == Trace([es[1].message], [], 0, false, true);
  }

  /** A reply that hides the indicator, adds its bot message and speaks. */
  lemma HideAddSpeakShape(t: bool, es: seq<Event>)
    requires |es| == 3 && es[0] == HideTyping && es[1].Append? && es[1].message.sender == Bot && es[2].Speak?
    ensures Run(t, es) == Trace([es[1].message], [es[2].text], 0, false, true)
  {
    assert Run(false, es[2..]) == Trace([], [es[2].text], 0, false, true);
    assert Run(false, es[1..]) == Trace([es[1].message], [es[2].text], 0, false, true);
  }

  /** A failed chat request: an error is logged, the indicator hidden, the bot message added. */
  lemma LogHideAddShape(t: bool, es: seq<Event>)
    requires |es| == 3 && es[0] == LogError && es[1] == HideTyping && es[2].Append? && es[2].message.sender == Bot
    ensures Run(t, es) == Trace([es[2].message], [], 1, false, true)
  {
    assert Run(false, es[2..]) == Trace([es[2].message], [], 0, false, true);
    assert Run(t, es[1..]) == Trace([es[2].message], [], 0, false, true);
  }

  /** Whether a chat reply is spoken: a successful chat reply with speech switched on. */
  predicate SpeaksReply(route: Route, reply: Reply, settings: Settings) {
    && route.Chat? && ChatFailure(reply).None?
    && Truthy(if "voiceEnabled" in settings then Some(settings["voiceEnabled"]) else None)
  }

  /** Whether the message's request logs a console error: a chat request that failed. */
  predicate LogsError(route: Route, reply: Reply) {
    route.Chat? && ChatFailure(reply).Some?
  }

  /** What the part after the request adds, speaks and logs; its bot message is added with the indicator hidden. */
  lemma ReplyTrace(t: bool, route: Route, reply: Reply, settings: Settings)
    ensures Run(t, ReplyEvents(route, reply, settings))
        == Trace([Message(ReplyText(route, reply), Bot)],
                 if SpeaksReply(route, reply, settings) then [reply.body] else [],
                 if LogsError(route, reply) then 1 else 0,
                 false, true)
  {
    var es := ReplyEvents(route, reply, settings);
    if !route.Chat? || ChatFailure(reply).Some? {
      if LogsError(route, reply) {
        LogHideAddShape(t, es);
      } else {
        HideAddShape(t, es);
      }
    } else if SpeaksReply(route, reply, settings) {
      HideAddSpeakShape(t, es);
    } else {
      var a := [HideTyping, Append(Message(reply.body, Bot))];
      assert es == a + [];
      HideAddShape(t, a);
    }
  }

  /** Before its request, a message adds itself as a user message and shows the indicator. */
  lemma RequestShape(t: bool, es: seq<Event>)
    requires |es| == 3 && es[0].Append? && es[0].message.sender == User && es[1] == ShowTyping && es[2].Post?
    ensures Run(t, es) == Trace([es[0].message], [], 0, true, true)
  {
    assert Run(true, es[2..]) == Quiet(true);
    assert Run(t, es[1..]) == Quiet(true);
  }

  /** What the message part of a turn adds, speaks and logs; its bot message is added with the indicator hidden. */
  lemma MessageTrace(t: bool, message: string, reply: Reply, settings: Settings)
    ensures var route := RouteOf(message);
      Run(t, MessageEvents(message, reply, settings))
        == Trace([Message(message, User), Message(ReplyText(route, reply), Bot)],
                 if SpeaksReply(route, reply, settings) then [reply.body] else [],
                 if LogsError(route, reply) then 1 else 0,
                 false, true)
  {
    var route := RouteOf(message);
    var head := [Append(Message(message, User)), ShowTyping, Post(EndpointOf(route), Subject(route))];
    var tail := ReplyEvents(route, reply, settings);
    assert MessageEvents(message, reply, settings) == head + tail;
    RequestShape(t, head);
    ReplyTrace(true, route, reply, settings);
    RunConcat(t, head, tail);
    RequestThenReply(Run(t, head), Run(true, tail));
  }

  /** A request's trace followed by its reply's. */
  lemma RequestThenReply(x: Trace, y: Trace)
    requires |x.appended| == 1 && x.spoken == [] && x.errors == 0 && x.typing && x.hidden
    requires |y.appended| == 1 && !y.typing && y.hidden
    ensures Then(x, y) == Trace([x.appended[0], y.appended[0]], y.spoken, y.errors, false, true)
  {
    assert x.appended + y.appended == [x.appended[0], y.appended[0]];
    assert [] + y.spoken == y.spoken;
  }

  /** The whole turn: what happens, and the session afterwards. */
  datatype Outcome = Outcome(session: Session, events: seq<Event>)

  /**
   `handleSendMessage`: nothing at all for a blank input with nothing staged;
   otherwise the staged files are uploaded first and then, if the trimmed input
   is not empty, it is sent. Uploading empties the staged list. A selector
   error in the upload loop ends the send where it happens: the message is not
   sent, and the input and the staged list stay as they were.
   */
  function Turn(s: Session, uploads: seq<UploadOutcome>, reply: Reply): (r: Outcome)
    requires |uploads| == |s.staged|
    ensures r.events == [] <==> (TrimJs(s.input) == "" && |s.staged| == 0) || Reached(uploads) == 0 < |s.staged|
    ensures r.events == [] ==> r.session == s
    ensures r.session.settings == s.settings
    ensures r.events != [] && !Aborts(uploads) ==> r.session.staged == []
    ensures Aborts(uploads) ==> r.session.staged == s.staged && r.session.input == s.input
    ensures TrimJs(s.input) != "" && !Aborts(uploads) ==> r.session.input == ""
    ensures TrimJs(s.input) == "" ==> r.session.input == s.input
    ensures r.session.messages == s.messages + Run(s.typing, r.events).appended
    ensures r.session.typing == Run(s.typing, r.events).typing
  {
    var message := TrimJs(s.input);
    if message == "" && |s.staged| == 0 then Outcome(s, [])
    else if Reached(uploads) == 0 < |s.staged| then Outcome(s, [])  // the first lookup throws: nothing happens
    else
      var es := TurnEvents(s, uploads, reply);
      Outcome(SessionAfter(s, es, message != "", Aborts(uploads)), es)
  }

  /** The events of a turn that does something: the uploads first, then the message, if any and if the uploads did not abort. */
  function TurnEvents(s: Session, uploads: seq<UploadOutcome>, reply: Reply): seq<Event>
    requires |uploads| == |s.staged|
  {
    var message := TrimJs(s.input);
    UploadAll(s.staged, uploads) + (if message != "" && !Aborts(uploads) then MessageEvents(message, reply, s.settings) else [])
  }

  /**
   The session after the events: their messages added; unless the send
   aborted, nothing staged and the input emptied if it was sent.
   */
  function SessionAfter(s: Session, es: seq<Event>, sent: bool, aborted: bool): Session {
    var x := Run(s.typing, es);
    Session(s.messages + x.appended, if aborted then s.staged else [], x.typing,
            if sent && !aborted then "" else s.input, s.settings)
  }

  /** The events of a turn, by case. */
  lemma TurnEventsOf(s: Session, uploads: seq<UploadOutcome>, reply: Reply)
    requires |uploads| == |s.staged|
    ensures Turn(s, uploads, reply).events == TurnEvents(s, uploads, reply)
    ensures var m := TrimJs(s.input);
      TurnEvents(s, uploads, reply)
        == UploadAll(s.staged, uploads) + (if m != "" && !Aborts(uploads) then MessageEvents(m, reply, s.settings) else [])
  {
  }

  /** Uploads, which speak and log nothing, followed by a message. */
  lemma UploadsThenMessage(x: Trace, y: Trace)
    requires x.spoken == [] && x.errors == 0 && x.hidden
    ensures Then(x, y) == Trace(x.appended + y.appended, y.spoken, y.errors, y.typing, y.hidden)
  {
    assert [] + y.spoken == y.spoken;
  }

  /** The trace of the events of a turn, for any starting indicator, staged files and input. */
  lemma EventsTrace(t: bool, staged: seq<File>, uploads: seq<UploadOutcome>, m: string, reply: Reply, settings: Settings)
    requires |uploads| == |staged|
    ensures var route := RouteOf(m);
      var sent := m != "" && !Aborts(uploads);
      Run(t, UploadAll(staged, uploads) + (if sent then MessageEvents(m, reply, settings) else []))
        == Trace(UploadReplies(staged, uploads)
                   + (if sent then [Message(m, User), Message(ReplyText(route, reply), Bot)] else []),
                 if sent && SpeaksReply(route, reply, settings) then [reply.body] else [],
                 if sent && LogsError(route, reply) then 1 else 0,
                 if !sent && Reached(uploads) == 0 then t else false,
                 true)
  {
    if m != "" && !Aborts(uploads) {
      SentTrace(t, staged, uploads, m, reply, settings);
    } else {
      var ups := UploadAll(staged, uploads);
      UploadAllTrace(t, staged, uploads);
      assert ups + [] == ups;
      assert UploadReplies(staged, uploads) + [] == UploadReplies(staged, uploads);
    }
  }

  lemma SentTrace(t: bool, staged: seq<File>, uploads: seq<UploadOutcome>, m: string, reply: Reply, settings: Settings)
    requires |uploads| == |staged|
    ensures var route := RouteOf(m);
      Run(t, UploadAll(staged, uploads) + MessageEvents(m, reply, settings))
        == Trace(UploadReplies(staged, uploads) + [Message(m, User), Message(ReplyText(route, reply), Bot)],
                 if SpeaksReply(route, reply, settings) then [reply.body] else [],
                 if LogsError(route, reply) then 1 else 0,
                 false, true)
  {
    var ups := UploadAll(staged, uploads);
    var tail := MessageEvents(m, reply, settings);
    var x := Run(t, ups);
    UploadAllTrace(t, staged, uploads);
    MessageTrace(x.typing, m, reply, settings);
    RunConcat(t, ups, tail);
    UploadsThenMessage(x, Run(x.typing, tail));
  }

  /**
   The trace of a whole turn: one bot message per staged file the upload loop
   reaches, in staged order; then, for a non-blank input and uploads that did
   not abort, exactly one user message (the trimmed input) followed by exactly
   one bot message. Only a successful chat reply is spoken, and only with
   speech switched on; only a failed chat request logs an error. Every bot
   message is added with the indicator hidden, and a turn that did anything
   leaves it hidden.
   */
  lemma TurnTrace(s: Session, uploads: seq<UploadOutcome>, reply: Reply)
    requires |uploads| == |s.staged|
    ensures var m := TrimJs(s.input);
      var sent := m != "" && !Aborts(uploads);
      var r := Turn(s, uploads, reply);
      var route := RouteOf(m);
      Run(s.typing, r.events)
        == Trace(UploadReplies(s.staged, uploads)
                   + (if sent then [Message(m, User), Message(ReplyText(route, reply), Bot)] else []),
                 if sent && SpeaksReply(route, reply, s.settings) then [reply.body] else [],
                 if sent && LogsError(route, reply) then 1 else 0,
                 if !sent && Reached(uploads) == 0 then s.typing else false,
                 true)
  {
    TurnEventsOf(s, uploads, reply);
    TurnEventsTrace(s, uploads, reply);
  }

  lemma TurnEventsTrace(s: Session, uploads: seq<UploadOutcome>, reply: Reply)
    requires |uploads| == |s.staged|
    ensures var m := TrimJs(s.input);
      var sent := m != "" && !Aborts(uploads);
      var route := RouteOf(m);
      Run(s.typing, TurnEvents(s, uploads, reply))
        == Trace(UploadReplies(s.staged, uploads)
                   + (if sent then [Message(m, User), Message(ReplyText(route, reply), Bot)] else []),
                 if sent && SpeaksReply(route, reply, s.settings) then [reply.body] else [],
                 if sent && LogsError(route, reply) then 1 else 0,
                 if !sent && Reached(uploads) == 0 then s.typing else false,
                 true)
  {
    EventsTrace(s.typing, s.staged, uploads, TrimJs(s.input), reply, s.settings);
  }

  /** With the default settings, and any settings that keep speech off, a turn speaks nothing. */
  lemma DefaultSettingsSpeakNothing(s: Session, uploads: seq<UploadOutcome>, reply: Reply)
    requires |uploads| == |s.staged|
    requires "voiceEnabled" in s.settings ==> s.settings["voiceEnabled"] == Defaults["voiceEnabled"]
    ensures Run(s.typing, Turn(s, uploads, reply).events).spoken == []
  {
    TurnTrace(s, uploads, reply);
  }

  /**
   The messages a turn adds, in order: the replies of the uploads the loop
   reaches, then, unless the loop aborted, the message and its answer.
   */
  lemma TurnMessages(s: Session, uploads: seq<UploadOutcome>, reply: Reply)
    requires |uploads| == |s.staged|
    ensures var m := TrimJs(s.input);
      Turn(s, uploads, reply).session.messages
        == s.messages + UploadReplies(s.staged, uploads)
           + (if m != "" && !Aborts(uploads) then [Message(m, User), Message(ReplyText(RouteOf(m), reply), Bot)] else [])
  {
    var m := TrimJs(s.input);
    var r := Turn(s, uploads, reply);
    var sent := if m != "" && !Aborts(uploads) then [Message(m, User), Message(ReplyText(RouteOf(m), reply), Bot)] else [];
    TurnTrace(s, uploads, reply);
    MessagesAdded(s.messages, r.session.messages, Run(s.typing, r.events).appended, UploadReplies(s.staged, uploads), sent);
  }

  lemma MessagesAdded(before: seq<Message>, after: seq<Message>, added: seq<Message>, ups: seq<Message>, sent: seq<Message>)
    requires after == before + added && added == ups + sent
    ensures after == before + ups + sent
  {
  }

  /** Every bot message of a turn is added while the typing indicator is not showing. */
  lemma TurnHidesIndicator(s: Session, uploads: seq<UploadOutcome>, reply: Reply)
    requires |uploads| == |s.staged|
    ensures forall j :: HiddenAt(s.typing, Turn(s, uploads, reply).events, j)
    ensures var r := Turn(s, uploads, reply); r.events != [] ==> !r.session.typing
  {
    TurnTrace(s, uploads, reply);
    RunHiddenMeans(s.typing, Turn(s, uploads, reply).events);
  }

  /* ---------------- a file name the preview selector cannot hold ---------------- */

  /**
   As written, a selector error ends the send: the replies of the files before
   it are added, but the message is not sent, the input is kept, and every
   staged file stays staged, the ones already uploaded included.
   */
  lemma SelectorErrorStopsSend(s: Session, uploads: seq<UploadOutcome>, reply: Reply)
    requires |uploads| == |s.staged| && Aborts(uploads)
    ensures var r := Turn(s, uploads, reply);
      && r.session.staged == s.staged
      && r.session.input == s.input
      && r.session.messages == s.messages + UploadReplies(s.staged, uploads)
      && |r.session.messages| < |s.messages| + |s.staged|
  {
    TurnMessages(s, uploads, reply);
  }

  /**
   A text file named `my "notes".txt` is accepted for staging, but a send with
   it staged does nothing at all: its preview lookup throws first.
   */
  lemma QuotedNameStopsSend(reason: string)
    ensures var f := File("my \"notes\".txt", "text/plain", 12);
      var s := Session([], [f], false, "hello", Defaults);
      && IsFileTypeSupported(f)
      && Turn(s, [SelectorError(reason)], Ok("hi")) == Outcome(s, [])
  {
    var f := File("my \"notes\".txt", "text/plain", 12);
    assert f.mimeType in SupportedTypes;
  }

  /**
   The lookup moved inside the `try`, after the indicator is shown: a selector
   error is then caught and reported like a failed read.
   */
  function Caught(o: UploadOutcome): UploadOutcome {
    if o.SelectorError? then Unread(o.reason) else o
  }

  function CaughtAll(outcomes: seq<UploadOutcome>): (cs: seq<UploadOutcome>)
    ensures |cs| == |outcomes|
    ensures forall i :: 0 <= i < |cs| ==> cs[i] == Caught(outcomes[i])
  {
    seq(|outcomes|, i requires 0 <= i < |outcomes| => Caught(outcomes[i]))
  }

  /**
   The send with the lookup corrected: every staged file is uploaded and
   reported, in staged order, whatever its name; a non-blank message is then
   sent and answered, and the input and the staged list are emptied.
   */
  function TurnCorrected(s: Session, uploads: seq<UploadOutcome>, reply: Reply): (r: Outcome)
    requires |uploads| == |s.staged|
    ensures r.events == [] <==> TrimJs(s.input) == "" && |s.staged| == 0
    ensures r.events != [] ==> r.session.staged == []
    ensures TrimJs(s.input) != "" ==> r.session.input == ""
    ensures |r.session.messages| == |s.messages| + |s.staged| + (if TrimJs(s.input) != "" then 2 else 0)
    ensures var m := TrimJs(s.input);
      var ups := r.session.messages[|s.messages|..|s.messages| + |s.staged|];
      && r.session.messages[..|s.messages|] == s.messages
      && (forall i :: 0 <= i < |s.staged| ==> ups[i] == UploadReply(s.staged[i], Caught(uploads[i])))
      && (m != "" ==> r.session.messages[|s.messages| + |s.staged|..]
                        == [Message(m, User), Message(ReplyText(RouteOf(m), reply), Bot)])
  {
    var cs := CaughtAll(uploads);
    assert !Aborts(cs);
    TurnMessages(s, cs, reply);
    Turn(s, cs, reply)
  }
}
