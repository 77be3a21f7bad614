// The client's markdown-like formatter (`formatMessage`): five global replaces
// applied in order, each a left-to-right scan that takes the leftmost match,
// replaces it, and resumes after it:
//
//   1. /\*\*(.*?)\*\*/g                 -> <strong>$1</strong>
//   2. /\*(.*?)\*/g                     -> <em>$1</em>
//   3. /```(\w+)?\n?([\s\S]*?)```/g     -> <pre><code class="language-L">trimmed code</code></pre>
//   4. /`(.*?)`/g                       -> <code>$1</code>
//   5. /\n/g                            -> <br>
//
// `.` does not match a line terminator; `[\s\S]` matches anything.
module Formatter {
  import opened Options
  import opened Text

  /** No character of `t` is a line terminator: the texts `.*` can span. */
  predicate SingleLine(t: string) {
    forall i :: 0 <= i < |t| ==> !IsLineTerminator(t[i])
  }

  /* ---------------- passes 1, 2 and 4: d(.*?)d ---------------- */

  /**
   Where the lazy `(.*?)d` stops when it starts at `j`: the first `k >= j` at which
   `d` occurs, provided the characters in between hold no line terminator.
   */
  function FindClose(s: string, d: string, j: nat): (r: Option<nat>)
    requires j <= |s|
    ensures r.Some? ==> j <= r.value <= |s| && OccursAt(s, d, r.value)
    decreases |s| - j
  {
    if OccursAt(s, d, j) then Some(j)
    else if j == |s| || IsLineTerminator(s[j]) then None
    else FindClose(s, d, j + 1)
  }

  /** The stop found is the first occurrence, and the text skipped holds no line terminator; with none found, every occurrence lies past one. */
  lemma {:induction false} FindCloseFirst(s: string, d: string, j: nat)
    requires j <= |s|
    ensures var r := FindClose(s, d, j);
      && (r.Some? ==> SingleLine(s[j..r.value]) && forall k :: j <= k < r.value ==> !OccursAt(s, d, k))
      && (r.None? ==> forall k :: j <= k && OccursAt(s, d, k) ==> !SingleLine(s[j..k]))
    decreases |s| - j
  {
    if !OccursAt(s, d, j) && j < |s| && !IsLineTerminator(s[j]) {
      FindCloseFirst(s, d, j + 1);
      forall k | j + 1 <= k <= |s|
        ensures SingleLine(s[j..k]) <==> SingleLine(s[j + 1..k])
      {
        assert s[j + 1..k] == s[j..k][1..];
      }
    }
  }

  /** Conversely, a first occurrence reached over one line is the stop found. */
  lemma {:induction false} FindCloseAt(s: string, d: string, j: nat, k: nat)
    requires j <= k <= |s| && OccursAt(s, d, k) && SingleLine(s[j..k])
    requires forall m :: j <= m < k ==> !OccursAt(s, d, m)
    ensures FindClose(s, d, j) == Some(k)
    decreases k - j
  {
    if j < k {
      assert s[j] == s[j..k][0];
      assert s[j + 1..k] == s[j..k][1..];
      FindCloseAt(s, d, j + 1, k);
    }
  }

  /** The end of the body when `d(.*?)d` matches at the start of `s`. */
  function PairMatch(s: string, d: string): Option<nat> {
    if OccursAt(s, d, 0) then FindClose(s, d, |d|) else None
  }

  /** One global non-greedy replace of `d(.*?)d` by `opening $1 closing`. */
  function PairPass(s: string, d: string, opening: string, closing: string): string
    requires |d| > 0
    decreases |s|
  {
    if |s| == 0 then ""
    else match PairMatch(s, d)
      case Some(k) => opening + s[|d|..k] + closing + PairPass(s[k + |d|..], d, opening, closing)
      case None => [s[0]] + PairPass(s[1..], d, opening, closing)
  }

  /** Text holding no character that can start the delimiter is copied through. */
  lemma {:induction false} PairPassSkip(p: string, t: string, d: string, opening: string, closing: string)
    requires |d| > 0 && d[0] !in p
    ensures PairPass(p + t, d, opening, closing) == p + PairPass(t, d, opening, closing)
    decreases |p|
  {
    if |p| > 0 {
      var u := p + t;
      assert u[0] == p[0] && u[1..] == p[1..] + t;
      PairPassCopy(u, d, opening, closing);
      PairPassSkip(p[1..], t, d, opening, closing);
      ConsJoin(p, PairPass(t, d, opening, closing));
    } else {
      assert p + t == t;
    }
  }

  /** Text not starting with the delimiter's first character passes its first character through. */
  lemma PairPassCopy(s: string, d: string, opening: string, closing: string)
    requires |d| > 0 && |s| > 0 && s[0] != d[0]
    ensures PairPass(s, d, opening, closing) == [s[0]] + PairPass(s[1..], d, opening, closing)
  {
    assert !OccursAt(s, d, 0);
  }

  lemma ConsJoin(p: string, x: string)
    requires |p| > 0
    ensures [p[0]] + (p[1..] + x) == p + x
  {
    HeadTail(p);
  }

  /** A pass changes nothing in text without the delimiter's first character. */
  lemma PairPassIdentity(s: string, d: string, opening: string, closing: string)
    requires |d| > 0 && d[0] !in s
    ensures PairPass(s, d, opening, closing) == s
  {
    PairPassSkip(s, "", d, opening, closing);
    assert s + "" == s;
  }

  /** Where the delimiter does not occur, one character is copied and the scan moves on. */
  lemma PairPassNoOpen(c: char, t: string, d: string, opening: string, closing: string)
    requires |d| > 0 && !OccursAt([c] + t, d, 0)
    ensures PairPass([c] + t, d, opening, closing) == [c] + PairPass(t, d, opening, closing)
  {
    assert ([c] + t)[1..] == t;
  }

  /**
   A delimited one-line body free of the delimiter's first character is wrapped,
   and the scan resumes right after the closing delimiter.
   */
  lemma PairPassMatch(body: string, rest: string, d: string, opening: string, closing: string)
    requires |d| > 0 && d[0] !in body && SingleLine(body)
    ensures PairPass(d + body + d + rest, d, opening, closing)
         == opening + body + closing + PairPass(rest, d, opening, closing)
  {
    var s := d + body + d + rest;
    var k := |d| + |body|;
    assert OccursAt(s, d, 0);
    assert OccursAt(s, d, k);
    assert s[|d|..k] == body;
    forall m | |d| <= m < k
      ensures !OccursAt(s, d, m)
    {
      assert s[m] == body[m - |d|];
    }
    FindCloseAt(s, d, |d|, k);
    assert s[k + |d|..] == rest;
  }

  /* ---------------- pass 3: fenced code blocks ---------------- */

  /** How far the greedy `(\w+)?` reaches from `i`. */
  function WordRun(s: string, i: nat): (n: nat)
    requires i <= |s|
    ensures i + n <= |s| && AllWordChars(s[i..i + n])
    ensures i + n == |s| || !IsWordChar(s[i + n])
    decreases |s| - i
  {
    if i < |s| && IsWordChar(s[i]) then
      var n := 1 + WordRun(s, i + 1);
      assert s[i + 1..i + n] == s[i..i + n][1..];
      n
    else 0
  }

  /** Where the lazy `[\s\S]*?` followed by `d` stops when it starts at `j`. */
  function FindFrom(s: string, d: string, j: nat): (r: Option<nat>)
    requires j <= |s|
    ensures r.Some? ==> j <= r.value <= |s| && OccursAt(s, d, r.value)
    decreases |s| - j
  {
    if OccursAt(s, d, j) then Some(j)
    else if j == |s| then None
    else FindFrom(s, d, j + 1)
  }

  /** The stop found is the first occurrence at or after `j`; with none found, there is none. */
  lemma {:induction false} FindFromFirst(s: string, d: string, j: nat)
    requires j <= |s|
    ensures var r := FindFrom(s, d, j);
      && (r.Some? ==> forall k :: j <= k < r.value ==> !OccursAt(s, d, k))
      && (r.None? ==> forall k :: j <= k ==> !OccursAt(s, d, k))
    decreases |s| - j
  {
    if !OccursAt(s, d, j) && j < |s| {
      FindFromFirst(s, d, j + 1);
    }
  }

  /** Conversely, the first occurrence at or after `j` is the stop found. */
  lemma {:induction false} FindFromAt(s: string, d: string, j: nat, k: nat)
    requires j <= k <= |s| && OccursAt(s, d, k)
    requires forall m :: j <= m < k ==> !OccursAt(s, d, m)
    ensures FindFrom(s, d, j) == Some(k)
    decreases k - j
  {
    if j < k {
      FindFromAt(s, d, j + 1, k);
    }
  }

  const Fence: string := "```"

  /** A fenced block matched at the start of the text: its tag, its raw code, and where the match ends. */
  datatype FenceMatch = FenceMatch(tag: string, code: string, end: nat)

  /**
   How the fenced-block pattern matches at the start of `s`, if it does. The greedy
   `(\w+)?` takes the whole word run and `\n?` takes a newline when one follows;
   backing off either never helps, because the characters they take are not
   backticks, so the closing fence can only lie at or after that point.
   */
  function FenceAt(s: string): (r: Option<FenceMatch>)
    ensures r.Some? ==> 6 <= r.value.end <= |s| && AllWordChars(r.value.tag)
    ensures r.Some? ==> !Contains(r.value.code, Fence)
  {
    if !OccursAt(s, Fence, 0) then None
    else
      var w := WordRun(s, 3);
      var p := if 3 + w < |s| && s[3 + w] == '\n' then 4 + w else 3 + w;
      match FindFrom(s, Fence, p)
      case None => None
      case Some(q) =>
        var code := s[p..q];
        FindFromFirst(s, Fence, p);
        ContainsIff(code, Fence);
        assert forall i :: OccursAt(code, Fence, i) ==> OccursAt(s, Fence, p + i) by {
          forall i | OccursAt(code, Fence, i)
            ensures OccursAt(s, Fence, p + i)
          {
            OccursInSlice(s, Fence, p, q, i);
          }
        }
        Some(FenceMatch(s[3..3 + w], code, q + 3))
  }

  /** The language label: the tag, or `plaintext` when the fence has none. */
  function Language(tag: string): (l: string)
    ensures tag != "" ==> l == tag
    ensures AllWordChars(tag) ==> '`' !in l && '\n' !in l
  {
    if tag == "" then "plaintext" else tag
  }

  const BlockOpen: string := "<pre><code class=\"language-"
  const BlockMid: string := "\">"
  const BlockClose: string := "</code></pre>"

  /** The markup around a code block holds no backtick, asterisk or newline. */
  lemma BlockMarkupIsInert()
    ensures '`' !in BlockOpen && '*' !in BlockOpen && '\n' !in BlockOpen
    ensures '`' !in BlockMid && '*' !in BlockMid && '\n' !in BlockMid
    ensures '`' !in BlockClose && '*' !in BlockClose && '\n' !in BlockClose
  {
    LiteralAvoids(BlockOpen);
    LiteralAvoids(BlockClose);
  }

  lemma LiteralAvoids(t: string)
    requires forall i :: 0 <= i < |t| ==> t[i] in "<>/\"=-abcdeglnoprsu "
    ensures '`' !in t && '*' !in t && '\n' !in t
  {
  }

  function CodeBlock(tag: string, code: string): string {
    BlockOpen + Language(tag) + BlockMid + TrimJs(code) + BlockClose
  }

  /** One global replace of fenced blocks by code-block markup. */
  function FencePass(s: string): string
    decreases |s|
  {
    if |s| == 0 then ""
    else match FenceAt(s)
      case Some(f) => CodeBlock(f.tag, f.code) + FencePass(s[f.end..])
      case None => [s[0]] + FencePass(s[1..])
  }

  lemma FenceAtNone(s: string)
    requires |s| > 0 && s[0] != '`'
    ensures FenceAt(s) == None
  {
    assert !OccursAt(s, Fence, 0);
  }

  lemma {:induction false} FencePassSkip(p: string, t: string)
    requires '`' !in p
    ensures FencePass(p + t) == p + FencePass(t)
    decreases |p|
  {
    if |p| > 0 {
      assert (p + t)[0] == p[0];
      FenceAtNone(p + t);
      assert FencePass(p + t) == [p[0]] + FencePass((p + t)[1..]);
      assert (p + t)[1..] == p[1..] + t;
      FencePassSkip(p[1..], t);
      assert p == [p[0]] + p[1..];
    } else {
      assert p + t == t;
    }
  }

  lemma FencePassIdentity(s: string)
    requires '`' !in s
    ensures FencePass(s) == s
  {
    FencePassSkip(s, "");
    assert s + "" == s;
  }

  lemma FencePassNoOpen(c: char, t: string)
    requires !OccursAt([c] + t, Fence, 0)
    ensures FencePass([c] + t) == [c] + FencePass(t)
  {
    assert ([c] + t)[1..] == t;
  }

  /** A fence whose tag line ends in a newline and whose code holds no backtick becomes one code block. */
  lemma FencePassBlock(tag: string, code: string, rest: string)
    requires AllWordChars(tag) && '`' !in code
    ensures FencePass(Fence + tag + "\n" + code + Fence + rest) == CodeBlock(tag, code) + FencePass(rest)
  {
    var s := Fence + tag + "\n" + code + Fence + rest;
    var q := 4 + |tag| + |code|;
    FenceAtBlock(tag, code, rest);
    assert s[q + 3..] == rest;
  }

  /** How the fenced-block pattern matches such a block. */
  lemma FenceAtBlock(tag: string, code: string, rest: string)
    requires AllWordChars(tag) && '`' !in code
    ensures FenceAt(Fence + tag + "\n" + code + Fence + rest)
         == Some(FenceMatch(tag, code, 7 + |tag| + |code|))
  {
    BlockLayout(tag, code, rest);
    FenceAtLaidOut(Fence + tag + "\n" + code + Fence + rest, tag, code);
  }

  /** The match of a text laid out as a fenced block, whatever follows it. */
  lemma FenceAtLaidOut(s: string, tag: string, code: string)
    requires AllWordChars(tag) && '`' !in code
    requires 7 + |tag| + |code| <= |s| && OccursAt(s, Fence, 0)
    requires s[3..3 + |tag|] == tag && s[3 + |tag|] == '\n'
    requires s[4 + |tag|..4 + |tag| + |code|] == code
    requires s[4 + |tag| + |code|..7 + |tag| + |code|] == Fence
    ensures FenceAt(s) == Some(FenceMatch(tag, code, 7 + |tag| + |code|))
  {
    var p := 4 + |tag|;
    TagRun(s, tag);
    CodeRun(s, code, p);
    FenceAtLine(s, |tag|, p + |code|);
  }

  /** Where the pieces of a fenced block sit in its text. */
  lemma BlockLayout(tag: string, code: string, rest: string)
    ensures var s := Fence + tag + "\n" + code + Fence + rest;
      var p := 4 + |tag|;
      var q := p + |code|;
      && q + 3 <= |s|
      && OccursAt(s, Fence, 0)
      && s[3..3 + |tag|] == tag && s[3 + |tag|] == '\n'
      && s[p..q] == code && s[q..q + 3] == Fence
  {
    var a1 := Fence + tag;
    var a2 := a1 + "\n";
    var a3 := a2 + code;
    var a4 := a3 + Fence;
    var s := a4 + rest;
    var p := 4 + |tag|;
    var q := p + |code|;
    // the opening fence
    SliceLeft(a4, rest, 0, 3);
    SliceLeft(a3, Fence, 0, 3);
    SliceLeft(a2, code, 0, 3);
    SliceLeft(a1, "\n", 0, 3);
    SliceLeft(Fence, tag, 0, 3);
    assert Fence[0..3] == Fence;
    // the tag and the newline after it
    SliceLeft(a4, rest, 3, 3 + |tag|);
    SliceLeft(a3, Fence, 3, 3 + |tag|);
    SliceLeft(a2, code, 3, 3 + |tag|);
    SliceLeft(a1, "\n", 3, 3 + |tag|);
    SliceRight(Fence, tag);
    assert s[3 + |tag|] == a2[3 + |tag|] == '\n';
    // the code and the closing fence
    SliceLeft(a4, rest, p, q);
    SliceLeft(a3, Fence, p, q);
    SliceRight(a2, code);
    SliceLeft(a4, rest, q, q + 3);
    SliceRight(a3, Fence);
  }

  lemma SliceLeft(x: string, y: string, i: nat, j: nat)
    requires i <= j <= |x|
    ensures (x + y)[i..j] == x[i..j]
  {
  }

  lemma SliceRight(x: string, y: string)
    ensures (x + y)[|x|..|x| + |y|] == y
  {
  }

  /** A fence whose word run ends the line matches up to the next fence. */
  lemma FenceAtLine(s: string, w: nat, q: nat)
    requires OccursAt(s, Fence, 0) && WordRun(s, 3) == w
    requires 3 + w < |s| && s[3 + w] == '\n'
    requires FindFrom(s, Fence, 4 + w) == Some(q)
    ensures 4 + w <= q <= |s|
    ensures FenceAt(s) == Some(FenceMatch(s[3..3 + w], s[4 + w..q], q + 3))
  {
  }

  /** The word run after the opening fence is exactly the tag. */
  lemma TagRun(s: string, tag: string)
    requires AllWordChars(tag) && |s| > 3 + |tag|
    requires s[3..3 + |tag|] == tag && s[3 + |tag|] == '\n'
    ensures WordRun(s, 3) == |tag|
  {
    var w := WordRun(s, 3);
    assert forall i :: 0 <= i < |tag| ==> s[3 + i] == tag[i];
  }

  /** The lazy code body stops at the first fence after backtick-free code. */
  lemma CodeRun(s: string, code: string, p: nat)
    requires p + |code| + 3 <= |s| && s[p..p + |code|] == code && '`' !in code
    requires s[p + |code|..p + |code| + 3] == Fence
    ensures FindFrom(s, Fence, p) == Some(p + |code|)
  {
    var q := p + |code|;
    forall m | p <= m < q
      ensures !OccursAt(s, Fence, m)
    {
      assert s[m] == code[m - p];
    }
    FindFromAt(s, Fence, p, q);
  }

  /* ---------------- pass 5: line breaks ---------------- */

  /** Every newline becomes `<br>`. */
  function BreakLines(s: string): (r: string)
    ensures '\n' !in r
    ensures '\n' !in s ==> r == s
    decreases |s|
  {
    if |s| == 0 then ""
    else (if s[0] == '\n' then "<br>" else [s[0]]) + BreakLines(s[1..])
  }

  lemma {:induction false} BreakLinesAppend(a: string, b: string)
    ensures BreakLines(a + b) == BreakLines(a) + BreakLines(b)
    decreases |a|
  {
    if |a| > 0 {
      var h := if a[0] == '\n' then "<br>" else [a[0]];
      assert (a + b)[0] == a[0];
      assert (a + b)[1..] == a[1..] + b;
      assert BreakLines(a + b) == h + BreakLines(a[1..] + b);
      BreakLinesAppend(a[1..], b);
      assert BreakLines(a) == h + BreakLines(a[1..]);
    } else {
      assert a + b == b;
    }
  }

  /* ---------------- the formatter ---------------- */

  /** `formatMessage`: the five passes in source order. */
  function FormatMessage(text: string): (r: string)
    ensures '\n' !in r
  {
    var bold := PairPass(text, "**", "<strong>", "</strong>");
    var italic := PairPass(bold, "*", "<em>", "</em>");
    var blocks := FencePass(italic);
    var inline := PairPass(blocks, "`", "<code>", "</code>");
    BreakLines(inline)
  }

  /** The passes compose as the source chains them. */
  lemma FormatSteps(text: string, bold: string, italic: string, blocks: string, inline: string)
    requires PairPass(text, "**", "<strong>", "</strong>") == bold
    requires PairPass(bold, "*", "<em>", "</em>") == italic
    requires FencePass(italic) == blocks
    requires PairPass(blocks, "`", "<code>", "</code>") == inline
    ensures FormatMessage(text) == BreakLines(inline)
  {
  }

  /** Text without `*`, backtick or newline is returned unchanged. */
  lemma PlainTextUnchanged(text: string)
    requires '*' !in text && '`' !in text && '\n' !in text
    ensures FormatMessage(text) == text
  {
    PairPassIdentity(text, "**", "<strong>", "</strong>");
    PairPassIdentity(text, "*", "<em>", "</em>");
    FencePassIdentity(text);
    PairPassIdentity(text, "`", "<code>", "</code>");
    FormatSteps(text, text, text, text, text);
  }

  lemma TrimJsWithin(s: string, c: char)
    requires c !in s
    ensures c !in TrimJs(s)
  {
    var t := TrimStart(s, IsJsWhitespace);
    var r := TrimEnd(t, IsJsWhitespace);
    assert TrimJs(s) == r;
    assert forall i :: 0 <= i < |t| ==> t[i] == s[|s| - |t| + i];
    assert forall i :: 0 <= i < |r| ==> r[i] == t[i];
  }

  lemma WordCharsHaveNoStar(tag: string)
    requires AllWordChars(tag)
    ensures '*' !in tag
  {
  }

  lemma CodeBlockBreakLines(tag: string, code: string)
    requires AllWordChars(tag)
    ensures BreakLines(CodeBlock(tag, code))
         == BlockOpen + Language(tag) + BlockMid + BreakLines(TrimJs(code)) + BlockClose
  {
    var head := BlockOpen + Language(tag) + BlockMid;
    var body := TrimJs(code);
    BlockMarkupIsInert();
    assert CodeBlock(tag, code) == head + body + BlockClose;
    assert '\n' !in head;
    BreakLinesAppend(head + body, BlockClose);
    BreakLinesAppend(head, body);
  }

  lemma CodeBlockHasNoBacktick(tag: string, code: string)
    requires AllWordChars(tag) && '`' !in code
    ensures '`' !in CodeBlock(tag, code)
  {
    BlockMarkupIsInert();
    TrimJsWithin(code, '`');
  }

  /**
   A fenced block, tagged or not, is rendered as one code block labelled
   `language-<tag>` (or `language-plaintext`) around the trimmed code, whose
   inner newlines become `<br>`.
   */
  lemma FencedBlockFormat(tag: string, code: string)
    requires AllWordChars(tag) && '`' !in code && '*' !in code
    ensures FormatMessage(Fence + tag + "\n" + code + Fence)
         == BlockOpen + Language(tag) + BlockMid + BreakLines(TrimJs(code)) + BlockClose
  {
    var s := Fence + tag + "\n" + code + Fence;
    WordCharsHaveNoStar(tag);
    assert '*' !in s;
    PairPassIdentity(s, "**", "<strong>", "</strong>");
    PairPassIdentity(s, "*", "<em>", "</em>");
    var block := CodeBlock(tag, code);
    FencePassBlock(tag, code, "");
    assert s + "" == s;
    assert block + FencePass("") == block;
    CodeBlockHasNoBacktick(tag, code);
    PairPassIdentity(block, "`", "<code>", "</code>");
    FormatSteps(s, s, s, block, block);
    CodeBlockBreakLines(tag, code);
  }

  /** Text that none of the five passes reacts to. */
  predicate Inert(t: string) {
    '*' !in t && '`' !in t && SingleLine(t)
  }

  /** A single asterisk that is not followed by another does not open bold text. */
  lemma LoneStar(t: string, opening: string, closing: string)
    requires |t| > 0 ==> t[0] != '*'
    ensures PairPass(['*'] + t, "**", opening, closing) == ['*'] + PairPass(t, "**", opening, closing)
  {
    if |t| > 0 {
      assert (['*'] + t)[1] == t[0];
    }
    assert !OccursAt(['*'] + t, "**", 0);
    PairPassNoOpen('*', t, "**", opening, closing);
  }

  /** Plain text, then `*b*`, then text free of asterisks: the bold pass leaves all of it alone. */
  lemma BoldPassSkipsItalic(x: string, b: string, tail: string)
    requires '*' !in x && '*' !in b && '*' !in tail && |b| > 0
    ensures PairPass(x + (['*'] + (b + (['*'] + tail))), "**", "<strong>", "</strong>")
         == x + (['*'] + (b + (['*'] + tail)))
  {
    var o, cl := "<strong>", "</strong>";
    PairPassIdentity(tail, "**", o, cl);
    LoneStar(tail, o, cl);
    PairPassSkip(b, ['*'] + tail, "**", o, cl);
    LoneStar(b + (['*'] + tail), o, cl);
    PairPassSkip(x, ['*'] + (b + (['*'] + tail)), "**", o, cl);
  }

  lemma InlineBoldPass(a: string, x: string, b: string, y: string, c: string)
    requires Inert(a) && Inert(x) && Inert(b) && Inert(y) && Inert(c) && |b| > 0
    ensures PairPass("**" + a + "**" + x + "*" + b + "*" + y + "`" + c + "`", "**", "<strong>", "</strong>")
         == "<strong>" + a + "</strong>" + x + "*" + b + "*" + y + "`" + c + "`"
  {
    var tail := y + "`" + c + "`";
    var r1 := x + (['*'] + (b + (['*'] + tail)));
    BoldPassSkipsItalic(x, b, tail);
    InlineBoldShape(a, x, b, y, c);
    BoldStep("**" + a + "**" + x + "*" + b + "*" + y + "`" + c + "`", a, r1,
      "<strong>" + a + "</strong>" + x + "*" + b + "*" + y + "`" + c + "`");
  }

  /** Bold text at the front, followed by text the bold pass leaves alone. */
  lemma BoldStep(whole: string, a: string, r1: string, result: string)
    requires whole == "**" + a + "**" + r1 && result == "<strong>" + a + "</strong>" + r1
    requires '*' !in a && SingleLine(a) && PairPass(r1, "**", "<strong>", "</strong>") == r1
    ensures PairPass(whole, "**", "<strong>", "</strong>") == result
  {
    PairPassMatch(a, r1, "**", "<strong>", "</strong>");
  }

  lemma InlineBoldShape(a: string, x: string, b: string, y: string, c: string)
    ensures "**" + a + "**" + x + "*" + b + "*" + y + "`" + c + "`"
         == "**" + a + "**" + (x + (['*'] + (b + (['*'] + (y + "`" + c + "`")))))
    ensures "<strong>" + a + "</strong>" + x + "*" + b + "*" + y + "`" + c + "`"
         == "<strong>" + a + "</strong>" + (x + (['*'] + (b + (['*'] + (y + "`" + c + "`")))))
  {
  }

  /** After asterisk-free text, `*b*` becomes emphasis and the asterisk-free rest is kept. */
  lemma ItalicPassAfter(head: string, b: string, tail: string)
    requires '*' !in head && '*' !in b && SingleLine(b) && '*' !in tail
    ensures PairPass(head + ("*" + b + "*" + tail), "*", "<em>", "</em>") == head + ("<em>" + b + "</em>" + tail)
  {
    PairPassIdentity(tail, "*", "<em>", "</em>");
    PairPassMatch(b, tail, "*", "<em>", "</em>");
    PairPassSkip(head, "*" + b + "*" + tail, "*", "<em>", "</em>");
  }

  lemma InlineItalicPass(head: string, b: string, y: string, c: string)
    requires '*' !in head && Inert(b) && Inert(y) && Inert(c)
    ensures PairPass(head + "*" + b + "*" + y + "`" + c + "`", "*", "<em>", "</em>")
         == head + "<em>" + b + "</em>" + y + "`" + c + "`"
  {
    var tail := y + "`" + c + "`";
    assert '*' !in tail;
    InlineItalicShape(head, b, y, c);
    ItalicPassAfter(head, b, tail);
  }

  lemma StrongHasNoStar(a: string, x: string)
    requires '*' !in a && '*' !in x
    ensures '*' !in "<strong>" + a + "</strong>" + x
  {
    assert '*' !in "<strong>" && '*' !in "</strong>";
  }

  lemma InlineItalicShape(head: string, b: string, y: string, c: string)
    ensures head + "*" + b + "*" + y + "`" + c + "`" == head + ("*" + b + "*" + (y + "`" + c + "`"))
    ensures head + "<em>" + b + "</em>" + y + "`" + c + "`" == head + ("<em>" + b + "</em>" + (y + "`" + c + "`"))
  {
  }

  /** A backtick followed by a backtick-free text and one more backtick does not open a fence. */
  lemma TickNoFence(c: string)
    requires '`' !in c
    ensures !OccursAt(['`'] + (c + "`"), Fence, 0)
  {
    var s := ['`'] + (c + "`");
    if |c| > 0 {
      assert s[1] == c[0];
      assert Fence[1] == '`';
    } else {
      assert |s| == 2;
    }
  }

  lemma FencePassTickTail(c: string)
    requires '`' !in c
    ensures FencePass(c + "`") == c + "`"
  {
    FencePassNoOpen('`', "");
    assert ['`'] + "" == "`";
    FencePassSkip(c, "`");
  }

  lemma FencePassTickPair(c: string)
    requires '`' !in c
    ensures FencePass(['`'] + (c + "`")) == ['`'] + (c + "`")
  {
    FencePassTickTail(c);
    TickNoFence(c);
    FencePassNoOpen('`', c + "`");
  }

  lemma InlineFencePass(p: string, c: string)
    requires '`' !in p && '`' !in c
    ensures FencePass(p + "`" + c + "`") == p + "`" + c + "`"
  {
    FencePassTickPair(c);
    FencePassSkip(p, ['`'] + (c + "`"));
    InlineTickShape(p, c);
  }

  lemma InlineTickShape(p: string, c: string)
    ensures p + "`" + c + "`" == p + (['`'] + (c + "`"))
  {
  }

  lemma InlineCodePass(p: string, c: string)
    requires '`' !in p && Inert(c)
    ensures PairPass(p + "`" + c + "`", "`", "<code>", "</code>") == p + "<code>" + c + "</code>"
  {
    CodeSpanAlone(c);
    PairPassSkip(p, "`" + c + "`", "`", "<code>", "</code>");
    InlineCodeShape(p, c);
  }

  lemma CodeSpanAlone(c: string)
    requires Inert(c)
    ensures PairPass("`" + c + "`", "`", "<code>", "</code>") == "<code>" + c + "</code>"
  {
    PairPassMatch(c, "", "`", "<code>", "</code>");
    assert "`" + c + "`" + "" == "`" + c + "`";
    assert "<code>" + c + "</code>" + "" == "<code>" + c + "</code>";
  }

  lemma InlineCodeShape(p: string, c: string)
    ensures p + "`" + c + "`" == p + ("`" + c + "`")
    ensures p + ("<code>" + c + "</code>") == p + "<code>" + c + "</code>"
  {
  }

  /**
   Bold, italic and inline code on one line, separated by plain text, each
   become their markup; for example the case a = "a", x = " and ",
   b = "b", y = " and ", c = "c".
   */
  lemma InlineMarkup(a: string, x: string, b: string, y: string, c: string)
    requires Inert(a) && Inert(x) && Inert(b) && Inert(y) && Inert(c) && |b| > 0
    ensures FormatMessage("**" + a + "**" + x + "*" + b + "*" + y + "`" + c + "`")
         == "<strong>" + a + "</strong>" + x + "<em>" + b + "</em>" + y + "<code>" + c + "</code>"
  {
    var input := "**" + a + "**" + x + "*" + b + "*" + y + "`" + c + "`";
    var t1 := "<strong>" + a + "</strong>" + x + "*" + b + "*" + y + "`" + c + "`";
    var p := "<strong>" + a + "</strong>" + x + "<em>" + b + "</em>" + y;
    var t4 := p + "<code>" + c + "</code>";
    InlineBoldPass(a, x, b, y, c);
    StrongHasNoStar(a, x);
    InlineItalicPass("<strong>" + a + "</strong>" + x, b, y, c);
    InlineMarkupShape(a, x, b, y, c, p);
    InlineFencePass(p, c);
    InlineCodePass(p, c);
    FormatSteps(input, t1, p + "`" + c + "`", p + "`" + c + "`", t4);
    InlineMarkupHasNoNewline(p, c);
  }

  lemma InlineMarkupShape(a: string, x: string, b: string, y: string, c: string, p: string)
    requires Inert(a) && Inert(x) && Inert(b) && Inert(y)
    requires p == "<strong>" + a + "</strong>" + x + "<em>" + b + "</em>" + y
    ensures "<strong>" + a + "</strong>" + x + "<em>" + b + "</em>" + y + "`" + c + "`" == p + "`" + c + "`"
    ensures '`' !in p && SingleLine(p)
  {
    assert '`' !in "<strong>" && '`' !in "</strong>" && '`' !in "<em>" && '`' !in "</em>";
    assert SingleLine("<strong>") && SingleLine("</strong>") && SingleLine("<em>") && SingleLine("</em>");
  }

  lemma InlineMarkupHasNoNewline(p: string, c: string)
    requires SingleLine(p) && SingleLine(c)
    ensures BreakLines(p + "<code>" + c + "</code>") == p + "<code>" + c + "</code>"
  {
    assert '\n' !in "<code>" && '\n' !in "</code>";
    assert forall i :: 0 <= i < |p| ==> p[i] != '\n';
    assert '\n' !in p + "<code>" + c + "</code>";
  }
}
