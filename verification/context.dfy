/**
 The server's record of uploaded files (`uploaded_files_context`, one shared
 dictionary keyed by file name) and how `get_gemini_response` turns it into the
 text sent to the model in front of the user's question.
 */
module FileContext {
  import opened Options
  import opened Text

  /** What a later prompt reads of an upload: the declared type and the raw text. */
  datatype Entry = Entry(fileType: string, raw: string)

  datatype Stored = Stored(name: string, entry: Entry)

  /** A Python dictionary as the handlers use it: its items in insertion order. */
  type Context = seq<Stored>

  predicate UniqueNames(ctx: Context) {
    forall i, j :: 0 <= i < j < |ctx| ==> ctx[i].name != ctx[j].name
  }

  function Names(ctx: Context): (r: seq<string>)
    ensures |r| == |ctx|
    ensures forall i :: 0 <= i < |ctx| ==> r[i] == ctx[i].name
  {
    seq(|ctx|, i requires 0 <= i < |ctx| => ctx[i].name)
  }

  /** `ctx.get(name)`: the entry stored under a name, if any. */
  function Lookup(ctx: Context, name: string): (r: Option<Entry>)
    decreases |ctx|
  {
    if |ctx| == 0 then None
    else if ctx[0].name == name then Some(ctx[0].entry)
    else Lookup(ctx[1..], name)
  }

  /** A name is found exactly when some item carries it. */
  lemma {:induction false} LookupFinds(ctx: Context, name: string)
    ensures Lookup(ctx, name).Some? <==> name in Names(ctx)
    decreases |ctx|
  {
    if |ctx| > 0 {
      LookupFinds(ctx[1..], name);
      assert Names(ctx) == [ctx[0].name] + Names(ctx[1..]);
    }
  }

  /**
   `ctx[name] = e`: an existing key keeps its place and takes the new entry, a
   new key goes last.
   */
  function Store(ctx: Context, name: string, e: Entry): (r: Context)
    ensures |r| == |ctx| || |r| == |ctx| + 1
    decreases |ctx|
  {
    if |ctx| == 0 then [Stored(name, e)]
    else if ctx[0].name == name then [Stored(name, e)] + ctx[1..]
    else [ctx[0]] + Store(ctx[1..], name, e)
  }

  /** After storing, the name reads back the new entry and every other name reads what it read before. */
  lemma {:induction false} StoreLookup(ctx: Context, name: string, e: Entry, other: string)
    ensures Lookup(Store(ctx, name, e), name) == Some(e)
    ensures other != name ==> Lookup(Store(ctx, name, e), other) == Lookup(ctx, other)
    decreases |ctx|
  {
    if |ctx| > 0 && ctx[0].name != name {
      StoreLookup(ctx[1..], name, e, other);
      assert Store(ctx, name, e)[1..] == Store(ctx[1..], name, e);
    }
  }

  /** Storing keeps the order of the keys: a known name stays where it was, a new one is appended. */
  lemma {:induction false} StoreNames(ctx: Context, name: string, e: Entry)
    ensures name in Names(ctx) ==> Names(Store(ctx, name, e)) == Names(ctx)
    ensures name !in Names(ctx) ==> Names(Store(ctx, name, e)) == Names(ctx) + [name]
    decreases |ctx|
  {
    if |ctx| > 0 {
      StoreNames(ctx[1..], name, e);
      var r := Store(ctx, name, e);
      NamesCons(ctx);
      NamesCons(r);
      if ctx[0].name != name {
        assert r[1..] == Store(ctx[1..], name, e);
      } else {
        assert r[1..] == ctx[1..];
      }
    }
  }

  lemma NamesCons(ctx: Context)
    requires |ctx| > 0
    ensures Names(ctx) == [ctx[0].name] + Names(ctx[1..])
  {
    assert Names(ctx)[1..] == Names(ctx[1..]);
  }

  /** Storing never gives two items the same name. */
  lemma StoreUnique(ctx: Context, name: string, e: Entry)
    ensures UniqueNames(ctx) ==> UniqueNames(Store(ctx, name, e))
  {
    if !UniqueNames(ctx) {
      return;
    }
    var r := Store(ctx, name, e);
    StoreNames(ctx, name, e);
    var n, m := Names(ctx), Names(r);
    assert forall i :: 0 <= i < |ctx| ==> n[i] == ctx[i].name;
    forall i, j | 0 <= i < j < |r|
      ensures r[i].name != r[j].name
    {
      assert m[i] == r[i].name && m[j] == r[j].name;
      if j < |ctx| {
        assert m[i] == n[i] && m[j] == n[j];
      } else {
        assert m[j] == name && m[i] == n[i];
        assert n[i] in n;
      }
    }
  }

  /* ---------------- the text put in front of the question ---------------- */

  const ContextHeader: string := "\n\n=== UPLOADED FILE CONTEXT ===\n"
  const ContextFooter: string := "=== END FILE CONTEXT ===\n\n"
  const QuestionLabel: string := "User Question: "
  const Withheld: string := "[Binary file or content too large]"
  const IncludeBelow: nat := 5000
  const ShownLength: nat := 2000

  /** The part of a raw text that is shown: none when empty or too long, else its first 2000 characters, marked when cut. */
  function Excerpt(raw: string): (r: Option<string>)
    ensures r.Some? <==> 0 < |raw| < IncludeBelow
    ensures r.Some? && |raw| <= ShownLength ==> r.value == raw
    ensures r.Some? && |raw| > ShownLength ==> |r.value| == ShownLength + 3 && r.value[..ShownLength] == raw[..ShownLength]
    ensures r.Some? && |raw| > ShownLength ==> r.value[ShownLength..] == "..."
  {
    if raw != "" && |raw| < IncludeBelow then
      Some(if |raw| > ShownLength then raw[..ShownLength] + "..." else raw)
    else None
  }

  /** The lines written for one stored file. */
  function Block(s: Stored): string {
    "\nFile: " + s.name + " (" + s.entry.fileType + ")\n"
      + "Content: " + Excerpt(s.entry.raw).GetOr(Withheld) + "\n"
  }

  /** The blocks of all stored files, in dictionary order. */
  function Blocks(ctx: Context): string
    decreases |ctx|
  {
    if |ctx| == 0 then "" else Block(ctx[0]) + Blocks(ctx[1..])
  }

  /** The file blocks of two contexts one after the other are the blocks of the joined context. */
  lemma {:induction false} BlocksAppend(a: Context, b: Context)
    ensures Blocks(a + b) == Blocks(a) + Blocks(b)
    decreases |a|
  {
    if |a| == 0 {
      assert a + b == b;
    } else {
      assert (a + b)[0] == a[0];
      assert (a + b)[1..] == a[1..] + b;
      BlocksAppend(a[1..], b);
    }
  }

  /** Re-uploading a file under a known name changes only that file's block, in place. */
  lemma ReuploadKeepsPlace(pre: Context, prior: Stored, post: Context, e: Entry)
    requires forall i :: 0 <= i < |pre| ==> pre[i].name != prior.name
    ensures Blocks(Store(pre + [prior] + post, prior.name, e))
         == Blocks(pre) + Block(Stored(prior.name, e)) + Blocks(post)
  {
    var stored := Stored(prior.name, e);
    StoreAfter(pre, [prior] + post, prior.name, e);
    assert pre + [prior] + post == pre + ([prior] + post);
    assert ([prior] + post)[1..] == post;
    assert Store([prior] + post, prior.name, e) == [stored] + post;
    BlocksAppend(pre, [stored] + post);
    BlocksCons(stored, post);
  }

  lemma BlocksCons(s: Stored, rest: Context)
    ensures Blocks([s] + rest) == Block(s) + Blocks(rest)
  {
    assert ([s] + rest)[1..] == rest;
  }

  /** Storing under a name absent from a prefix leaves that prefix alone. */
  lemma {:induction false} StoreAfter(pre: Context, rest: Context, name: string, e: Entry)
    requires forall i :: 0 <= i < |pre| ==> pre[i].name != name
    ensures Store(pre + rest, name, e) == pre + Store(rest, name, e)
    decreases |pre|
  {
    if |pre| == 0 {
      assert pre + rest == rest;
    } else {
      assert (pre + rest)[0] == pre[0];
      assert (pre + rest)[1..] == pre[1..] + rest;
      StoreAfter(pre[1..], rest, name, e);
    }
  }

  /** The text sent for a question: the question alone when nothing is stored, else the file context and then the question. */
  function Prompt(ctx: Context, message: string): (r: string)
    ensures |ctx| == 0 ==> r == message
  {
    if |ctx| == 0 then message
    else ContextHeader + (Blocks(ctx) + ContextFooter) + (QuestionLabel + message)
  }

  /** With files stored, the prompt opens with the context header and ends with the labelled question. */
  lemma PromptFrame(ctx: Context, message: string)
    requires |ctx| > 0
    ensures StartsWith(Prompt(ctx, message), ContextHeader)
    ensures EndsWith(Prompt(ctx, message), QuestionLabel + message)
  {
    Framed(ContextHeader, Blocks(ctx) + ContextFooter, QuestionLabel + message);
  }

  /** A text made of a head, a middle and a tail starts with the head and ends with the tail. */
  lemma Framed(head: string, middle: string, tail: string)
    ensures StartsWith(head + middle + tail, head)
    ensures EndsWith(head + middle + tail, tail)
  {
    StartsWithJoin(head, middle + tail);
    assert head + middle + tail == head + (middle + tail);
    EndsWithJoin(head + middle, tail);
  }

  lemma StartsWithJoin(a: string, b: string)
    ensures StartsWith(a + b, a)
  {
    assert (a + b)[..|a|] == a;
  }

  lemma EndsWithJoin(a: string, b: string)
    ensures EndsWith(a + b, b)
  {
    assert (a + b)[|a|..] == b;
  }

  /** The question can be read back from the prompt: for a given context, different questions give different prompts. */
  lemma PromptDeterminesMessage(ctx: Context, m1: string, m2: string)
    requires Prompt(ctx, m1) == Prompt(ctx, m2)
    ensures m1 == m2
  {
    if |ctx| > 0 {
      var head := ContextHeader + Blocks(ctx) + ContextFooter + QuestionLabel;
      assert Prompt(ctx, m1) == head + m1 && Prompt(ctx, m2) == head + m2;
      assert m1 == (head + m1)[|head|..];
      assert m2 == (head + m2)[|head|..];
    }
  }

  /** A stored file's text is shown whole in its block when it is short, and withheld when it is empty or too long. */
  lemma BlockShowsShortText(s: Stored)
    ensures 0 < |s.entry.raw| <= ShownLength
        ==> Block(s) == "\nFile: " + s.name + " (" + s.entry.fileType + ")\nContent: " + s.entry.raw + "\n"
    ensures (|s.entry.raw| == 0 || |s.entry.raw| >= IncludeBelow)
        ==> Block(s) == "\nFile: " + s.name + " (" + s.entry.fileType + ")\nContent: " + Withheld + "\n"
  {
  }
}
