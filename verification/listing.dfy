/**
 The conversation list (`handle_list_conversations`): one row per saved
 conversation file that can be read, newest first. The directory scan is an
 input: the files in the order the directory listing yields them, each either
 unreadable or parsed into a JSON object.
 */
module ConversationList {
  import opened Options
  import opened Text
  import opened Json

  /** A saved file's contents: unreadable (I/O error, bad JSON, or JSON that is not an object), or the parsed object. */
  datatype Contents = Unreadable | Readable(fields: Object)

  /** A `*.json` file of the conversations directory: its name without the extension, and its contents. */
  datatype SavedFile = SavedFile(stem: string, contents: Contents)

  /** One listed conversation. */
  datatype Row = Row(filename: string, name: Json, created: Json, messageCount: nat)

  /** The row of one file; `None` when the file is skipped (unreadable, or `messages` has no length). */
  function RowOf(f: SavedFile): (r: Option<Row>)
    ensures r.Some? <==> f.contents.Readable? && Len(Get(f.contents.fields, "messages", JArray(0))).Some?
    ensures r.Some? ==> r.value.filename == f.stem
  {
    match f.contents
    case Unreadable => None
    case Readable(data) =>
      match Len(Get(data, "messages", JArray(0)))
      case None => None
      case Some(n) => Some(Row(f.stem, Get(data, "name", JStr(f.stem)), Get(data, "created", JStr("")), n))
  }

  /** A file without the optional keys is listed under its file name, with an empty date and no messages. */
  lemma RowDefaults(stem: string, data: Object)
    requires "name" !in data && "created" !in data && "messages" !in data
    ensures RowOf(SavedFile(stem, Readable(data))) == Some(Row(stem, JStr(stem), JStr(""), 0))
  {
  }

  /** The rows of the files that are not skipped, in scan order. */
  function Rows(files: seq<SavedFile>): (r: seq<Row>)
    ensures |r| <= |files|
    decreases |files|
  {
    if |files| == 0 then []
    else match RowOf(files[0])
      case Some(row) => [row] + Rows(files[1..])
      case None => Rows(files[1..])
  }

  /** A row is listed exactly when some scanned file yields it. */
  lemma {:induction false} RowsMembers(files: seq<SavedFile>)
    ensures forall row :: row in Rows(files) <==> exists i :: 0 <= i < |files| && RowOf(files[i]) == Some(row)
    decreases |files|
  {
    if |files| > 0 {
      RowsMembers(files[1..]);
      forall row
        ensures (exists i :: 0 <= i < |files| && RowOf(files[i]) == Some(row))
            <==> RowOf(files[0]) == Some(row) || exists i :: 0 <= i < |files[1..]| && RowOf(files[1..][i]) == Some(row)
      {
        if exists i :: 0 <= i < |files| && RowOf(files[i]) == Some(row) {
          var i :| 0 <= i < |files| && RowOf(files[i]) == Some(row);
          if i > 0 {
            assert files[1..][i - 1] == files[i];
          }
        }
      }
    }
  }

  /* ---------------- newest first ---------------- */

  /** The sort key as a string: the `created` text (only used once every key is known to be text). */
  function Key(r: Row): string {
    if r.created.JStr? then r.created.s else ""
  }

  predicate TextKeys(rows: seq<Row>) {
    forall i :: 0 <= i < |rows| ==> rows[i].created.JStr?
  }

  /** Newest first: each key is at least the key of every row after it. */
  predicate Descending(rows: seq<Row>) {
    forall i, j :: 0 <= i < j < |rows| ==> LexLe(Key(rows[j]), Key(rows[i]))
  }

  /**
   Put a row in front of the first row whose key is not greater, so that rows with
   equal keys keep their order.
   */
  function Insert(x: Row, s: seq<Row>): (r: seq<Row>)
    ensures |r| == |s| + 1
    decreases |s|
  {
    if |s| == 0 || LexLe(Key(s[0]), Key(x)) then [x] + s
    else [s[0]] + Insert(x, s[1..])
  }

  /** `sort(key=created, reverse=True)` on rows with text keys: Python's stable sort, newest first. */
  function SortNewestFirst(rows: seq<Row>): (r: seq<Row>)
    ensures |r| == |rows|
    decreases |rows|
  {
    if |rows| == 0 then [] else Insert(rows[0], SortNewestFirst(rows[1..]))
  }

  /** Inserting keeps every row and adds one. */
  lemma {:induction false} InsertPermutes(x: Row, s: seq<Row>)
    ensures multiset(Insert(x, s)) == multiset(s) + multiset{x}
    decreases |s|
  {
    if |s| > 0 && !LexLe(Key(s[0]), Key(x)) {
      InsertPermutes(x, s[1..]);
      assert s == [s[0]] + s[1..];
    }
  }

  /** The sorted list holds exactly the listed rows, each as often as before. */
  lemma {:induction false} SortPermutes(rows: seq<Row>)
    ensures multiset(SortNewestFirst(rows)) == multiset(rows)
    decreases |rows|
  {
    if |rows| > 0 {
      SortPermutes(rows[1..]);
      InsertPermutes(rows[0], SortNewestFirst(rows[1..]));
      assert rows == [rows[0]] + rows[1..];
    }
  }

  /** The first row of an insertion is either the inserted row or the old first row. */
  lemma InsertHead(x: Row, s: seq<Row>)
    requires |s| > 0
    ensures Insert(x, s)[0] == x || Insert(x, s)[0] == s[0]
  {
  }

  /** Inserting into a newest-first list keeps it newest first. */
  lemma {:induction false} InsertSorted(x: Row, s: seq<Row>)
    requires Descending(s)
    ensures Descending(Insert(x, s))
    decreases |s|
  {
    if |s| > 0 && !LexLe(Key(s[0]), Key(x)) {
      var t := s[1..];
      assert Descending(t) by {
        forall i, j | 0 <= i < j < |t| ensures LexLe(Key(t[j]), Key(t[i])) {
          assert t[i] == s[i + 1] && t[j] == s[j + 1];
        }
      }
      InsertSorted(x, t);
      var r := Insert(x, s);
      var u := Insert(x, t);
      assert r == [s[0]] + u;
      LexLeTotal(Key(s[0]), Key(x));
      InsertMembers(x, t);
      forall j | 0 < j < |r|
        ensures LexLe(Key(r[j]), Key(r[0]))
      {
        assert r[j] == u[j - 1];
        if u[j - 1] != x {
          var k :| 0 <= k < |t| && t[k] == u[j - 1];
          assert s[k + 1] == t[k];
        }
      }
      forall i, j | 0 <= i < j < |r|
        ensures LexLe(Key(r[j]), Key(r[i]))
      {
        if i > 0 {
          assert r[i] == u[i - 1] && r[j] == u[j - 1];
        }
      }
    } else if |s| > 0 {
      var r := Insert(x, s);
      assert r == [x] + s;
      forall i, j | 0 <= i < j < |r|
        ensures LexLe(Key(r[j]), Key(r[i]))
      {
        if i == 0 {
          assert r[j] == s[j - 1];
          if j > 1 {
            LexLeTransitive(Key(s[j - 1]), Key(s[0]), Key(x));
          }
        } else {
          assert r[i] == s[i - 1] && r[j] == s[j - 1];
        }
      }
    }
  }

  /** Every row of an insertion is the inserted row or one of the old rows. */
  lemma {:induction false} InsertMembers(x: Row, s: seq<Row>)
    ensures forall j :: 0 <= j < |Insert(x, s)| ==> Insert(x, s)[j] == x || exists k :: 0 <= k < |s| && s[k] == Insert(x, s)[j]
    decreases |s|
  {
    if |s| > 0 && !LexLe(Key(s[0]), Key(x)) {
      InsertMembers(x, s[1..]);
      var r := Insert(x, s);
      var u := Insert(x, s[1..]);
      forall j | 0 <= j < |r|
        ensures r[j] == x || exists k :: 0 <= k < |s| && s[k] == r[j]
      {
        if j == 0 {
          assert s[0] == r[0];
        } else {
          assert r[j] == u[j - 1];
          if u[j - 1] != x {
            var k :| 0 <= k < |s[1..]| && s[1..][k] == u[j - 1];
            assert s[k + 1] == r[j];
          }
        }
      }
    }
  }

  /** The sorted list is newest first. */
  lemma {:induction false} SortSorted(rows: seq<Row>)
    ensures Descending(SortNewestFirst(rows))
    decreases |rows|
  {
    if |rows| > 0 {
      SortSorted(rows[1..]);
      InsertSorted(rows[0], SortNewestFirst(rows[1..]));
    }
  }

  /** The rows that share one key. */
  function WithKey(rows: seq<Row>, k: string): (r: seq<Row>)
    ensures |r| <= |rows|
    decreases |rows|
  {
    if |rows| == 0 then []
    else if Key(rows[0]) == k then [rows[0]] + WithKey(rows[1..], k)
    else WithKey(rows[1..], k)
  }

  /** Inserting a row puts it in front of the rows with its own key and leaves the other keys' rows alone. */
  lemma {:induction false} InsertWithKey(x: Row, s: seq<Row>, k: string)
    ensures WithKey(Insert(x, s), k) == (if Key(x) == k then [x] else []) + WithKey(s, k)
    decreases |s|
  {
    if |s| == 0 || LexLe(Key(s[0]), Key(x)) {
      assert Insert(x, s)[1..] == s;
    } else {
      InsertWithKey(x, s[1..], k);
      if Key(s[0]) == k && Key(x) == k {
        LexLeReflexive(k);
      }
    }
  }

  lemma {:induction false} LexLeReflexive(a: string)
    ensures LexLe(a, a)
    decreases |a|
  {
    if |a| > 0 {
      LexLeReflexive(a[1..]);
    }
  }

  /** Stability: the rows that share a key come out in the order they were scanned. */
  lemma {:induction false} SortStable(rows: seq<Row>, k: string)
    ensures WithKey(SortNewestFirst(rows), k) == WithKey(rows, k)
    decreases |rows|
  {
    if |rows| > 0 {
      SortStable(rows[1..], k);
      InsertWithKey(rows[0], SortNewestFirst(rows[1..]), k);
    }
  }

  /* ---------------- the listing ---------------- */

  /** The listing, or `KeysNotText` when two or more rows are listed and some `created` value is not a string. */
  datatype Listed = Listed(rows: seq<Row>) | KeysNotText

  /** `handle_list_conversations` once the directory has been scanned. */
  function List(files: seq<SavedFile>): (l: Listed)
    ensures l.Listed? ==> |l.rows| == |Rows(files)|
    ensures l.KeysNotText? <==> |Rows(files)| > 1 && !TextKeys(Rows(files))
  {
    var rows := Rows(files);
    if |rows| <= 1 then Listed(rows)
    else if TextKeys(rows) then Listed(SortNewestFirst(rows))
    else KeysNotText
  }

  /**
   A listing is the readable conversations, each once, newest first, with
   conversations saved at the same moment in scan order.
   */
  lemma ListIsSortedRows(files: seq<SavedFile>, k: string)
    requires TextKeys(Rows(files))
    ensures var l := List(files);
      && l.Listed?
      && multiset(l.rows) == multiset(Rows(files))
      && Descending(l.rows)
      && WithKey(l.rows, k) == WithKey(Rows(files), k)
  {
    var rows := Rows(files);
    SortPermutes(rows);
    SortSorted(rows);
    SortStable(rows, k);
    if |rows| <= 1 {
      assert SortNewestFirst(rows) == rows by {
        if |rows| == 1 {
          assert rows[1..] == [];
        }
      }
    }
  }
}
