/**
 The client's list of staged attachments: which picked files it accepts
 (`isFileTypeSupported`), how a pick appends them (`handleFileSelect`), and how
 a file is taken off the list again (`removeFile`).
 */
module FileStaging {
  import opened Text
  import opened Seqs

  /** A picked file as the browser describes it; the contents are read only at upload time. */
  datatype File = File(name: string, mimeType: string, size: nat)

  const SupportedTypes: seq<string> := [
    "text/plain", "text/markdown", "text/html", "text/css", "text/javascript",
    "application/json", "application/pdf",
    "application/msword", "application/vnd.openxmlformats-officedocument.wordprocessingml.document",
    "application/vnd.ms-excel", "application/vnd.openxmlformats-officedocument.spreadsheetml.sheet",
    "image/jpeg", "image/jpg", "image/png", "image/gif", "image/bmp"
  ]

  const SupportedExtensions: seq<string> := [
    ".txt", ".md", ".py", ".js", ".html", ".css", ".json",
    ".pdf", ".doc", ".docx", ".xls", ".xlsx",
    ".jpg", ".jpeg", ".png", ".gif", ".bmp"
  ]

  /** `exts.some(ext => s.endsWith(ext))`, scanning the list front to back. */
  function EndsWithAny(s: string, exts: seq<string>): (b: bool)
    ensures b <==> exists i :: 0 <= i < |exts| && EndsWith(s, exts[i])
    decreases |exts|
  {
    if |exts| == 0 then false
    else if EndsWith(s, exts[0]) then true
    else
      var b := EndsWithAny(s, exts[1..]);
      assert forall i :: 1 <= i < |exts| ==> exts[i] == exts[1..][i - 1];
      b
  }

  /**
   A file is accepted when its MIME type is listed or its lower-cased name ends
   in a listed extension. The name test ignores case; the type test does not.
   */
  function IsFileTypeSupported(f: File): (ok: bool)
    ensures ok <==> f.mimeType in SupportedTypes
                    || exists i :: 0 <= i < |SupportedExtensions| && EndsWith(ToLower(f.name), SupportedExtensions[i])
  {
    f.mimeType in SupportedTypes || EndsWithAny(ToLower(f.name), SupportedExtensions)
  }

  /** The notice shown for a refused file. */
  function RefusalNotice(f: File): (m: string)
    ensures EndsWith(m, f.name)
  {
    "File type not supported: " + f.name
  }

  /** The notices of a pick, one per file `ok` refuses, in pick order. */
  function Refusals(files: seq<File>, ok: File -> bool): (r: seq<string>)
    ensures |r| <= |files|
    decreases |files|
  {
    if |files| == 0 then []
    else if ok(files[0]) then Refusals(files[1..], ok)
    else [RefusalNotice(files[0])] + Refusals(files[1..], ok)
  }

  /** Every picked file is either accepted or refused, never both. */
  lemma {:induction false} AcceptedOrRefused(files: seq<File>, ok: File -> bool)
    ensures |Filter(files, ok)| + |Refusals(files, ok)| == |files|
    decreases |files|
  {
    if |files| > 0 {
      AcceptedOrRefused(files[1..], ok);
    }
  }

  lemma {:induction false} RefusalsAppend(a: seq<File>, b: seq<File>, ok: File -> bool)
    ensures Refusals(a + b, ok) == Refusals(a, ok) + Refusals(b, ok)
    decreases |a|
  {
    if |a| == 0 {
      assert a + b == b;
    } else {
      assert (a + b)[0] == a[0];
      assert (a + b)[1..] == a[1..] + b;
      RefusalsAppend(a[1..], b, ok);
    }
  }

  /**
   `handleFileSelect`: each picked file, in order, is either appended to the
   staged list or refused with a notice. The files staged before stay in front.
   */
  method SelectFiles(staged: seq<File>, files: seq<File>) returns (next: seq<File>, notices: seq<string>)
    ensures next == staged + Filter(files, IsFileTypeSupported)
    ensures notices == Refusals(files, IsFileTypeSupported)
  {
    next, notices := Pick(staged, files, IsFileTypeSupported);
  }

  /** The pick loop, for any acceptance test. */
  method Pick(staged: seq<File>, files: seq<File>, ok: File -> bool) returns (next: seq<File>, notices: seq<string>)
    ensures next == staged + Filter(files, ok)
    ensures notices == Refusals(files, ok)
  {
    next := staged;
    notices := [];
    var i := 0;
    while i < |files|
      invariant 0 <= i <= |files|
      invariant next == staged + Filter(files[..i], ok)
      invariant notices == Refusals(files[..i], ok)
    {
      var f := files[i];
      SelectStep(files, i, ok);
      if ok(f) {
        next := next + [f];
      } else {
        notices := notices + [RefusalNotice(f)];
      }
      i := i + 1;
    }
    assert files[..i] == files;
  }

  /** One iteration of the pick loop: the next file is judged on its own. */
  lemma SelectStep(files: seq<File>, i: nat, ok: File -> bool)
    requires i < |files|
    ensures ok(files[i]) ==> Filter(files[..i + 1], ok) == Filter(files[..i], ok) + [files[i]]
    ensures ok(files[i]) ==> Refusals(files[..i + 1], ok) == Refusals(files[..i], ok)
    ensures !ok(files[i]) ==> Filter(files[..i + 1], ok) == Filter(files[..i], ok)
    ensures !ok(files[i]) ==> Refusals(files[..i + 1], ok) == Refusals(files[..i], ok) + [RefusalNotice(files[i])]
  {
    var f := files[i];
    assert files[..i + 1] == files[..i] + [f];
    FilterAppend(files[..i], [f], ok);
    RefusalsAppend(files[..i], [f], ok);
    assert [f][1..] == [];
  }

  /** `removeFile`: every staged entry with that name goes; the others keep their order. */
  function RemoveFile(staged: seq<File>, name: string): (r: seq<File>)
    ensures |r| <= |staged|
    decreases |staged|
  {
    if |staged| == 0 then []
    else if staged[0].name == name then RemoveFile(staged[1..], name)
    else [staged[0]] + RemoveFile(staged[1..], name)
  }

  /** What is left is exactly the staged entries of any other name. */
  lemma {:induction false} RemoveFileMembers(staged: seq<File>, name: string)
    ensures forall f :: f in RemoveFile(staged, name) <==> f in staged && f.name != name
    decreases |staged|
  {
    if |staged| > 0 {
      RemoveFileMembers(staged[1..], name);
      assert staged == [staged[0]] + staged[1..];
    }
  }

  /** Removing distributes over concatenation, so the survivors keep their relative order. */
  lemma {:induction false} RemoveFileAppend(a: seq<File>, b: seq<File>, name: string)
    ensures RemoveFile(a + b, name) == RemoveFile(a, name) + RemoveFile(b, name)
    decreases |a|
  {
    if |a| == 0 {
      assert a + b == b;
    } else {
      assert (a + b)[0] == a[0];
      assert (a + b)[1..] == a[1..] + b;
      RemoveFileAppend(a[1..], b, name);
    }
  }

  /** A list holding no entry of that name is left exactly as it is. */
  lemma {:induction false} RemoveFileAbsent(staged: seq<File>, name: string)
    requires forall i :: 0 <= i < |staged| ==> staged[i].name != name
    ensures RemoveFile(staged, name) == staged
    decreases |staged|
  {
    if |staged| > 0 {
      RemoveFileAbsent(staged[1..], name);
      assert staged == [staged[0]] + staged[1..];
    }
  }

  /** Removing twice is removing once. */
  lemma RemoveFileIdempotent(staged: seq<File>, name: string)
    ensures RemoveFile(RemoveFile(staged, name), name) == RemoveFile(staged, name)
  {
    var r := RemoveFile(staged, name);
    RemoveFileMembers(staged, name);
    assert forall i :: 0 <= i < |r| ==> r[i] in r;
    RemoveFileAbsent(r, name);
  }

  /** Removing one name does not disturb the entries of any other name. */
  lemma {:induction false} RemoveFileCommutes(staged: seq<File>, m: string, n: string)
    ensures RemoveFile(RemoveFile(staged, m), n) == RemoveFile(RemoveFile(staged, n), m)
    decreases |staged|
  {
    if |staged| > 0 {
      RemoveFileCommutes(staged[1..], m, n);
    }
  }

  /** A PDF is accepted by its extension whatever the case of the name, even with no MIME type. */
  lemma UpperCasePdfAccepted()
    ensures IsFileTypeSupported(File("REPORT.PDF", "", 1024))
  {
    var lower := ToLower("REPORT.PDF");
    assert lower[6..] == ".pdf";
    assert EndsWith(lower, SupportedExtensions[7]);
  }

  /** An executable is refused: neither its type nor its extension is listed. */
  lemma ExecutableRefused()
    ensures !IsFileTypeSupported(File("setup.exe", "application/x-msdownload", 4096))
  {
    var lower := ToLower("setup.exe");
    assert lower[|lower| - 1] == 'e';
    forall i | 0 <= i < |SupportedExtensions|
      ensures !EndsWith(lower, SupportedExtensions[i])
    {
      var ext := SupportedExtensions[i];
      assert ext[|ext| - 1] != 'e';
    }
  }
}
