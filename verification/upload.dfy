/**
 What the server makes of an uploaded file: which branch of
 `process_uploaded_file` handles it, the summary that branch builds (for text
 files a preview and a per-language analysis), and the raw text
 `extract_raw_content` keeps for later questions. Base64 and the character-set
 fallbacks are not modelled: a payload arrives either undecodable or as its byte
 count and decoded text.
 */
module UploadSummary {
  import opened Options
  import opened Text
  import opened FileStaging
  import opened Seqs
  import FileContext

  /** The `fileData` of an upload after base64 decoding: the error text, or the byte count and the decoded text. */
  datatype Payload = Undecodable(detail: string) | Decoded(size: nat, text: string)

  const TextExtensions: seq<string> := [".txt", ".md", ".py", ".js", ".html", ".css", ".json", ".xml", ".csv"]

  /** The text test both functions share: a `text/` type, or a name ending in a text extension (case matters). */
  predicate IsTextFile(name: string, fileType: string) {
    StartsWith(fileType, "text/") || EndsWithAny(name, TextExtensions)
  }

  /** The branches of `process_uploaded_file`, in the order they are tried. */
  datatype Branch = TextBranch | ImageBranch | PdfBranch | WordBranch(docx: bool) | ExcelBranch(xlsx: bool) | OtherBranch

  /** The Word test: a name ending in `.doc` or `.docx`. */
  predicate IsWordName(name: string) {
    EndsWith(name, ".doc") || EndsWith(name, ".docx")
  }

  /** The Excel test: a name ending in `.xls` or `.xlsx`. */
  predicate IsExcelName(name: string) {
    EndsWith(name, ".xls") || EndsWith(name, ".xlsx")
  }

  /** The first branch whose test the name and type pass. */
  function BranchOf(name: string, fileType: string): (b: Branch)
    ensures b == TextBranch <==> IsTextFile(name, fileType)
    ensures b == ImageBranch <==> !IsTextFile(name, fileType) && StartsWith(fileType, "image/")
    ensures b == PdfBranch
        <==> !IsTextFile(name, fileType) && !StartsWith(fileType, "image/") && EndsWith(name, ".pdf")
    ensures b.WordBranch?
        <==> !IsTextFile(name, fileType) && !StartsWith(fileType, "image/") && !EndsWith(name, ".pdf") && IsWordName(name)
    ensures b.ExcelBranch?
        <==> !IsTextFile(name, fileType) && !StartsWith(fileType, "image/") && !EndsWith(name, ".pdf")
             && !IsWordName(name) && IsExcelName(name)
    ensures b == OtherBranch
        <==> !IsTextFile(name, fileType) && !StartsWith(fileType, "image/") && !EndsWith(name, ".pdf")
             && !IsWordName(name) && !IsExcelName(name)
    ensures b.WordBranch? ==> (b.docx <==> EndsWith(name, ".docx"))
    ensures b.ExcelBranch? ==> (b.xlsx <==> EndsWith(name, ".xlsx"))
  {
    if IsTextFile(name, fileType) then TextBranch
    else if StartsWith(fileType, "image/") then ImageBranch
    else if EndsWith(name, ".pdf") then PdfBranch
    else if IsWordName(name) then WordBranch(EndsWith(name, ".docx"))
    else if IsExcelName(name) then ExcelBranch(EndsWith(name, ".xlsx"))
    else OtherBranch
  }

  /* ---------------- lists shown with a limit ---------------- */

  /** A count with the first few items shown and a trailing `...` when some were left out. */
  datatype Listing = Listing(count: nat, shown: seq<string>, more: bool)

  function Min(a: nat, b: nat): nat { if a <= b then a else b }

  /** `len(items)` and `', '.join(render(x) for x in items[:limit])`, with `...` when there are more. */
  function Show(items: seq<string>, limit: nat, render: string -> string): (l: Listing)
    ensures l.count == |items|
  {
    Listing(|items|, seq(Min(limit, |items|), i requires 0 <= i < Min(limit, |items|) => render(items[i])), |items| > limit)
  }

  /**
   A listing hides nothing silently: it shows the first items up to the
   limit, in order, and carries the marker exactly when it shows fewer than it counts.
   */
  lemma ShowIsFaithful(items: seq<string>, limit: nat, render: string -> string)
    ensures var l := Show(items, limit, render);
      && |l.shown| <= limit
      && (l.more <==> |l.shown| < l.count)
      && (!l.more ==> |l.shown| == |items|)
      && forall i :: 0 <= i < |l.shown| ==> l.shown[i] == render(items[i])
  {
  }

  /* ---------------- Python analysis ---------------- */

  /** Each line with its surrounding whitespace stripped. */
  function StripLines(lines: seq<string>): (r: seq<string>)
    ensures |r| == |lines|
    ensures forall i :: 0 <= i < |lines| ==> r[i] == StripPy(lines[i])
  {
    seq(|lines|, i requires 0 <= i < |lines| => StripPy(lines[i]))
  }

  predicate IsDef(line: string) { StartsWith(line, "def ") }
  predicate IsClass(line: string) { StartsWith(line, "class ") }
  predicate IsImport(line: string) { StartsWith(line, "import ") || StartsWith(line, "from ") }

  /** `line.split('(')[0].replace(keyword, '')`: the name written after the keyword. */
  function ItemName(line: string, keyword: string): (r: string)
    requires |keyword| > 0
    ensures '(' !in r
  {
    var head := BeforeFirst(line, '(');
    ReplaceAllKeepsOut(head, keyword, "", '(');
    ReplaceAll(head, keyword, "")
  }

  /** Replacing never brings in a character that neither the text nor the replacement holds. */
  lemma {:induction false} ReplaceAllKeepsOut(s: string, pat: string, rep: string, c: char)
    requires |pat| > 0 && c !in s && c !in rep
    ensures c !in ReplaceAll(s, pat, rep)
    decreases |s|
  {
    if |s| > 0 {
      if StartsWith(s, pat) {
        ReplaceAllKeepsOut(s[|pat|..], pat, rep, c);
      } else {
        ReplaceAllKeepsOut(s[1..], pat, rep, c);
      }
    }
  }

  function ClassName(line: string): string { ItemName(line, "class ") }
  function DefName(line: string): string { ItemName(line, "def ") }
  function Whole(line: string): string { line }

  datatype Analysis =
    | PythonAnalysis(imports: Listing, classes: Listing, functions: Listing, totalLines: nat)
    | JsonAnalysis
    | CsvAnalysis(columns: Listing, rows: nat)
    | NoAnalysis

  /** The analysis of a `.py` file's stripped content. */
  function Python(content: string): (a: Analysis)
    ensures a.PythonAnalysis?
    ensures a.totalLines == CountChar(content, '\n') + 1
  {
    var lines := Split(content, '\n');
    var stripped := StripLines(lines);
    PythonAnalysis(
      Show(Filter(stripped, IsImport), 5, Whole),
      Show(Filter(stripped, IsClass), 3, ClassName),
      Show(Filter(stripped, IsDef), 5, DefName),
      |lines|)
  }

  /**
   What the Python analysis counts: a stripped line is a function, a class or an
   import exactly when it begins with that keyword, whatever its indentation.
   */
  lemma PythonCounts(content: string)
    ensures var a := Python(content);
      var stripped := StripLines(Split(content, '\n'));
      && a.functions.count == |Filter(stripped, IsDef)|
      && a.classes.count == |Filter(stripped, IsClass)|
      && a.imports.count == |Filter(stripped, IsImport)|
      && (forall x :: x in Filter(stripped, IsDef) <==> x in stripped && IsDef(x))
      && (forall x :: x in Filter(stripped, IsClass) <==> x in stripped && IsClass(x))
      && (forall x :: x in Filter(stripped, IsImport) <==> x in stripped && IsImport(x))
  {
    var stripped := StripLines(Split(content, '\n'));
    FilterMembers(stripped, IsDef);
    FilterMembers(stripped, IsClass);
    FilterMembers(stripped, IsImport);
  }

  /** The names shown for classes and functions never carry the parameter list. */
  lemma PythonNamesHaveNoParens(content: string)
    ensures var a := Python(content);
      && (forall i :: 0 <= i < |a.classes.shown| ==> '(' !in a.classes.shown[i])
      && (forall i :: 0 <= i < |a.functions.shown| ==> '(' !in a.functions.shown[i])
  {
    var stripped := StripLines(Split(content, '\n'));
    ShowIsFaithful(Filter(stripped, IsClass), 3, ClassName);
    ShowIsFaithful(Filter(stripped, IsDef), 5, DefName);
  }

  /* ---------------- CSV analysis ---------------- */

  /** The analysis of a `.csv` file's stripped content: the header cells of the first line, and the other lines. */
  function Csv(content: string): (a: Analysis)
    ensures a.CsvAnalysis?
  {
    var lines := Split(content, '\n');
    CsvAnalysis(Show(Split(lines[0], ','), 8, Whole), |lines| - 1)
  }

  /** The first part of a split is the text before the first separator. */
  lemma {:induction false} SplitFirst(s: string, sep: char)
    ensures Split(s, sep)[0] == BeforeFirst(s, sep)
    decreases |s|
  {
    if |s| > 0 && s[0] != sep {
      SplitFirst(s[1..], sep);
    }
  }

  /**
   The columns are the comma-separated cells of the first line, which join back
   into it; the row count is the number of line breaks, so the header line is
   not counted.
   */
  lemma CsvCounts(content: string)
    ensures var a := Csv(content);
      var header := BeforeFirst(content, '\n');
      && a.columns.count == CountChar(header, ',') + 1
      && a.rows == CountChar(content, '\n')
      && (!a.columns.more ==> Join(a.columns.shown, ",") == header)
  {
    var lines := Split(content, '\n');
    SplitFirst(content, '\n');
    var cells := Split(lines[0], ',');
    JoinSplit(lines[0], ',');
    var a := Csv(content);
    if !a.columns.more {
      ShowIsFaithful(cells, 8, Whole);
      assert a.columns.shown == cells;
    }
  }

  /* ---------------- the summary ---------------- */

  const PreviewLength: nat := 3000

  /** What `process_uploaded_file` reports, per branch (the wording and emoji are left out). */
  datatype Summary =
    | TextSummary(name: string, size: nat, analysis: Analysis, preview: string, length: nat, noted: bool)
    | ImageSummary(name: string, size: nat, fileType: string)
    | PdfSummary(name: string, size: nat)
    | WordSummary(name: string, size: nat, docx: bool)
    | ExcelSummary(name: string, size: nat, xlsx: bool)
    | OtherSummary(name: string, size: nat, fileType: string)
    | ErrorSummary(name: string, detail: string)

  /** The analysis chosen by the name's extension, tried in the source's order. */
  function AnalysisOf(name: string, content: string): (a: Analysis)
    ensures a.PythonAnalysis? <==> EndsWith(name, ".py")
    ensures a.CsvAnalysis? <==> !EndsWith(name, ".py") && !EndsWith(name, ".json") && EndsWith(name, ".csv")
  {
    if EndsWith(name, ".py") then Python(content)
    else if EndsWith(name, ".json") then JsonAnalysis
    else if EndsWith(name, ".csv") then Csv(content)
    else NoAnalysis
  }

  /** `process_uploaded_file`: the summary of one upload. */
  function Summarize(name: string, fileType: string, payload: Payload): (s: Summary)
    ensures payload.Undecodable? <==> s.ErrorSummary?
    ensures s.name == name
    ensures payload.Decoded? ==> (s.TextSummary? <==> BranchOf(name, fileType) == TextBranch)
  {
    match payload
    case Undecodable(detail) => ErrorSummary(name, detail)
    case Decoded(size, text) =>
      match BranchOf(name, fileType)
      case TextBranch =>
        var content := StripPy(text);
        var preview := if |content| > PreviewLength then content[..PreviewLength] else content;
        TextSummary(name, size, AnalysisOf(name, content), preview, |content|, |content| > PreviewLength)
      case ImageBranch => ImageSummary(name, size, fileType)
      case PdfBranch => PdfSummary(name, size)
      case WordBranch(docx) => WordSummary(name, size, docx)
      case ExcelBranch(xlsx) => ExcelSummary(name, size, xlsx)
      case OtherBranch => OtherSummary(name, size, fileType)
  }

  /**
   The preview of a text file is the start of its stripped text, at most 3000
   characters, and the note about the cut appears exactly when the preview is
   not the whole text.
   */
  lemma PreviewIsPrefix(name: string, fileType: string, size: nat, text: string)
    requires IsTextFile(name, fileType)
    ensures var s := Summarize(name, fileType, Decoded(size, text));
      var content := StripPy(text);
      && s.TextSummary?
      && StartsWith(content, s.preview)
      && |s.preview| == Min(PreviewLength, |content|)
      && s.length == |content|
      && (s.noted <==> s.preview != content)
  {
  }

  /* ---------------- raw content kept for questions ---------------- */

  /** `extract_raw_content`: the decoded text of a text file (not stripped), otherwise a line describing the file. */
  function RawContent(name: string, fileType: string, payload: Payload): (r: string)
    ensures payload.Decoded? && IsTextFile(name, fileType) ==> r == payload.text
    ensures payload.Decoded? && !IsTextFile(name, fileType) ==> StartsWith(r, "Binary file: " + name)
  {
    match payload
    case Undecodable(detail) => "Error extracting content: " + detail
    case Decoded(size, text) =>
      if IsTextFile(name, fileType) then text
      else
        var r := "Binary file: " + name + ", Type: " + fileType + ", Size: " + NatToString(size) + " bytes";
        assert r[..|"Binary file: " + name|] == "Binary file: " + name;
        r
  }

  /** For a text file the preview the user sees is the start of the stripped raw text the model is later given. */
  lemma PreviewComesFromRaw(name: string, fileType: string, size: nat, text: string)
    requires IsTextFile(name, fileType)
    ensures var s := Summarize(name, fileType, Decoded(size, text));
      s.TextSummary? && StartsWith(StripPy(RawContent(name, fileType, Decoded(size, text))), s.preview)
  {
    PreviewIsPrefix(name, fileType, size, text);
  }

  /**
   A binary file's raw content is its description line, which is neither empty
   nor long, so later prompts show that line as the file's content rather than
   the withheld marker.
   */
  lemma BinaryDescriptionIsShown(name: string, fileType: string, size: nat)
    requires !IsTextFile(name, fileType)
    requires |name| + |fileType| + |NatToString(size)| < 4900
    ensures FileContext.Excerpt(RawContent(name, fileType, Decoded(size, ""))).Some?
  {
  }

  /* ---------------- examples of the branch order ---------------- */

  /** The extension tests are case-sensitive: an upper-case PDF name falls through to the generic branch. */
  lemma UpperCasePdfIsGeneric()
    ensures BranchOf("REPORT.PDF", "application/pdf") == OtherBranch
  {
    var n := "REPORT.PDF";
    var t := "application/pdf";
    assert n[|n| - 1] == 'F' && t[0] == 'a';
    UpperCaseNameIsGeneric(n, t);
  }

  /** A name ending in a capital letter, with a type that is neither `text/` nor `image/`, gets the generic branch. */
  lemma UpperCaseNameIsGeneric(n: string, t: string)
    requires |n| > 0 && 'A' <= n[|n| - 1] <= 'Z'
    requires |t| > 0 && t[0] != 't' && t[0] != 'i'
    ensures BranchOf(n, t) == OtherBranch
  {
    NoTextExtension(n);
    LastCharDiffers(n, ".pdf");
    LastCharDiffers(n, ".doc");
    LastCharDiffers(n, ".docx");
    LastCharDiffers(n, ".xls");
    LastCharDiffers(n, ".xlsx");
  }

  lemma NoTextExtension(n: string)
    requires |n| > 0 && 'A' <= n[|n| - 1] <= 'Z'
    ensures !EndsWithAny(n, TextExtensions)
  {
    TextExtensionsEndLower();
    NoneEndsWith(n, TextExtensions);
  }

  /** Every extension of the list ends in a small letter. */
  predicate EndLower(exts: seq<string>) {
    forall i :: 0 <= i < |exts| ==> |exts[i]| > 0 && 'a' <= exts[i][|exts[i]| - 1] <= 'z'
  }

  lemma TextExtensionsEndLower()
    ensures EndLower(TextExtensions)
  {
    var e := TextExtensions;
    assert e[0][3] == 't' && e[1][2] == 'd' && e[2][2] == 'y' && e[3][2] == 's' && e[4][4] == 'l';
    assert e[5][3] == 's' && e[6][4] == 'n' && e[7][3] == 'l' && e[8][3] == 'v';
  }

  /** A name ending in a capital letter ends in none of a list of extensions that all end in small letters. */
  lemma NoneEndsWith(n: string, exts: seq<string>)
    requires |n| > 0 && 'A' <= n[|n| - 1] <= 'Z'
    requires EndLower(exts)
    ensures !EndsWithAny(n, exts)
  {
    forall i | 0 <= i < |exts|
      ensures !EndsWith(n, exts[i])
    {
      LastCharDiffers(n, exts[i]);
    }
  }

  /** A name whose last character is upper case ends in none of the lower-case extensions. */
  lemma LastCharDiffers(s: string, ext: string)
    requires |s| > 0 && 'A' <= s[|s| - 1] <= 'Z'
    requires |ext| > 0 && 'a' <= ext[|ext| - 1] <= 'z'
    ensures !EndsWith(s, ext)
  {
  }

  /** A text extension wins over an image type, because the text test comes first. */
  lemma TextExtensionBeforeImageType()
    ensures BranchOf("notes.md", "image/png") == TextBranch
  {
    assert EndsWith("notes.md", TextExtensions[1]);
  }
}
