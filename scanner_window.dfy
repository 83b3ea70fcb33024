/** The word scanner's main window: reading the forbidden words from the text box, the
    extension check boxes, the checks made by the Start button, and the running totals
    the window keeps while results arrive. */
module ScannerWindow {
  import opened Lists
  import opened Text
  import opened Models
  import opened Report
  import opened Wrappers

  // ---------------------------------------------------------------------------
  // Extensions
  // ---------------------------------------------------------------------------

  /** The five check boxes. */
  datatype ExtensionChecks = ExtensionChecks(txt: bool, doc: bool, pdf: bool, html: bool, all: bool)

  /** What each box adds. */
  const TxtExtensions: seq<string> := [".txt"]
  const DocExtensions: seq<string> := [".doc", ".docx"]
  const PdfExtensions: seq<string> := [".pdf"]
  const HtmlExtensions: seq<string> := [".html", ".htm"]
  const AllExtensions: seq<string> := [
    ".txt", ".doc", ".docx", ".pdf", ".html", ".htm",
    ".rtf", ".odt", ".xml", ".json", ".csv", ".log",
    ".md", ".ini", ".cfg", ".conf", ".properties"]

  /** The extensions a box adds when it is checked. */
  function IfChecked(checked: bool, extensions: seq<string>): seq<string> {
    if checked then extensions else []
  }

  /** The extensions of the checked boxes, box by box, before duplicates are removed. */
  function Checked(c: ExtensionChecks): seq<string> {
    IfChecked(c.txt, TxtExtensions) + IfChecked(c.doc, DocExtensions) +
    IfChecked(c.pdf, PdfExtensions) + IfChecked(c.html, HtmlExtensions) +
    IfChecked(c.all, AllExtensions)
  }

  /** GetSelectedExtensions: the lists of the checked boxes appended in order, then
      Distinct. */
  method GetSelectedExtensions(c: ExtensionChecks) returns (extensions: seq<string>)
    ensures extensions == Distinct(Checked(c))
  {
    var list: seq<string> := [];
    if c.txt {
      list := list + TxtExtensions;
    }
    assert list == IfChecked(c.txt, TxtExtensions);
    if c.doc {
      list := list + DocExtensions;
    }
    assert list == IfChecked(c.txt, TxtExtensions) + IfChecked(c.doc, DocExtensions);
    if c.pdf {
      list := list + PdfExtensions;
    }
    assert list == IfChecked(c.txt, TxtExtensions) + IfChecked(c.doc, DocExtensions) +
                   IfChecked(c.pdf, PdfExtensions);
    if c.html {
      list := list + HtmlExtensions;
    }
    assert list == IfChecked(c.txt, TxtExtensions) + IfChecked(c.doc, DocExtensions) +
                   IfChecked(c.pdf, PdfExtensions) + IfChecked(c.html, HtmlExtensions);
    if c.all {
      list := list + AllExtensions;
    }
    assert list == Checked(c);
    extensions := Distinct(list);
  }

  /** Each extension is selected once, exactly when some checked box lists it, in the
      order the boxes first list it; nothing is selected exactly when no box is checked. */
  lemma {:induction false} SelectedExtensionsSpec(c: ExtensionChecks)
    ensures NoDuplicates(Distinct(Checked(c)))
    ensures forall e :: e in Distinct(Checked(c)) <==> e in Checked(c)
    ensures Distinct(Checked(c)) == [] <==> !(c.txt || c.doc || c.pdf || c.html || c.all)
  {
    DistinctSpec(Checked(c));
    if c.txt || c.doc || c.pdf || c.html || c.all {
      assert Checked(c) != [];
      assert Checked(c)[0] in Distinct(Checked(c));
    }
  }

  /** A sequence without duplicates has as many elements as its set of elements. */
  lemma {:induction false} CardinalityOfDistinct<T>(s: seq<T>)
    requires NoDuplicates(s)
    ensures |Elements(s)| == |s|
  {
    if s != [] {
      var front := s[..|s| - 1];
      CardinalityOfDistinct(front);
      assert s == front + [s[|s| - 1]];
      assert Elements(s) == Elements(front) + {s[|s| - 1]};
      assert s[|s| - 1] !in Elements(front);
    }
  }

  /** With "All" checked the selection is the seventeen extensions of that box. */
  lemma {:induction false} AllSelectsSeventeen(c: ExtensionChecks)
    requires c.all
    ensures Elements(Distinct(Checked(c))) == Elements(AllExtensions)
    ensures |Distinct(Checked(c))| == 17
  {
    SelectedExtensionsSpec(c);
    var s := Checked(c);
    assert forall e :: e in s ==> e in AllExtensions;
    assert forall e :: e in AllExtensions ==> e in s;
    assert NoDuplicates(AllExtensions);
    CardinalityOfDistinct(AllExtensions);
    CardinalityOfDistinct(Distinct(s));
  }

  // ---------------------------------------------------------------------------
  // The window
  // ---------------------------------------------------------------------------

  /** How a click on Start ends: refused for one of three reasons, or started with the
      parsed words and the selected extensions. */
  datatype StartOutcome =
    | NoWords
    | NoOutputDirectory
    | NoExtensions
    | Started(words: seq<string>, outputDir: string, extensions: seq<string>)

  /** The end of StartButton_Click: when ScanFilesAsync returns a list the report is
      generated from it and written to the output directory (`writeOk`: whether
      File.WriteAllTextAsync succeeds). The window never creates that directory itself;
      only ScanFileAsync does, on a hit, so a scan without hits into a directory that does
      not exist fails at this write. When the scan throws (a task cancelled at the
      semaphore makes WhenAll throw) or the write throws, the catch shows the error and
      no report is saved. */
  method FinishScan(scan: Option<seq<FileScanResult>>, writeOk: bool) returns (report: Option<ReportData>)
    ensures report.None? <==> scan.None? || !writeOk
    ensures report.Some? ==>
              report.value.fileCount == |scan.value| &&
              report.value.totalReplacements == TotalReplacements(scan.value) &&
              report.value.totalSize == FormattedSize(TotalSize(scan.value)) &&
              report.value.top == TopWords(StatsOf(scan.value)) &&
              |report.value.blocks| == |scan.value| &&
              (forall i :: 0 <= i < |scan.value| ==> report.value.blocks[i] == Block(i + 1, scan.value[i]))
  {
    if scan.None? {
      return None;
    }
    var r := GenerateReport(scan.value);
    if !writeOk {
      return None;
    }
    report := Some(r);
  }

  class MainWindow {
    var scanResults: seq<FileScanResult>
    var totalFiles: int
    var totalSize: nat
    var totalReplacements: nat

    /** The running totals are the totals of the results received. */
    predicate Valid()
      reads this
    {
      totalSize == TotalSize(scanResults) && totalReplacements == TotalReplacements(scanResults)
    }

    constructor ()
      ensures Valid() && scanResults == [] && totalFiles == 0
    {
      scanResults := [];
      totalFiles := 0;
      totalSize := 0;
      totalReplacements := 0;
    }

    /** StartButton_Click up to the scan: the three checks in order, each refusing before
        any state is reset, then the reset of the results and counters. */
    method StartButtonClick(text: string, outputDir: string, checks: ExtensionChecks) returns (outcome: StartOutcome)
      requires Valid()
      modifies this
      ensures Valid()
      ensures outcome == NoWords <==> ParseList(text) == []
      ensures outcome == NoOutputDirectory <==> ParseList(text) != [] && IsBlank(outputDir)
      ensures outcome == NoExtensions <==>
                ParseList(text) != [] && !IsBlank(outputDir) && Distinct(Checked(checks)) == []
      ensures !outcome.Started? ==> unchanged(this)
      ensures outcome.Started? ==>
                outcome.words == ParseList(text) && outcome.outputDir == outputDir &&
                outcome.extensions == Distinct(Checked(checks)) &&
                scanResults == [] && totalFiles == 0 && totalSize == 0 && totalReplacements == 0
    {
      var forbiddenWords := ParseList(text);
      if |forbiddenWords| == 0 {
        return NoWords;
      }
      if IsBlank(outputDir) {
        return NoOutputDirectory;
      }
      var extensions := GetSelectedExtensions(checks);
      if |extensions| == 0 {
        return NoExtensions;
      }
      scanResults := [];
      totalFiles := 0;
      totalSize := 0;
      totalReplacements := 0;
      outcome := Started(forbiddenWords, outputDir, extensions);
    }

    /** ScannerService_TotalFilesUpdated. */
    method TotalFilesUpdated(n: int)
      modifies this
      ensures totalFiles == n && scanResults == old(scanResults)
      ensures totalSize == old(totalSize) && totalReplacements == old(totalReplacements)
    {
      totalFiles := n;
    }

    /** ScannerService_FileScanned: the result is added and the counters grow by its size
        and its replacements. */
    method FileScanned(result: FileScanResult)
      requires Valid()
      modifies this
      ensures Valid()
      ensures scanResults == old(scanResults) + [result] && totalFiles == old(totalFiles)
      ensures totalSize == old(totalSize) + result.fileSize
      ensures totalReplacements == old(totalReplacements) + result.totalReplacements
    {
      var grown := scanResults + [result];
      assert grown[..|grown| - 1] == scanResults;
      scanResults := grown;
      totalSize := totalSize + result.fileSize;
      totalReplacements := totalReplacements + result.totalReplacements;
    }
  }
}
