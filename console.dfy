/** Program.Main and RunConsoleMode of the word scanner: the choice between the window
    and the console, the argument loop, the normalisation of the extension list, and
    the checks made before a console scan starts. */
module Console {
  import opened Wrappers
  import opened Text

  // ---------------------------------------------------------------------------
  // Mode
  // ---------------------------------------------------------------------------

  datatype Mode = Gui | ConsoleMode

  /** Main: the console is chosen by a first argument `--no-gui` or `-nogui`. */
  function SelectMode(args: seq<string>): (m: Mode)
    ensures m == ConsoleMode <==> |args| > 0 && args[0] in ["--no-gui", "-nogui"]
  {
    if |args| > 0 && (args[0] == "--no-gui" || args[0] == "-nogui") then ConsoleMode else Gui
  }

  // ---------------------------------------------------------------------------
  // Arguments
  // ---------------------------------------------------------------------------

  /** The three values the argument loop fills in. */
  datatype Settings = Settings(wordsFile: Option<string>, outputDir: Option<string>, extensions: seq<string>)

  /** Before the loop: no words file, no output directory, extensions `[".txt"]`. */
  const Defaults: Settings := Settings(None, None, [".txt"])

  /** The three options that take a value. */
  predicate IsOption(a: string) {
    a == "--words" || a == "--output" || a == "--extensions"
  }

  /** `e.Trim().StartsWith(".") ? e.Trim() : "." + e.Trim()`, with StartsWith taken as an
      ordinal test of the first character. The culture-sensitive StartsWith of .NET also
      skips ignorable code points (a soft hyphen before the dot, say); that is not
      modelled. */
  function NormalizeExtension(piece: string): string {
    var t := Trim(piece);
    if |t| > 0 && t[0] == '.' then t else "." + t
  }

  /** The value of `--extensions`: split on ',' and each piece normalised. */
  function NormalizeExtensions(value: string): (r: seq<string>)
    ensures |r| == |Split(value, ',')|
    ensures forall k :: 0 <= k < |r| ==> r[k] == NormalizeExtension(Split(value, ',')[k])
  {
    var pieces := Split(value, ',');
    seq(|pieces|, k requires 0 <= k < |pieces| => NormalizeExtension(pieces[k]))
  }

  /** One extension per comma-separated piece, each starting with '.', trimmed, and
      holding no comma. */
  lemma {:induction false} NormalizeExtensionsSpec(value: string)
    ensures |NormalizeExtensions(value)| == Occurrences(value, ',') + 1
    ensures forall k :: 0 <= k < |NormalizeExtensions(value)| ==>
              var x := NormalizeExtensions(value)[k];
              |x| >= 1 && x[0] == '.' && IsTrimmed(x) && ',' !in x
  {
    SplitJoin(value, ',');
    var pieces := Split(value, ',');
    forall k | 0 <= k < |pieces|
      ensures var x := NormalizeExtension(pieces[k]); |x| >= 1 && x[0] == '.' && IsTrimmed(x) && ',' !in x
    {
      NormalizeExtensionShape(pieces[k]);
    }
  }

  /** A piece without a comma normalises to a trimmed extension starting with '.'. */
  lemma {:induction false} NormalizeExtensionShape(piece: string)
    requires ',' !in piece
    ensures var x := NormalizeExtension(piece); |x| >= 1 && x[0] == '.' && IsTrimmed(x) && ',' !in x
  {
    var t := Trim(piece);
    TrimAddsNoChar(piece);
    if !(|t| > 0 && t[0] == '.') {
      var x := "." + t;
      assert x[0] == '.';
      assert t == [] || x[|x| - 1] == t[|t| - 1];
      assert forall i :: 1 <= i < |x| ==> x[i] == t[i - 1];
    }
  }

  /** Trim adds nothing: every character of the trimmed string occurs in the input. */
  lemma {:induction false} TrimAddsNoChar(s: string)
    ensures forall c :: c in Trim(s) ==> c in s
  {
    var t := TrimStart(s);
    assert forall c :: c in TrimEnd(t) ==> c in t;
  }

  /** The argument loop from index `i` on: an option followed by a value stores the value
      and skips it; anything else, an option in last position included, is passed over. */
  function ParseFrom(args: seq<string>, i: nat, acc: Settings): Settings
    decreases |args| - i
  {
    if i >= |args| then acc
    else if args[i] == "--words" && i + 1 < |args| then
      ParseFrom(args, i + 2, acc.(wordsFile := Some(args[i + 1])))
    else if args[i] == "--output" && i + 1 < |args| then
      ParseFrom(args, i + 2, acc.(outputDir := Some(args[i + 1])))
    else if args[i] == "--extensions" && i + 1 < |args| then
      ParseFrom(args, i + 2, acc.(extensions := NormalizeExtensions(args[i + 1])))
    else
      ParseFrom(args, i + 1, acc)
  }

  /** The `for` loop of RunConsoleMode, with its index advanced once more by an option. */
  method ParseArguments(args: seq<string>) returns (s: Settings)
    ensures s == ParseFrom(args, 0, Defaults)
  {
    var wordsFile: Option<string> := None;
    var outputDir: Option<string> := None;
    var extensions: seq<string> := [".txt"];
    var i := 0;
    while i < |args|
      invariant 0 <= i <= |args|
      invariant ParseFrom(args, i, Settings(wordsFile, outputDir, extensions)) == ParseFrom(args, 0, Defaults)
    {
      if args[i] == "--words" && i + 1 < |args| {
        wordsFile := Some(args[i + 1]);
        i := i + 1;
      } else if args[i] == "--output" && i + 1 < |args| {
        outputDir := Some(args[i + 1]);
        i := i + 1;
      } else if args[i] == "--extensions" && i + 1 < |args| {
        extensions := NormalizeExtensions(args[i + 1]);
        i := i + 1;
      }
      i := i + 1;
    }
    s := Settings(wordsFile, outputDir, extensions);
  }

  /** The loop from `i` on never stops at the last argument on an option, so it consumes
      `args` exactly and nothing placed after them is read as a value. */
  predicate EndsClean(args: seq<string>, i: nat)
    decreases |args| - i
  {
    if i >= |args| then true
    else if i + 1 == |args| then !IsOption(args[i])
    else if IsOption(args[i]) then EndsClean(args, i + 2)
    else EndsClean(args, i + 1)
  }

  /** Arguments placed after `a` are parsed as if `a` were not there. */
  lemma {:induction false} ParseShift(a: seq<string>, b: seq<string>, j: nat, acc: Settings)
    requires j <= |b|
    ensures ParseFrom(a + b, |a| + j, acc) == ParseFrom(b, j, acc)
    decreases |b| - j
  {
    var ab := a + b;
    if j < |b| {
      assert ab[|a| + j] == b[j];
      if j + 1 < |b| {
        assert ab[|a| + j + 1] == b[j + 1];
      }
      if IsOption(b[j]) && j + 1 < |b| {
        ParseShift(a, b, j + 2, acc.(wordsFile := Some(b[j + 1])));
        ParseShift(a, b, j + 2, acc.(outputDir := Some(b[j + 1])));
        ParseShift(a, b, j + 2, acc.(extensions := NormalizeExtensions(b[j + 1])));
      } else {
        ParseShift(a, b, j + 1, acc);
      }
    }
  }

  /** The loop over `a + b`, when `a` ends clean, is the loop over `a` followed by the
      loop over `b`. */
  lemma {:induction false} ParseConcat(a: seq<string>, b: seq<string>, i: nat, acc: Settings)
    requires i <= |a| && EndsClean(a, i)
    ensures ParseFrom(a + b, i, acc) == ParseFrom(b, 0, ParseFrom(a, i, acc))
    decreases |a| - i
  {
    var ab := a + b;
    if i == |a| {
      ParseShift(a, b, 0, acc);
    } else {
      assert ab[i] == a[i];
      if i + 1 < |a| {
        assert ab[i + 1] == a[i + 1];
        if IsOption(a[i]) {
          ParseConcat(a, b, i + 2, acc.(wordsFile := Some(a[i + 1])));
          ParseConcat(a, b, i + 2, acc.(outputDir := Some(a[i + 1])));
          ParseConcat(a, b, i + 2, acc.(extensions := NormalizeExtensions(a[i + 1])));
        } else {
          ParseConcat(a, b, i + 1, acc);
        }
      } else {
        ParseConcat(a, b, i + 1, acc);
      }
    }
  }

  /** When an option repeats, the last occurrence wins: an option and its value at the
      end override whatever the arguments before them set. */
  lemma {:induction false} LastOccurrenceWins(a: seq<string>, v: string)
    requires EndsClean(a, 0)
    ensures ParseFrom(a + ["--words", v], 0, Defaults).wordsFile == Some(v)
    ensures ParseFrom(a + ["--output", v], 0, Defaults).outputDir == Some(v)
    ensures ParseFrom(a + ["--extensions", v], 0, Defaults).extensions == NormalizeExtensions(v)
  {
    ParseConcat(a, ["--words", v], 0, Defaults);
    ParseConcat(a, ["--output", v], 0, Defaults);
    ParseConcat(a, ["--extensions", v], 0, Defaults);
  }

  /** The words file is one that follows a `--words` option, or is left as it was when no
      `--words` is followed by a value; likewise the extensions. */
  lemma {:induction false} ValuesComeFromOptions(args: seq<string>, i: nat, acc: Settings)
    ensures var r := ParseFrom(args, i, acc);
            r.wordsFile == acc.wordsFile ||
            exists k :: i <= k && k + 1 < |args| && args[k] == "--words" && r.wordsFile == Some(args[k + 1])
    ensures var r := ParseFrom(args, i, acc);
            r.extensions == acc.extensions ||
            exists k :: i <= k && k + 1 < |args| && args[k] == "--extensions" &&
                        r.extensions == NormalizeExtensions(args[k + 1])
    decreases |args| - i
  {
    if i < |args| {
      if args[i] == "--words" && i + 1 < |args| {
        ValuesComeFromOptions(args, i + 2, acc.(wordsFile := Some(args[i + 1])));
      } else if args[i] == "--output" && i + 1 < |args| {
        ValuesComeFromOptions(args, i + 2, acc.(outputDir := Some(args[i + 1])));
      } else if args[i] == "--extensions" && i + 1 < |args| {
        ValuesComeFromOptions(args, i + 2, acc.(extensions := NormalizeExtensions(args[i + 1])));
      } else {
        ValuesComeFromOptions(args, i + 1, acc);
      }
    }
  }

  /** Without an `--extensions` option followed by a value the list stays `[".txt"]`. */
  lemma {:induction false} DefaultExtensions(args: seq<string>)
    requires forall k :: 0 <= k < |args| - 1 ==> args[k] != "--extensions"
    ensures ParseFrom(args, 0, Defaults).extensions == [".txt"]
  {
    ValuesComeFromOptions(args, 0, Defaults);
  }

  // ---------------------------------------------------------------------------
  // Checks before the scan
  // ---------------------------------------------------------------------------

  /** What RunConsoleMode sees of the file system: which files and directories exist,
      which directories can be created, and the lines of each file (None: File.ReadAllLines
      throws, for a file that is locked or not readable). */
  datatype FileSystem = FileSystem(
    fileExists: string -> bool,
    dirExists: string -> bool,
    canCreateDir: string -> bool,
    readLines: string -> Option<seq<string>>)

  /** How RunConsoleMode goes:
      - stopped for a missing option, or for a missing words file;
      - CreateDirectoryThrew: Directory.CreateDirectory throws before the try, and the
        exception leaves Main uncaught;
      - ReadFailed: File.ReadAllLines throws inside the try, and the catch prints the error;
      - Ready: ready to scan with the loaded words, after creating the output directory when
        it did not exist. */
  datatype ConsoleOutcome =
    | MissingArguments
    | WordsFileNotFound(path: string)
    | CreateDirectoryThrew(dir: string)
    | ReadFailed(path: string)
    | Ready(words: seq<string>, outputDir: string, extensions: seq<string>, createdOutputDir: bool)

  /** string.IsNullOrEmpty on an optional value. */
  predicate NullOrEmpty(v: Option<string>) {
    v.None? || v.value == []
  }

  /** RunConsoleMode up to the start of the scan: parse, check both options, check the
      words file, create the output directory, load the words. */
  method RunConsoleMode(args: seq<string>, fs: FileSystem) returns (outcome: ConsoleOutcome)
    ensures var s := ParseFrom(args, 0, Defaults);
            outcome == MissingArguments <==> NullOrEmpty(s.wordsFile) || NullOrEmpty(s.outputDir)
    ensures var s := ParseFrom(args, 0, Defaults);
            outcome.WordsFileNotFound? <==>
              !NullOrEmpty(s.wordsFile) && !NullOrEmpty(s.outputDir) && !fs.fileExists(s.wordsFile.value)
    ensures var s := ParseFrom(args, 0, Defaults);
            outcome.CreateDirectoryThrew? <==>
              !NullOrEmpty(s.wordsFile) && !NullOrEmpty(s.outputDir) && fs.fileExists(s.wordsFile.value) &&
              !fs.dirExists(s.outputDir.value) && !fs.canCreateDir(s.outputDir.value)
    ensures var s := ParseFrom(args, 0, Defaults);
            outcome.ReadFailed? <==>
              !NullOrEmpty(s.wordsFile) && !NullOrEmpty(s.outputDir) && fs.fileExists(s.wordsFile.value) &&
              (fs.dirExists(s.outputDir.value) || fs.canCreateDir(s.outputDir.value)) &&
              fs.readLines(s.wordsFile.value).None?
    ensures outcome.Ready? ==>
              var s := ParseFrom(args, 0, Defaults);
              s.wordsFile.Some? && s.outputDir.Some? && fs.readLines(s.wordsFile.value).Some? &&
              outcome.words == CleanLines(fs.readLines(s.wordsFile.value).value) &&
              outcome.outputDir == s.outputDir.value && outcome.extensions == s.extensions &&
              outcome.createdOutputDir == !fs.dirExists(s.outputDir.value)
  {
    var s := ParseArguments(args);
    if NullOrEmpty(s.wordsFile) || NullOrEmpty(s.outputDir) {
      return MissingArguments;
    }
    var wordsFile := s.wordsFile.value;
    var outputDir := s.outputDir.value;
    if !fs.fileExists(wordsFile) {
      return WordsFileNotFound(wordsFile);
    }
    var create := !fs.dirExists(outputDir);
    if create && !fs.canCreateDir(outputDir) {
      return CreateDirectoryThrew(outputDir);
    }
    var lines := fs.readLines(wordsFile);
    if lines.None? {
      return ReadFailed(wordsFile);
    }
    var words := CleanLines(lines.value);
    outcome := Ready(words, outputDir, s.extensions, create);
  }
}
