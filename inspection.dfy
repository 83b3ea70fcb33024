/** Per-file inspection and redaction (FileScannerService.ScanFileAsync and
    SanitizeFileName): count the whole-word matches of every forbidden word in a file,
    mask them, and write the original and the redacted copy. */
module Inspection {
  import opened Wrappers
  import opened Lists
  import opened Text
  import opened Models
  import opened WordMatch

  // ---------------------------------------------------------------------------
  // The loop over the forbidden words
  // ---------------------------------------------------------------------------

  /** What the loop over the forbidden words has built so far: the word counts, the
      replacement total, the redacted text and whether any word matched. */
  datatype Tally = Tally(counts: Counts, total: nat, modified: string, found: bool)

  /** One iteration: a blank word is skipped; a word with no match in the original
      `content` changes nothing; otherwise its count is stored and added to the total,
      and its matches in the text redacted so far are masked. */
  function Step(cc: Chars, content: string, t: Tally, w: string): Tally {
    if !Hits(cc, content, w) then t
    else Tally(Put(t.counts, w, Count(cc, content, w)), t.total + Count(cc, content, w),
               Redact(cc, t.modified, w, 0), true)
  }

  /** The state after the loop has run over `words`. */
  function TallyWords(cc: Chars, content: string, words: seq<string>): Tally
    decreases |words|
  {
    if words == [] then Tally([], 0, content, false)
    else Step(cc, content, TallyWords(cc, content, words[..|words| - 1]), words[|words| - 1])
  }

  /** A word the loop acts on: not blank and found at least once in `content`. */
  predicate Hits(cc: Chars, content: string, w: string) {
    !IsBlank(w) && Count(cc, content, w) > 0
  }

  /** The words the loop acts on, in list order, repetitions included. */
  function HitWords(cc: Chars, content: string, words: seq<string>): (r: seq<string>)
    ensures forall w :: w in r <==> w in words && Hits(cc, content, w)
    decreases |words|
  {
    if words == [] then []
    else
      var w := words[|words| - 1];
      var p := HitWords(cc, content, words[..|words| - 1]);
      assert words == words[..|words| - 1] + [w];
      if Hits(cc, content, w) then p + [w] else p
  }

  /** Sum of the match counts of `ws`, one term per list element. */
  function SumOfCounts(cc: Chars, content: string, ws: seq<string>): nat
    requires forall w :: w in ws ==> |w| > 0
  {
    if ws == [] then 0
    else SumOfCounts(cc, content, ws[..|ws| - 1]) + Count(cc, content, ws[|ws| - 1])
  }

  /** The text after Regex.Replace has masked each word of `ws` in turn. */
  function RedactAll(cc: Chars, text: string, ws: seq<string>): string
    requires forall w :: w in ws ==> |w| > 0
  {
    if ws == [] then text
    else Redact(cc, RedactAll(cc, text, ws[..|ws| - 1]), ws[|ws| - 1], 0)
  }

  /** The loop ends with hasForbiddenWords set exactly when some word of the list is a
      hit. */
  lemma {:induction false} TallyFound(cc: Chars, content: string, words: seq<string>)
    ensures TallyWords(cc, content, words).found <==> HitWords(cc, content, words) != []
    decreases |words|
  {
    if words != [] {
      TallyFound(cc, content, words[..|words| - 1]);
    }
  }

  /** The dictionary of counts holds no key twice, and its keys are the hit words, each
      once, in the order of their first occurrence in the list. */
  lemma {:induction false} TallyKeys(cc: Chars, content: string, words: seq<string>)
    ensures WellFormed(TallyWords(cc, content, words).counts)
    ensures Keys(TallyWords(cc, content, words).counts) == Distinct(HitWords(cc, content, words))
    decreases |words|
  {
    if words != [] {
      var p := words[..|words| - 1];
      var w := words[|words| - 1];
      TallyKeys(cc, content, p);
      var c := TallyWords(cc, content, p).counts;
      var h := HitWords(cc, content, p);
      if Hits(cc, content, w) {
        PutWellFormed(c, w, Count(cc, content, w));
        PutKeys(c, w, Count(cc, content, w));
        DistinctSnoc(h, w);
      }
    }
  }

  /** Each key of the dictionary is a hit word and maps to its number of matches in the
      ORIGINAL content (at least one), whatever was masked before it. */
  lemma {:induction false} TallyValues(cc: Chars, content: string, words: seq<string>)
    ensures forall w :: w in Keys(TallyWords(cc, content, words).counts) ==>
              Hits(cc, content, w) &&
              Lookup(TallyWords(cc, content, words).counts, w) == Some(Count(cc, content, w))
    decreases |words|
  {
    if words != [] {
      var p := words[..|words| - 1];
      var w := words[|words| - 1];
      TallyValues(cc, content, p);
      TallyKeys(cc, content, p);
      var c := TallyWords(cc, content, p).counts;
      if Hits(cc, content, w) {
        var n := Count(cc, content, w);
        PutLookup(c, w, n);
        PutKeys(c, w, n);
        var r := Put(c, w, n);
        forall v | v in Keys(r)
          ensures Hits(cc, content, v) && Lookup(r, v) == Some(Count(cc, content, v))
        {
          if v != w {
            assert v in Keys(c);
            assert Lookup(r, v) == Lookup(c, v);
          }
        }
      }
    }
  }

  /** TotalReplacements adds one count per hit word in the list, repetitions included. */
  lemma {:induction false} TallyTotal(cc: Chars, content: string, words: seq<string>)
    ensures forall w :: w in HitWords(cc, content, words) ==> |w| > 0
    ensures TallyWords(cc, content, words).total == SumOfCounts(cc, content, HitWords(cc, content, words))
    decreases |words|
  {
    if words != [] {
      var p := words[..|words| - 1];
      var w := words[|words| - 1];
      TallyTotal(cc, content, p);
      var h := HitWords(cc, content, p);
      if Hits(cc, content, w) {
        assert (h + [w])[..|h + [w]| - 1] == h;
      }
    }
  }

  /** With a word list free of repetitions, TotalReplacements is the sum of the values
      stored in WordCounts. */
  lemma {:induction false} TotalIsSumWhenDistinct(cc: Chars, content: string, words: seq<string>)
    requires NoDuplicates(words)
    ensures TallyWords(cc, content, words).total == SumCounts(TallyWords(cc, content, words).counts)
    decreases |words|
  {
    if words != [] {
      var p := words[..|words| - 1];
      var w := words[|words| - 1];
      assert NoDuplicates(p);
      TotalIsSumWhenDistinct(cc, content, p);
      var c := TallyWords(cc, content, p).counts;
      if Hits(cc, content, w) {
        assert w !in p by {
          forall j | 0 <= j < |p| ensures p[j] != w { assert p[j] == words[j]; }
        }
        DistinctSpec(HitWords(cc, content, p));
        TallyKeys(cc, content, p);
        assert w !in Keys(c);
        PutShape(c, w, Count(cc, content, w));
        SumCountsAppend(c, [Entry(w, Count(cc, content, w))]);
        assert SumCounts([Entry(w, Count(cc, content, w))]) == Count(cc, content, w);
      }
    }
  }

  /** A word listed twice is added to TotalReplacements twice but stored once in
      WordCounts, so the total no longer equals the sum of the stored counts. */
  lemma {:induction false} RepeatedWordCountedTwice(cc: Chars, content: string, w: string)
    requires Hits(cc, content, w)
    ensures TallyWords(cc, content, [w, w]).total == 2 * Count(cc, content, w)
    ensures SumCounts(TallyWords(cc, content, [w, w]).counts) == Count(cc, content, w)
  {
    assert [w, w][..1] == [w];
    assert [w][..0] == [];
    var n := Count(cc, content, w);
    assert TallyWords(cc, content, [w]).counts == [Entry(w, n)];
    assert TallyWords(cc, content, [w, w]).counts == [Entry(w, n)];
  }

  /** The redacted text is the original with the masking of each hit word applied in
      list order; a word that does not occur in the original leaves it untouched. */
  lemma {:induction false} TallyModified(cc: Chars, content: string, words: seq<string>)
    ensures forall w :: w in HitWords(cc, content, words) ==> |w| > 0
    ensures TallyWords(cc, content, words).modified == RedactAll(cc, content, HitWords(cc, content, words))
    decreases |words|
  {
    if words != [] {
      var p := words[..|words| - 1];
      var w := words[|words| - 1];
      TallyModified(cc, content, p);
      var h := HitWords(cc, content, p);
      if Hits(cc, content, w) {
        assert (h + [w])[..|h + [w]| - 1] == h;
      }
    }
  }

  // ---------------------------------------------------------------------------
  // File names of the two artifacts
  // ---------------------------------------------------------------------------

  /** Path.GetInvalidFileNameChars() on Windows, in the order it returns them. */
  const InvalidFileNameChars: seq<char> :=
    ['"', '<', '>', '|',
     '\U{0}', '\U{1}', '\U{2}', '\U{3}', '\U{4}', '\U{5}', '\U{6}', '\U{7}',
     '\U{8}', '\U{9}', '\U{A}', '\U{B}', '\U{C}', '\U{D}', '\U{E}', '\U{F}',
     '\U{10}', '\U{11}', '\U{12}', '\U{13}', '\U{14}', '\U{15}', '\U{16}', '\U{17}',
     '\U{18}', '\U{19}', '\U{1A}', '\U{1B}', '\U{1C}', '\U{1D}', '\U{1E}', '\U{1F}',
     ':', '*', '?', '\\', '/']

  /** The directory separators Path.GetFileName looks for on Windows under .NET Core
      (the volume separator ':' ends only a drive root such as `C:`). */
  predicate IsSeparator(c: char) {
    c == '\\' || c == '/'
  }

  /** Path.GetFileName: what follows the last separator. */
  function FileName(path: string): (r: string)
    ensures |r| <= |path| && r == path[|path| - |r|..]
    ensures forall k :: 0 <= k < |r| ==> !IsSeparator(r[k])
    ensures |r| < |path| ==> IsSeparator(path[|path| - |r| - 1])
  {
    if path == [] || IsSeparator(path[|path| - 1]) then []
    else FileName(path[..|path| - 1]) + [path[|path| - 1]]
  }

  /** string.Replace(a, b): every `a` becomes `b`. */
  function ReplaceChar(s: string, a: char, b: char): string {
    seq(|s|, k requires 0 <= k < |s| => if s[k] == a then b else s[k])
  }

  /** The name with every invalid file-name character turned into '_'. */
  function Sanitized(name: string): (r: string)
    ensures |r| == |name|
    ensures forall k :: 0 <= k < |r| ==> r[k] !in InvalidFileNameChars
    ensures forall k :: 0 <= k < |r| ==>
              r[k] == (if name[k] in InvalidFileNameChars then '_' else name[k])
  {
    seq(|name|, k requires 0 <= k < |name| => if name[k] in InvalidFileNameChars then '_' else name[k])
  }

  /** SanitizeFileName: one Replace per invalid character. */
  method SanitizeFileName(fileName: string) returns (r: string)
    ensures r == Sanitized(fileName)
  {
    r := fileName;
    var i := 0;
    while i < |InvalidFileNameChars|
      invariant 0 <= i <= |InvalidFileNameChars|
      invariant |r| == |fileName|
      invariant forall k :: 0 <= k < |r| ==>
                  r[k] == (if fileName[k] in InvalidFileNameChars[..i] then '_' else fileName[k])
    {
      r := ReplaceChar(r, InvalidFileNameChars[i], '_');
      assert InvalidFileNameChars[..i + 1] == InvalidFileNameChars[..i] + [InvalidFileNameChars[i]];
      i := i + 1;
    }
    assert InvalidFileNameChars[..i] == InvalidFileNameChars;
    assert forall k :: 0 <= k < |r| ==> r[k] == Sanitized(fileName)[k];
  }

  /** Sanitizing twice is sanitizing once. */
  lemma {:induction false} SanitizedIdempotent(name: string)
    ensures Sanitized(Sanitized(name)) == Sanitized(name)
  {
    var s := Sanitized(name);
    assert forall k :: 0 <= k < |s| ==> Sanitized(s)[k] == s[k];
  }

  /** `original_` + the sanitized file name. */
  function OriginalName(path: string): string {
    "original_" + Sanitized(FileName(path))
  }

  /** `modified_` + the sanitized file name. */
  function ModifiedName(path: string): string {
    "modified_" + Sanitized(FileName(path))
  }

  /** The artifact names depend on nothing but the file name: two scanned files of the
      same name in different directories are written to the same pair of artifacts, the
      later one overwriting the earlier. The names keep the length of the file name and
      hold no invalid character after their prefix. */
  lemma {:induction false} ArtifactNames(path: string, other: string)
    ensures |OriginalName(path)| == 9 + |FileName(path)| && |ModifiedName(path)| == 9 + |FileName(path)|
    ensures forall k :: 9 <= k < |OriginalName(path)| ==> OriginalName(path)[k] !in InvalidFileNameChars
    ensures FileName(path) == FileName(other) ==>
              OriginalName(path) == OriginalName(other) && ModifiedName(path) == ModifiedName(other)
  {
    PrefixKeepsValid("original_", Sanitized(FileName(path)));
  }

  /** A prefix leaves the characters after it as they are. */
  lemma {:induction false} PrefixKeepsValid(prefix: string, t: string)
    requires forall k :: 0 <= k < |t| ==> t[k] !in InvalidFileNameChars
    ensures forall k :: |prefix| <= k < |prefix + t| ==> (prefix + t)[k] !in InvalidFileNameChars
  {
    forall k | |prefix| <= k < |prefix + t| ensures (prefix + t)[k] !in InvalidFileNameChars {
      assert (prefix + t)[k] == t[k - |prefix|];
    }
  }

  // ---------------------------------------------------------------------------
  // ScanFileAsync
  // ---------------------------------------------------------------------------

  /** One attempt of File.ReadAllTextAsync with a given encoding. */
  datatype ReadAttempt = Decoded(content: string) | ReadFailed

  /** The file at the scanned path as the scan finds it: gone, or present with its length
      and the outcome of reading it as UTF-8 and, if that throws, as Windows-1251. */
  datatype SourceFile = Missing | Present(size: nat, asUtf8: ReadAttempt, as1251: ReadAttempt)

  datatype Encoding = Utf8 | Windows1251

  /** Which of the output steps throw: creating the output directory, File.Copy of the
      original, and writing the redacted text. */
  datatype WriteFaults = WriteFaults(createDirFails: bool, copyFails: bool, writeFails: bool)

  /** A file written into the output directory. */
  datatype Artifact = OriginalCopy(name: string) | ModifiedText(name: string, text: string, encoding: Encoding)

  /** The text of the file and the encoding that read it, if either read succeeds. */
  function Decode(file: SourceFile): Option<(string, Encoding)> {
    match file
    case Missing => None
    case Present(_, Decoded(c), _) => Some((c, Utf8))
    case Present(_, ReadFailed, Decoded(c)) => Some((c, Windows1251))
    case Present(_, ReadFailed, ReadFailed) => None
  }

  /** Some forbidden word occurs in `content`. */
  predicate AnyHit(cc: Chars, content: string, words: seq<string>) {
    HitWords(cc, content, words) != []
  }

  /** ScanFileAsync: null unless the file can be read, some forbidden word occurs in it
      and both artifacts are written. Files without a forbidden word produce no output. */
  method ScanFile(path: string, file: SourceFile, words: seq<string>, faults: WriteFaults, cc: Chars, now: int)
    returns (result: Option<FileScanResult>, written: seq<Artifact>)
    ensures result.Some? <==>
              Decode(file).Some? && AnyHit(cc, Decode(file).value.0, words)
              && !faults.createDirFails && !faults.copyFails && !faults.writeFails
    ensures (Decode(file).None? || !AnyHit(cc, Decode(file).value.0, words)) ==> written == []
    ensures Decode(file).Some? && AnyHit(cc, Decode(file).value.0, words) ==>
              && ((faults.createDirFails || faults.copyFails) ==> written == [])
              && (!faults.createDirFails && !faults.copyFails && faults.writeFails ==>
                    written == [OriginalCopy(OriginalName(path))])
    ensures result.Some? ==>
              var content := Decode(file).value.0;
              var t := TallyWords(cc, content, words);
              && result.value == FileScanResult(path, file.size, t.counts, t.total, now)
              && written == [OriginalCopy(OriginalName(path)),
                             ModifiedText(ModifiedName(path), t.modified, Decode(file).value.1)]
              && (forall e :: e in result.value.wordCounts ==>
                    !IsBlank(e.word) && e.word in words && e.count >= 1 && e.count == Count(cc, content, e.word))
  {
    if file.Missing? {
      return None, [];
    }
    var decoded := Decode(file);
    if decoded.None? {
      return None, [];
    }
    var content := decoded.value.0;
    var encoding := decoded.value.1;

    var counts: Counts := [];
    var total: nat := 0;
    var hasForbiddenWords := false;
    var modified := content;
    var i := 0;
    while i < |words|
      invariant 0 <= i <= |words|
      invariant Tally(counts, total, modified, hasForbiddenWords) == TallyWords(cc, content, words[..i])
    {
      var w := words[i];
      assert words[..i + 1][..i] == words[..i];
      if !IsBlank(w) {
        var n := Count(cc, content, w);
        if n > 0 {
          hasForbiddenWords := true;
          counts := Put(counts, w, n);
          total := total + n;
          modified := Redact(cc, modified, w, 0);
        }
      }
      i := i + 1;
    }
    assert words[..i] == words;
    TallyFound(cc, content, words);
    if !hasForbiddenWords {
      return None, [];
    }
    if faults.createDirFails {
      return None, [];
    }
    var safeFileName := SanitizeFileName(FileName(path));
    var originalPath := "original_" + safeFileName;
    var modifiedPath := "modified_" + safeFileName;
    assert originalPath == OriginalName(path) && modifiedPath == ModifiedName(path);
    if faults.copyFails {
      return None, [];
    }
    var copy := OriginalCopy(originalPath);
    written := [copy];
    if faults.writeFails {
      return None, written;
    }
    var redacted := ModifiedText(modifiedPath, modified, encoding);
    written := [copy, redacted];
    result := Some(FileScanResult(path, file.size, counts, total, now));

    TallyEntries(cc, content, words);
  }

  /** Every stored pair is a non-blank word of the list with its (positive) number of
      matches in the original content. */
  lemma {:induction false} TallyEntries(cc: Chars, content: string, words: seq<string>)
    ensures forall e :: e in TallyWords(cc, content, words).counts ==>
              !IsBlank(e.word) && e.word in words && e.count >= 1 && e.count == Count(cc, content, e.word)
  {
    var counts := TallyWords(cc, content, words).counts;
    TallyKeys(cc, content, words);
    TallyValues(cc, content, words);
    DistinctSpec(HitWords(cc, content, words));
    forall e | e in counts
      ensures !IsBlank(e.word) && e.word in words && e.count >= 1 && e.count == Count(cc, content, e.word)
    {
      var k :| 0 <= k < |counts| && counts[k] == e;
      assert e.word == Keys(counts)[k];
      LookupAt(counts, k);
    }
  }

  /** In a well-formed dictionary, the pair at position `k` is what Lookup finds. */
  lemma {:induction false} LookupAt(m: Counts, k: nat)
    requires WellFormed(m) && k < |m|
    ensures Lookup(m, m[k].word) == Some(m[k].count)
  {
    if k > 0 {
      assert m == [m[0]] + m[1..];
      WellFormedCons(m[0], m[1..]);
      assert m[0].word != m[k].word by { assert Keys(m)[0] != Keys(m)[k]; }
      LookupAt(m[1..], k - 1);
    }
  }
}
