/** ReportService.GenerateReportAsync without the text layout: the totals, the
    per-word statistics over all results, the top-10 list, the per-file blocks, and the
    unit choice of FormatFileSize. */
module Report {
  import opened Wrappers
  import opened Lists
  import opened Models

  // ---------------------------------------------------------------------------
  // Totals
  // ---------------------------------------------------------------------------

  /** results.Sum(r => r.FileSize). */
  function TotalSize(results: seq<FileScanResult>): nat {
    if results == [] then 0
    else TotalSize(results[..|results| - 1]) + results[|results| - 1].fileSize
  }

  /** results.Sum(r => r.TotalReplacements). */
  function TotalReplacements(results: seq<FileScanResult>): nat {
    if results == [] then 0
    else TotalReplacements(results[..|results| - 1]) + results[|results| - 1].totalReplacements
  }

  /** The totals add up over a split of the result list. */
  lemma {:induction false} TotalsAppend(a: seq<FileScanResult>, b: seq<FileScanResult>)
    ensures TotalSize(a + b) == TotalSize(a) + TotalSize(b)
    ensures TotalReplacements(a + b) == TotalReplacements(a) + TotalReplacements(b)
    decreases |b|
  {
    if b == [] {
      assert a + b == a;
    } else {
      var b' := b[..|b| - 1];
      TotalsAppend(a, b');
      assert (a + b)[..|a + b| - 1] == a + b';
    }
  }

  // ---------------------------------------------------------------------------
  // wordStats
  // ---------------------------------------------------------------------------

  /** One turn of the inner loop: a missing key is first stored with 0, then the pair's
      value is added to it. */
  function AddEntry(stats: Counts, e: Entry): Counts {
    Put(stats, e.word, CountOf(stats, e.word) + e.count)
  }

  /** The inner loop over one result's WordCounts, in dictionary order. */
  function AddAll(stats: Counts, es: Counts): Counts {
    if es == [] then stats else AddEntry(AddAll(stats, es[..|es| - 1]), es[|es| - 1])
  }

  /** wordStats after the outer loop over `results`. */
  function StatsOf(results: seq<FileScanResult>): Counts {
    if results == [] then []
    else AddAll(StatsOf(results[..|results| - 1]), results[|results| - 1].wordCounts)
  }

  /** The sum of the values stored under `w` in each result, results without `w`
      adding nothing. */
  function WordTotal(results: seq<FileScanResult>, w: string): nat {
    if results == [] then 0
    else WordTotal(results[..|results| - 1], w) + CountOf(results[|results| - 1].wordCounts, w)
  }

  /** Every word of every result, in the order the loops meet them. */
  function AllWords(results: seq<FileScanResult>): seq<string> {
    if results == [] then []
    else AllWords(results[..|results| - 1]) + Keys(results[|results| - 1].wordCounts)
  }

  /** wordStats as the loops build it. */
  method BuildWordStats(results: seq<FileScanResult>) returns (stats: Counts)
    ensures stats == StatsOf(results)
  {
    stats := [];
    var i := 0;
    while i < |results|
      invariant 0 <= i <= |results|
      invariant stats == StatsOf(results[..i])
    {
      stats := AddWordCounts(stats, results[i].wordCounts);
      StatsOfSnoc(results, i);
      i := i + 1;
    }
    assert results[..i] == results;
  }

  /** The inner loop: each pair of one result's WordCounts added into wordStats. */
  method AddWordCounts(stats0: Counts, es: Counts) returns (stats: Counts)
    ensures stats == AddAll(stats0, es)
  {
    stats := stats0;
    var j := 0;
    while j < |es|
      invariant 0 <= j <= |es|
      invariant stats == AddAll(stats0, es[..j])
    {
      var e := es[j];
      ghost var before := stats;
      if e.word !in Keys(stats) {
        stats := Put(stats, e.word, 0);
      }
      MissingKeyFirst(before, stats, e);
      stats := Put(stats, e.word, CountOf(stats, e.word) + e.count);
      AddAllSnoc(stats0, es, j);
      j := j + 1;
    }
    assert es[..j] == es;
  }

  lemma {:induction false} AddAllSnoc(stats: Counts, es: Counts, j: nat)
    requires j < |es|
    ensures AddAll(stats, es[..j + 1]) == AddEntry(AddAll(stats, es[..j]), es[j])
  {
    assert es[..j + 1][..j] == es[..j];
  }

  lemma {:induction false} StatsOfSnoc(results: seq<FileScanResult>, i: nat)
    requires i < |results|
    ensures StatsOf(results[..i + 1]) == AddAll(StatsOf(results[..i]), results[i].wordCounts)
  {
    assert results[..i + 1][..i] == results[..i];
  }

  /** Storing 0 under a missing key and then adding the value is AddEntry. */
  lemma {:induction false} MissingKeyFirst(s: Counts, s0: Counts, e: Entry)
    requires s0 == if e.word !in Keys(s) then Put(s, e.word, 0) else s
    ensures Put(s0, e.word, CountOf(s0, e.word) + e.count) == AddEntry(s, e)
  {
    if e.word !in Keys(s) {
      PutPut(s, e.word, CountOf(s, e.word) + e.count);
      LookupSome(s, e.word);
      assert CountOf(s, e.word) == 0;
    }
  }

  /** Storing 0 under a missing key and then the sum is the same as storing the sum. */
  lemma {:induction false} PutPut(m: Counts, k: string, v: nat)
    ensures k !in Keys(m) ==> CountOf(Put(m, k, 0), k) == 0
    ensures Put(Put(m, k, 0), k, v) == Put(m, k, v)
  {
    PutLookup(m, k, 0);
    if m != [] && m[0].word != k {
      PutPut(m[1..], k, v);
      assert ([m[0]] + Put(m[1..], k, 0))[1..] == Put(m[1..], k, 0);
    } else if m != [] {
      assert ([Entry(k, 0)] + m[1..])[1..] == m[1..];
    }
  }

  /** Put changes the sum of the values by the new value minus the old one. */
  lemma {:induction false} PutSum(m: Counts, k: string, v: nat)
    ensures SumCounts(Put(m, k, v)) + CountOf(m, k) == SumCounts(m) + v
  {
    if m != [] && m[0].word != k {
      PutSum(m[1..], k, v);
      assert ([m[0]] + Put(m[1..], k, v))[1..] == Put(m[1..], k, v);
    } else if m != [] {
      assert ([Entry(k, v)] + m[1..])[1..] == m[1..];
    } else {
      assert [Entry(k, v)][1..] == [];
    }
  }

  /** The keys of a list of pairs, one pair more. */
  lemma {:induction false} KeysSnoc(m: Counts, e: Entry)
    ensures Keys(m + [e]) == Keys(m) + [e.word]
  {
  }

  /** In a dictionary, the value of a key is the sum over the pairs carrying it: the
      last pair adds its value to its own key only, which no earlier pair holds. */
  lemma {:induction false} CountOfLast(m: Counts, w: string)
    requires m != [] && WellFormed(m)
    ensures WellFormed(m[..|m| - 1])
    ensures CountOf(m, w) == CountOf(m[..|m| - 1], w) + (if m[|m| - 1].word == w then m[|m| - 1].count else 0)
  {
    var p := m[..|m| - 1];
    var e := m[|m| - 1];
    assert m == p + [e];
    KeysSnoc(p, e);
    assert e.word !in Keys(p) by {
      forall i | 0 <= i < |p| ensures Keys(p)[i] != e.word {
        assert Keys(m)[i] != Keys(m)[|p|];
      }
    }
    assert WellFormed(p) by {
      forall i, j | 0 <= i < j < |p| ensures Keys(p)[i] != Keys(p)[j] {
        assert Keys(m)[i] != Keys(m)[j];
      }
    }
    LookupSnoc(p, e, w);
    LookupSome(p, w);
  }

  lemma {:induction false} LookupSnoc(m: Counts, e: Entry, w: string)
    ensures Lookup(m + [e], w) == if w in Keys(m) then Lookup(m, w) else if e.word == w then Some(e.count) else None
  {
    if m != [] {
      assert (m + [e])[1..] == m[1..] + [e];
      assert Keys(m) == [m[0].word] + Keys(m[1..]);
      LookupSnoc(m[1..], e, w);
    }
  }

  /** One pair more through the inner loop adds its value to its own key only. */
  lemma {:induction false} AddEntryCount(s: Counts, e: Entry, w: string)
    ensures CountOf(AddEntry(s, e), w) == CountOf(s, w) + (if e.word == w then e.count else 0)
  {
    var v := CountOf(s, e.word) + e.count;
    var r := Put(s, e.word, v);
    assert AddEntry(s, e) == r;
    PutLookup(s, e.word, v);
    if e.word == w {
      assert Lookup(r, w) == Some(v);
      assert CountOf(r, w) == v;
    } else {
      assert Lookup(r, w) == Lookup(s, w);
      assert CountOf(r, w) == CountOf(s, w);
    }
  }

  /** The inner loop adds each pair's value to its key and leaves the other keys. */
  lemma {:induction false} AddAllCount(stats: Counts, es: Counts, w: string)
    requires WellFormed(es)
    ensures CountOf(AddAll(stats, es), w) == CountOf(stats, w) + CountOf(es, w)
    decreases |es|
  {
    if es != [] {
      var p := es[..|es| - 1];
      var e := es[|es| - 1];
      CountOfLast(es, w);
      AddAllCount(stats, p, w);
      AddEntryCount(AddAll(stats, p), e, w);
    }
  }

  /** wordStats[w] is the sum of WordCounts[w] over the results that hold `w`. */
  lemma {:induction false} StatsCount(results: seq<FileScanResult>, w: string)
    requires forall k :: 0 <= k < |results| ==> WellFormed(results[k].wordCounts)
    ensures CountOf(StatsOf(results), w) == WordTotal(results, w)
    decreases |results|
  {
    if results != [] {
      StatsCount(results[..|results| - 1], w);
      AddAllCount(StatsOf(results[..|results| - 1]), results[|results| - 1].wordCounts, w);
    }
  }

  /** wordStats holds each word of the results exactly once, in the order the loops
      first meet it. */
  lemma {:induction false} StatsKeys(results: seq<FileScanResult>)
    ensures Keys(StatsOf(results)) == Distinct(AllWords(results))
    ensures WellFormed(StatsOf(results))
    decreases |results|
  {
    if results != [] {
      var p := results[..|results| - 1];
      StatsKeys(p);
      AddAllKeys(StatsOf(p), AllWords(p), results[|results| - 1].wordCounts);
    }
  }

  lemma {:induction false} AddAllKeys(stats: Counts, seen: seq<string>, es: Counts)
    requires Keys(stats) == Distinct(seen) && WellFormed(stats)
    ensures Keys(AddAll(stats, es)) == Distinct(seen + Keys(es))
    ensures WellFormed(AddAll(stats, es))
    decreases |es|
  {
    if es == [] {
      assert seen + Keys(es) == seen;
    } else {
      var p := es[..|es| - 1];
      var e := es[|es| - 1];
      AddAllKeys(stats, seen, p);
      var s := AddAll(stats, p);
      assert AddAll(stats, es) == AddEntry(s, e);
      AddEntryKeys(s, e);
      DistinctSnoc(seen + Keys(p), e.word);
      KeysLast(es);
      AppendSnoc(seen, Keys(p), e.word);
    }
  }

  /** One pair more through the inner loop adds its key at the end if it is new. */
  lemma {:induction false} AddEntryKeys(s: Counts, e: Entry)
    requires WellFormed(s)
    ensures Keys(AddEntry(s, e)) == if e.word in Keys(s) then Keys(s) else Keys(s) + [e.word]
    ensures WellFormed(AddEntry(s, e))
  {
    var v := CountOf(s, e.word) + e.count;
    assert AddEntry(s, e) == Put(s, e.word, v);
    PutKeys(s, e.word, v);
    PutWellFormed(s, e.word, v);
  }

  lemma {:induction false} KeysLast(m: Counts)
    requires m != []
    ensures Keys(m) == Keys(m[..|m| - 1]) + [m[|m| - 1].word]
  {
    SnocSplit(m);
    KeysSnoc(m[..|m| - 1], m[|m| - 1]);
  }

  /** The values of wordStats add up to the values of all the results' WordCounts. */
  lemma {:induction false} StatsSum(results: seq<FileScanResult>)
    ensures SumCounts(StatsOf(results)) == SumOfWordCounts(results)
    decreases |results|
  {
    if results != [] {
      StatsSum(results[..|results| - 1]);
      AddAllSum(StatsOf(results[..|results| - 1]), results[|results| - 1].wordCounts);
    }
  }

  function SumOfWordCounts(results: seq<FileScanResult>): nat {
    if results == [] then 0
    else SumOfWordCounts(results[..|results| - 1]) + SumCounts(results[|results| - 1].wordCounts)
  }

  lemma {:induction false} AddAllSum(stats: Counts, es: Counts)
    ensures SumCounts(AddAll(stats, es)) == SumCounts(stats) + SumCounts(es)
    decreases |es|
  {
    if es != [] {
      var p := es[..|es| - 1];
      var e := es[|es| - 1];
      AddAllSum(stats, p);
      var s := AddAll(stats, p);
      var v := CountOf(s, e.word) + e.count;
      assert AddAll(stats, es) == Put(s, e.word, v);
      PutSum(s, e.word, v);
      SumCountsLast(es);
    }
  }

  lemma {:induction false} SumCountsLast(m: Counts)
    requires m != []
    ensures SumCounts(m) == SumCounts(m[..|m| - 1]) + m[|m| - 1].count
  {
    SnocSplit(m);
    SumCountsAppend(m[..|m| - 1], [m[|m| - 1]]);
    assert [m[|m| - 1]][1..] == [];
  }

  /** When every result's TotalReplacements is the sum of its WordCounts (no word listed
      twice), the report's "total replacements" equals the sum of the word statistics. */
  lemma {:induction false} ReplacementsAgree(results: seq<FileScanResult>)
    requires forall k :: 0 <= k < |results| ==> results[k].totalReplacements == SumCounts(results[k].wordCounts)
    ensures TotalReplacements(results) == SumCounts(StatsOf(results))
    decreases |results|
  {
    StatsSum(results);
    if results != [] {
      ReplacementsAgree(results[..|results| - 1]);
      StatsSum(results[..|results| - 1]);
    }
  }

  // ---------------------------------------------------------------------------
  // OrderByDescending and Take(10)
  // ---------------------------------------------------------------------------

  /** Sorted by count, largest first. */
  predicate NonIncreasing(s: seq<Entry>) {
    forall i, j :: 0 <= i < j < |s| ==> s[i].count >= s[j].count
  }

  /** The pairs with count `c`, in order. */
  function WithCount(s: seq<Entry>, c: nat): seq<Entry> {
    if s == [] then [] else (if s[0].count == c then [s[0]] else []) + WithCount(s[1..], c)
  }

  /** `e` placed after every pair whose count is at least its own. */
  function InsertDesc(s: seq<Entry>, e: Entry): (r: seq<Entry>)
    ensures |r| == |s| + 1
  {
    if s == [] then [e]
    else if s[0].count >= e.count then [s[0]] + InsertDesc(s[1..], e)
    else [e] + s
  }

  /** OrderByDescending(kvp => kvp.Value): a stable sort, pairs of equal count keeping
      the order of the input. */
  function SortDesc(s: seq<Entry>): (r: seq<Entry>)
    ensures |r| == |s|
  {
    if s == [] then [] else InsertDesc(SortDesc(s[..|s| - 1]), s[|s| - 1])
  }

  /** Inserting into a sorted list keeps it sorted; the head is the larger of the two
      candidates. */
  lemma {:induction false} InsertDescSorted(s: seq<Entry>, e: Entry)
    requires NonIncreasing(s)
    ensures NonIncreasing(InsertDesc(s, e))
    ensures InsertDesc(s, e)[0].count == if s != [] && s[0].count >= e.count then s[0].count else e.count
  {
    if s != [] && s[0].count >= e.count {
      InsertDescSorted(s[1..], e);
      var t := InsertDesc(s[1..], e);
      assert forall k :: 0 <= k < |t| ==> t[0].count >= t[k].count;
    }
  }

  lemma {:induction false} InsertDescPerm(s: seq<Entry>, e: Entry)
    ensures multiset(InsertDesc(s, e)) == multiset(s) + multiset{e}
  {
    if s != [] && s[0].count >= e.count {
      InsertDescPerm(s[1..], e);
      assert s == [s[0]] + s[1..];
    }
  }

  lemma {:induction false} WithCountNone(s: seq<Entry>, c: nat)
    requires forall k :: 0 <= k < |s| ==> s[k].count != c
    ensures WithCount(s, c) == []
  {
    if s != [] {
      WithCountNone(s[1..], c);
    }
  }

  lemma {:induction false} WithCountAppend(a: seq<Entry>, b: seq<Entry>, c: nat)
    ensures WithCount(a + b, c) == WithCount(a, c) + WithCount(b, c)
  {
    if a == [] {
      assert a + b == b;
    } else {
      var h := if a[0].count == c then [a[0]] else [];
      assert (a + b)[0] == a[0];
      assert (a + b)[1..] == a[1..] + b;
      WithCountAppend(a[1..], b, c);
      assert WithCount(a + b, c) == h + WithCount(a[1..] + b, c);
      assert WithCount(a, c) == h + WithCount(a[1..], c);
    }
  }

  /** Inserting keeps the pairs of every count in their order and puts `e` last among
      those of its own count. */
  lemma {:induction false} InsertDescStable(s: seq<Entry>, e: Entry, c: nat)
    requires NonIncreasing(s)
    ensures WithCount(InsertDesc(s, e), c) == WithCount(s, c) + (if e.count == c then [e] else [])
  {
    var last := if e.count == c then [e] else [];
    if s == [] {
    } else if s[0].count >= e.count {
      var t := InsertDesc(s[1..], e);
      var h := if s[0].count == c then [s[0]] else [];
      NonIncreasingTail(s);
      calc {
        WithCount(InsertDesc(s, e), c);
        { assert InsertDesc(s, e) == [s[0]] + t; }
        WithCount([s[0]] + t, c);
        { WithCountCons(s[0], t, c); }
        h + WithCount(t, c);
        { InsertDescStable(s[1..], e, c); }
        h + (WithCount(s[1..], c) + last);
        (h + WithCount(s[1..], c)) + last;
        WithCount(s, c) + last;
      }
    } else {
      assert InsertDesc(s, e) == [e] + s;
      WithCountCons(e, s, c);
      if e.count == c {
        WithCountAbove(s, c);
      }
    }
  }

  /** No pair of a sorted list has a count above its first pair's. */
  lemma {:induction false} WithCountAbove(s: seq<Entry>, c: nat)
    requires NonIncreasing(s) && s != [] && s[0].count < c
    ensures WithCount(s, c) == []
  {
    assert forall k :: 0 <= k < |s| ==> s[k].count <= s[0].count;
    WithCountNone(s, c);
  }

  lemma {:induction false} NonIncreasingTail(s: seq<Entry>)
    requires s != [] && NonIncreasing(s)
    ensures NonIncreasing(s[1..])
  {
    forall i, j | 0 <= i < j < |s[1..]| ensures s[1..][i].count >= s[1..][j].count {
      assert s[1..][i] == s[i + 1] && s[1..][j] == s[j + 1];
    }
  }

  lemma {:induction false} WithCountCons(x: Entry, t: seq<Entry>, c: nat)
    ensures WithCount([x] + t, c) == (if x.count == c then [x] else []) + WithCount(t, c)
  {
    assert ([x] + t)[1..] == t;
  }

  /** The sort orders by count, largest first. */
  lemma {:induction false} SortDescSorted(s: seq<Entry>)
    ensures NonIncreasing(SortDesc(s))
  {
    if s != [] {
      SortDescSorted(s[..|s| - 1]);
      InsertDescSorted(SortDesc(s[..|s| - 1]), s[|s| - 1]);
    }
  }

  /** The sort keeps every pair, as often as it occurs. */
  lemma {:induction false} SortDescPerm(s: seq<Entry>)
    ensures multiset(SortDesc(s)) == multiset(s)
  {
    if s != [] {
      SortDescPerm(s[..|s| - 1]);
      InsertDescPerm(SortDesc(s[..|s| - 1]), s[|s| - 1]);
      SnocSplit(s);
    }
  }

  /** The sort keeps the input order among pairs of equal count. */
  lemma {:induction false} SortDescStable(s: seq<Entry>, c: nat)
    ensures WithCount(SortDesc(s), c) == WithCount(s, c)
  {
    if s != [] {
      var p := s[..|s| - 1];
      var x := s[|s| - 1];
      SortDescStable(p, c);
      SortDescSorted(p);
      InsertDescStable(SortDesc(p), x, c);
      WithCountLast(s, c);
    }
  }

  lemma {:induction false} WithCountLast(s: seq<Entry>, c: nat)
    requires s != []
    ensures WithCount(s, c) == WithCount(s[..|s| - 1], c) + (if s[|s| - 1].count == c then [s[|s| - 1]] else [])
  {
    SnocSplit(s);
    WithCountAppend(s[..|s| - 1], [s[|s| - 1]], c);
    assert [s[|s| - 1]][1..] == [];
  }

  /** The three properties of OrderByDescending together. */
  lemma {:induction false} SortDescSpec(s: seq<Entry>)
    ensures NonIncreasing(SortDesc(s)) && multiset(SortDesc(s)) == multiset(s)
    ensures forall c :: WithCount(SortDesc(s), c) == WithCount(s, c)
  {
    SortDescSorted(s);
    SortDescPerm(s);
    forall c ensures WithCount(SortDesc(s), c) == WithCount(s, c) {
      SortDescStable(s, c);
    }
  }

  /** The number of pairs in the top list. */
  function TopCount(n: nat): nat {
    if n < 10 then n else 10
  }

  /** wordStats.OrderByDescending(kvp => kvp.Value).Take(10). */
  function TopWords(stats: Counts): (r: seq<Entry>)
    ensures |r| == TopCount(|stats|)
  {
    SortDesc(stats)[..TopCount(|stats|)]
  }

  /** The top list holds min(10, number of distinct words) pairs. */
  lemma {:induction false} TopWordsLength(results: seq<FileScanResult>)
    ensures |TopWords(StatsOf(results))| == TopCount(|Distinct(AllWords(results))|)
  {
    StatsKeys(results);
  }

  /** The top list is taken from wordStats, largest count first, and no pair left out
      has a larger count than the last one listed. */
  lemma {:induction false} TopWordsOrder(stats: Counts)
    ensures NonIncreasing(TopWords(stats))
    ensures multiset(TopWords(stats)) <= multiset(stats)
    ensures var top := TopWords(stats);
            var sorted := SortDesc(stats);
            top != [] ==> forall k :: |top| <= k < |sorted| ==> sorted[k].count <= top[|top| - 1].count
  {
    SortDescSorted(stats);
    SortDescPerm(stats);
    var sorted := SortDesc(stats);
    var top := TopWords(stats);
    assert sorted == top + sorted[|top|..];
    assert multiset(sorted) == multiset(top) + multiset(sorted[|top|..]);
  }

  // ---------------------------------------------------------------------------
  // FormatFileSize
  // ---------------------------------------------------------------------------

  const Units: seq<string> := ["B", "KB", "MB", "GB", "TB"]

  function Pow1024(k: nat): (r: nat)
    ensures r >= 1
  {
    if k == 0 then 1 else 1024 * Pow1024(k - 1)
  }

  /** The unit index from `k` on: move up while another step of 1024 fits and a larger
      unit exists. */
  function UnitFrom(bytes: int, k: nat): (r: nat)
    requires k <= 4
    decreases 4 - k
  {
    if k < 4 && bytes >= Pow1024(k + 1) then UnitFrom(bytes, k + 1) else k
  }

  /** The unit FormatFileSize picks. */
  function UnitIndex(bytes: int): nat {
    UnitFrom(bytes, 0)
  }

  /** The unit is the largest k <= 4 with bytes >= 1024^k (B for anything below 1024,
      negative sizes included), and TB for everything from 1024^4 on. */
  lemma {:induction false} UnitIndexSpec(bytes: int)
    ensures UnitIndex(bytes) <= 4
    ensures UnitIndex(bytes) == 0 || bytes >= Pow1024(UnitIndex(bytes))
    ensures UnitIndex(bytes) < 4 ==> bytes < Pow1024(UnitIndex(bytes) + 1)
  {
    UnitFromSpec(bytes, 0);
  }

  lemma {:induction false} UnitFromSpec(bytes: int, k: nat)
    requires k <= 4 && (k == 0 || bytes >= Pow1024(k))
    ensures k <= UnitFrom(bytes, k) <= 4
    ensures UnitFrom(bytes, k) == 0 || bytes >= Pow1024(UnitFrom(bytes, k))
    ensures UnitFrom(bytes, k) < 4 ==> bytes < Pow1024(UnitFrom(bytes, k) + 1)
    decreases 4 - k
  {
    if k < 4 && bytes >= Pow1024(k + 1) {
      UnitFromSpec(bytes, k + 1);
    }
  }

  /** The boundaries of the unit choice. */
  lemma {:induction false} UnitExamples()
    ensures UnitIndex(1023) == 0 && UnitIndex(1024) == 1
    ensures UnitIndex(1048576) == 2 && UnitIndex(1099511627776) == 4
    ensures UnitIndex(1099511627776 * 1024) == 4
  {
    assert Pow1024(1) == 1024;
    assert Pow1024(2) == 1048576;
    assert Pow1024(3) == 1073741824;
    assert Pow1024(4) == 1099511627776;
  }

  /** The number and unit FormatFileSize prints (before rounding to two decimals). */
  datatype Size = Size(value: real, unit: string)

  /** The size in the unit UnitIndex picks. */
  function FormattedSize(bytes: int): Size {
    UnitIndexSpec(bytes);
    Size(bytes as real / Pow1024(UnitIndex(bytes)) as real, Units[UnitIndex(bytes)])
  }

  /** FormatFileSize: divide by 1024 while the value is at least 1024 and a larger unit
      exists. The value is exact; the `0.##` rounding is not modelled. The number shown
      is at least 1 (for a positive size) and below 1024 unless the unit is TB. */
  method FormatFileSize(bytes: int) returns (r: Size)
    ensures r == FormattedSize(bytes)
    ensures UnitIndex(bytes) > 0 ==> 1.0 <= r.value
    ensures UnitIndex(bytes) < 4 ==> r.value < 1024.0
  {
    UnitIndexSpec(bytes);
    var len: real := bytes as real;
    var order: nat := 0;
    while len >= 1024.0 && order < |Units| - 1
      invariant order <= 4
      invariant UnitFrom(bytes, order) == UnitIndex(bytes)
      invariant len * Pow1024(order) as real == bytes as real
      invariant order == 0 || bytes >= Pow1024(order)
      decreases 4 - order
    {
      StepUp(bytes, len, order);
      order := order + 1;
      len := len / 1024.0;
    }
    Settled(bytes, len, order);
    r := Size(len, Units[order]);
  }

  /** Dividing by 1024 moves to the next power of 1024. */
  lemma {:induction false} StepUp(bytes: int, len: real, order: nat)
    requires order < 4 && len >= 1024.0 && len * Pow1024(order) as real == bytes as real
    ensures bytes >= Pow1024(order + 1)
    ensures UnitFrom(bytes, order) == UnitFrom(bytes, order + 1)
    ensures (len / 1024.0) * Pow1024(order + 1) as real == bytes as real
  {
    var p := Pow1024(order) as real;
    assert Pow1024(order + 1) as real == 1024.0 * p;
    assert len * p >= 1024.0 * p;
  }

  /** When the loop stops, it stands at the unit UnitIndex picks. */
  lemma {:induction false} Settled(bytes: int, len: real, order: nat)
    requires order <= 4 && len * Pow1024(order) as real == bytes as real
    requires order == 0 || bytes >= Pow1024(order)
    requires !(len >= 1024.0 && order < 4)
    ensures UnitFrom(bytes, order) == order
    ensures len == bytes as real / Pow1024(order) as real
    ensures order > 0 ==> 1.0 <= len
    ensures order < 4 ==> len < 1024.0
  {
    var p := Pow1024(order) as real;
    assert len == bytes as real / p;
    if order < 4 {
      assert Pow1024(order + 1) as real == 1024.0 * p;
      assert len * p < 1024.0 * p;
    }
    if order > 0 {
      assert len * p >= 1.0 * p;
    }
  }

  // ---------------------------------------------------------------------------
  // The report
  // ---------------------------------------------------------------------------

  /** One "Файл #n" block: its number, path, size, replacement total and its words by
      descending count. */
  datatype FileBlock = FileBlock(number: nat, path: string, size: Size, replacements: nat, words: seq<Entry>)

  /** The block of the `n`-th result. */
  function Block(n: nat, result: FileScanResult): FileBlock {
    FileBlock(n, result.filePath, FormattedSize(result.fileSize), result.totalReplacements,
              SortDesc(result.wordCounts))
  }

  /** What the report states, without its text layout and timestamps. */
  datatype ReportData = ReportData(
    fileCount: nat,
    totalSize: Size,
    totalReplacements: nat,
    top: seq<Entry>,
    blocks: seq<FileBlock>)

  /** GenerateReportAsync up to the text it writes: the totals over all results, the
      top list of the word statistics, and one block per result, in result order,
      numbered from 1. */
  method GenerateReport(results: seq<FileScanResult>) returns (r: ReportData)
    ensures r.fileCount == |results|
    ensures r.totalSize == FormattedSize(TotalSize(results))
    ensures r.totalReplacements == TotalReplacements(results)
    ensures r.top == TopWords(StatsOf(results))
    ensures |r.blocks| == |results|
    ensures forall i :: 0 <= i < |results| ==> r.blocks[i] == Block(i + 1, results[i])
  {
    var totalSize := FormatFileSize(TotalSize(results));
    var stats := BuildWordStats(results);
    var blocks: seq<FileBlock> := [];
    var i := 0;
    while i < |results|
      invariant 0 <= i <= |results| && |blocks| == i
      invariant forall k :: 0 <= k < i ==> blocks[k] == Block(k + 1, results[k])
    {
      var size := FormatFileSize(results[i].fileSize);
      var block := FileBlock(i + 1, results[i].filePath, size, results[i].totalReplacements,
                             SortDesc(results[i].wordCounts));
      blocks := blocks + [block];
      i := i + 1;
    }
    r := ReportData(|results|, totalSize, TotalReplacements(results), TopWords(stats), blocks);
  }

  /** Each file block lists its words largest count first, every word of the file once. */
  lemma {:induction false} BlockWordsSorted(result: FileScanResult)
    ensures NonIncreasing(SortDesc(result.wordCounts))
    ensures multiset(SortDesc(result.wordCounts)) == multiset(result.wordCounts)
  {
    SortDescSpec(result.wordCounts);
  }
}
