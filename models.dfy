/** The scan result record and the insertion-ordered dictionary of word counts it holds. */
module Models {
  import opened Wrappers
  import opened Lists

  /** One key/value pair of a Dictionary<string, int>. */
  datatype Entry = Entry(word: string, count: nat)

  /** A Dictionary<string, int> with no removals: its pairs in insertion order, which is
      also the order in which the dictionary enumerates them. */
  type Counts = seq<Entry>

  function Keys(m: Counts): (r: seq<string>)
    ensures |r| == |m|
    ensures forall i :: 0 <= i < |m| ==> r[i] == m[i].word
  {
    if m == [] then [] else [m[0].word] + Keys(m[1..])
  }

  /** The dictionary invariant: no key is stored twice. */
  predicate WellFormed(m: Counts) {
    NoDuplicates(Keys(m))
  }

  /** `d[k]`, or None when `k` is not a key. */
  function Lookup(m: Counts, k: string): Option<nat> {
    if m == [] then None
    else if m[0].word == k then Some(m[0].count)
    else Lookup(m[1..], k)
  }

  /** A key has a value exactly when it is stored. */
  lemma {:induction false} LookupSome(m: Counts, k: string)
    ensures Lookup(m, k).Some? <==> k in Keys(m)
  {
    if m != [] && m[0].word != k {
      LookupSome(m[1..], k);
      assert Keys(m) == [m[0].word] + Keys(m[1..]);
    }
  }

  /** The value stored under `k`, or 0 when there is none. */
  function CountOf(m: Counts, k: string): nat {
    Lookup(m, k).GetOr(0)
  }

  /** The indexer assignment `d[k] = v`: an existing key keeps its place and takes the
      new value, a new key goes at the end. */
  function Put(m: Counts, k: string, v: nat): Counts {
    if m == [] then [Entry(k, v)]
    else if m[0].word == k then [Entry(k, v)] + m[1..]
    else [m[0]] + Put(m[1..], k, v)
  }

  /** A pair in front of a dictionary keeps it well formed exactly when its key is new. */
  lemma {:induction false} WellFormedCons(e: Entry, m: Counts)
    ensures WellFormed([e] + m) <==> e.word !in Keys(m) && WellFormed(m)
  {
    var ks := Keys([e] + m);
    assert ([e] + m)[1..] == m;
    assert ks == [e.word] + Keys(m);
    if WellFormed([e] + m) {
      forall i, j | 0 <= i < j < |Keys(m)| ensures Keys(m)[i] != Keys(m)[j] {
        assert ks[i + 1] != ks[j + 1];
      }
    }
  }

  /** Put behaves as a dictionary update: the key maps to the new value and the other
      keys keep theirs. */
  lemma {:induction false} PutLookup(m: Counts, k: string, v: nat)
    ensures Lookup(Put(m, k, v), k) == Some(v)
    ensures forall j :: j != k ==> Lookup(Put(m, k, v), j) == Lookup(m, j)
  {
    if m != [] && m[0].word != k {
      PutLookup(m[1..], k, v);
      assert ([m[0]] + Put(m[1..], k, v))[1..] == Put(m[1..], k, v);
    } else if m != [] {
      assert ([Entry(k, v)] + m[1..])[1..] == m[1..];
    }
  }

  /** Put keeps a dictionary free of duplicate keys. */
  lemma {:induction false} PutWellFormed(m: Counts, k: string, v: nat)
    requires WellFormed(m)
    ensures WellFormed(Put(m, k, v))
  {
    PutKeys(m, k, v);
  }

  /** An existing key is overwritten where it stands; a new key is appended. */
  lemma {:induction false} PutShape(m: Counts, k: string, v: nat)
    ensures k in Keys(m) ==> Keys(Put(m, k, v)) == Keys(m)
    ensures k !in Keys(m) ==> Put(m, k, v) == m + [Entry(k, v)]
  {
    if m != [] && m[0].word != k {
      PutShape(m[1..], k, v);
      assert Keys(m) == [m[0].word] + Keys(m[1..]);
      assert Keys([m[0]] + Put(m[1..], k, v)) == [m[0].word] + Keys(Put(m[1..], k, v));
      assert m == [m[0]] + m[1..];
    } else if m != [] {
      assert Keys([Entry(k, v)] + m[1..]) == [k] + Keys(m[1..]);
      assert Keys(m) == [m[0].word] + Keys(m[1..]);
    }
  }

  /** Put adds a key at the end of the key list when the key is new, and leaves the
      key list as it is otherwise. */
  lemma {:induction false} PutKeys(m: Counts, k: string, v: nat)
    ensures Keys(Put(m, k, v)) == if k in Keys(m) then Keys(m) else Keys(m) + [k]
  {
    PutShape(m, k, v);
    if k !in Keys(m) {
      assert Keys(m + [Entry(k, v)]) == Keys(m) + [k];
    }
  }

  lemma {:induction false} PutSpec(m: Counts, k: string, v: nat)
    requires WellFormed(m)
    ensures WellFormed(Put(m, k, v))
    ensures Lookup(Put(m, k, v), k) == Some(v)
    ensures forall j :: j != k ==> Lookup(Put(m, k, v), j) == Lookup(m, j)
  {
    PutLookup(m, k, v);
    PutWellFormed(m, k, v);
  }

  /** The sum of all stored values. */
  function SumCounts(m: Counts): nat {
    if m == [] then 0 else m[0].count + SumCounts(m[1..])
  }

  lemma {:induction false} SumCountsAppend(a: Counts, b: Counts)
    ensures SumCounts(a + b) == SumCounts(a) + SumCounts(b)
  {
    if a == [] {
      assert a + b == b;
    } else {
      assert (a + b)[0] == a[0];
      assert (a + b)[1..] == a[1..] + b;
      SumCountsAppend(a[1..], b);
    }
  }

  /** FileScanResult: one file in which at least one forbidden word was found.
      `scanTime` stands for the DateTime taken when the record is created. */
  datatype FileScanResult = FileScanResult(
    filePath: string,
    fileSize: nat,
    wordCounts: Counts,
    totalReplacements: nat,
    scanTime: int)
}
