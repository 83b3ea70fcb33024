/** The pattern `\b` + Regex.Escape(word) + `\b` under RegexOptions.IgnoreCase:
    leftmost, non-overlapping, whole-word matches of a literal word, and Regex.Replace
    of those matches by a fixed mask. */
module WordMatch {

  /** What the regex engine is told about characters: which ones `\w` matches, and the
      case folding under which IgnoreCase compares two characters. */
  datatype Chars = Chars(isWord: char -> bool, fold: char -> char)

  /** The replacement text for every match, whatever the length of the word. */
  const Mask: string := "*******"

  /** Position `i` of `s` holds a word character (outside `s` there are none). */
  predicate WordAt(cc: Chars, s: string, i: int) {
    0 <= i < |s| && cc.isWord(s[i])
  }

  /** `\b` holds between positions i - 1 and i: exactly one of them is a word character. */
  predicate Boundary(cc: Chars, s: string, i: int) {
    WordAt(cc, s, i - 1) != WordAt(cc, s, i)
  }

  /** The characters of `s` from `i` on spell `w`, ignoring case. */
  predicate SpellsAt(cc: Chars, s: string, w: string, i: nat) {
    i + |w| <= |s| && forall k :: 0 <= k < |w| ==> cc.fold(s[i + k]) == cc.fold(w[k])
  }

  /** The pattern matches `s` at index `i`. */
  predicate MatchesAt(cc: Chars, s: string, w: string, i: nat) {
    SpellsAt(cc, s, w, i) && Boundary(cc, s, i) && Boundary(cc, s, i + |w|)
  }

  /** Index `q` lies inside one of the matches listed in `ps`. */
  predicate Covered(ps: seq<nat>, n: nat, q: nat) {
    exists k :: 0 <= k < |ps| && ps[k] <= q < ps[k] + n
  }

  /** Regex.Matches from index `from`: the start of each match, found left to right, the
      search resuming after the end of the previous match. */
  function Matches(cc: Chars, s: string, w: string, from: nat): seq<nat>
    requires |w| > 0
    decreases |s| - from
  {
    if from + |w| > |s| then []
    else if MatchesAt(cc, s, w, from) then [from] + Matches(cc, s, w, from + |w|)
    else Matches(cc, s, w, from + 1)
  }

  /** The matches are listed left to right, do not overlap and lie inside `s`. */
  lemma {:induction false} MatchesSpaced(cc: Chars, s: string, w: string, from: nat)
    requires |w| > 0 && from <= |s|
    ensures Spaced(s, Matches(cc, s, w, from), |w|, from)
    decreases |s| - from
  {
    if from + |w| > |s| {
    } else if MatchesAt(cc, s, w, from) {
      MatchesSpaced(cc, s, w, from + |w|);
    } else {
      MatchesSpaced(cc, s, w, from + 1);
    }
  }

  /** Every index Matches reports is a match. */
  lemma {:induction false} MatchesSound(cc: Chars, s: string, w: string, from: nat)
    requires |w| > 0
    ensures forall p :: p in Matches(cc, s, w, from) ==> MatchesAt(cc, s, w, p)
    decreases |s| - from
  {
    if from + |w| > |s| {
    } else if MatchesAt(cc, s, w, from) {
      MatchesSound(cc, s, w, from + |w|);
    } else {
      MatchesSound(cc, s, w, from + 1);
    }
  }

  /** No match is missed: every match at or after `from` is reported or lies inside a
      match reported before it. */
  lemma {:induction false} MatchesComplete(cc: Chars, s: string, w: string, from: nat, q: nat)
    requires |w| > 0 && from <= q && MatchesAt(cc, s, w, q)
    ensures Covered(Matches(cc, s, w, from), |w|, q)
    decreases |s| - from
  {
    var r := Matches(cc, s, w, from);
    if from + |w| > |s| {
      assert false;
    } else if MatchesAt(cc, s, w, from) {
      if q < from + |w| {
        assert r[0] <= q < r[0] + |w|;
      } else {
        MatchesComplete(cc, s, w, from + |w|, q);
        var rest := Matches(cc, s, w, from + |w|);
        var k :| 0 <= k < |rest| && rest[k] <= q < rest[k] + |w|;
        assert r[k + 1] == rest[k];
      }
    } else {
      assert q != from;
      MatchesComplete(cc, s, w, from + 1, q);
    }
  }

  /** `matches.Count`: the number of matches of the word in `s`. */
  function Count(cc: Chars, s: string, w: string): nat
    requires |w| > 0
  {
    |Matches(cc, s, w, 0)|
  }

  /** Regex.Replace(s, pattern, Mask) from index `from`: every match replaced by the mask. */
  function Redact(cc: Chars, s: string, w: string, from: nat): string
    requires |w| > 0 && from <= |s|
    decreases |s| - from
  {
    if from + |w| > |s| then s[from..]
    else if MatchesAt(cc, s, w, from) then Mask + Redact(cc, s, w, from + |w|)
    else [s[from]] + Redact(cc, s, w, from + 1)
  }

  /** The match starts `ps` are increasing, `n` apart at least, and lie in `s` from `from` on. */
  predicate Spaced(s: string, ps: seq<nat>, n: nat, from: nat)
    decreases |ps|
  {
    from <= |s| &&
    (ps != [] ==> from <= ps[0] && ps[0] + n <= |s| && Spaced(s, ps[1..], n, ps[0] + n))
  }

  /** `s` from `from` on with each stretch [p, p + n) for p in `ps` replaced by the mask. */
  function Splice(s: string, ps: seq<nat>, n: nat, from: nat): string
    requires Spaced(s, ps, n, from)
    decreases |ps|
  {
    if ps == [] then s[from..]
    else s[from..ps[0]] + Mask + Splice(s, ps[1..], n, ps[0] + n)
  }

  /** Replace rewrites exactly the matches that Matches finds: each becomes the mask and
      every character outside them is kept. */
  lemma {:induction false} RedactIsSplice(cc: Chars, s: string, w: string, from: nat)
    requires |w| > 0 && from <= |s|
    ensures Spaced(s, Matches(cc, s, w, from), |w|, from)
    ensures Redact(cc, s, w, from) == Splice(s, Matches(cc, s, w, from), |w|, from)
    decreases |s| - from
  {
    MatchesSpaced(cc, s, w, from);
    if from + |w| > |s| {
    } else if MatchesAt(cc, s, w, from) {
      RedactIsSplice(cc, s, w, from + |w|);
      var ps := Matches(cc, s, w, from);
      assert ps[1..] == Matches(cc, s, w, from + |w|);
      assert s[from..ps[0]] == [];
    } else {
      RedactIsSplice(cc, s, w, from + 1);
      SpliceSkip(s, Matches(cc, s, w, from + 1), |w|, from);
    }
  }

  /** A character in front of the first masked stretch is kept. */
  lemma {:induction false} SpliceSkip(s: string, ps: seq<nat>, n: nat, from: nat)
    requires from < |s| && Spaced(s, ps, n, from + 1)
    ensures Spaced(s, ps, n, from)
    ensures Splice(s, ps, n, from) == [s[from]] + Splice(s, ps, n, from + 1)
  {
    if ps == [] {
      assert s[from..] == [s[from]] + s[from + 1..];
    } else {
      assert s[from..ps[0]] == [s[from]] + s[from + 1..ps[0]];
    }
  }

  /** A word that does not match leaves the text as it is. */
  lemma {:induction false} RedactWithoutMatches(cc: Chars, s: string, w: string)
    requires |w| > 0 && Count(cc, s, w) == 0
    ensures Redact(cc, s, w, 0) == s
  {
    RedactIsSplice(cc, s, w, 0);
  }

  /** Each match of `n` characters becomes seven: the length changes by 7 - n per match. */
  lemma {:induction false} SpliceLength(s: string, ps: seq<nat>, n: nat, from: nat)
    requires Spaced(s, ps, n, from)
    ensures |Splice(s, ps, n, from)| == |s| - from + |ps| * (|Mask| - n)
    decreases |ps|
  {
    if ps != [] {
      SpliceLength(s, ps[1..], n, ps[0] + n);
      assert |ps| * (|Mask| - n) == (|ps| - 1) * (|Mask| - n) + (|Mask| - n);
    }
  }

  /** The redacted text has |s| + Count * (7 - |w|) characters. */
  lemma {:induction false} RedactLength(cc: Chars, s: string, w: string)
    requires |w| > 0
    ensures |Redact(cc, s, w, 0)| == |s| + Count(cc, s, w) * (|Mask| - |w|)
  {
    RedactIsSplice(cc, s, w, 0);
    SpliceLength(s, Matches(cc, s, w, 0), |w|, 0);
  }
}
