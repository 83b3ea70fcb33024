/** String helpers shared by both applications: .NET's notion of white space,
    Trim, IsNullOrWhiteSpace, ordinal substring search, lower-casing and Split. */
module Text {

  /** char.IsWhiteSpace: the Unicode space separators, the line and paragraph
      separators, and the control characters U+0009..U+000D and U+0085. */
  predicate IsWhiteSpace(c: char) {
    c == ' ' || ('\t' <= c <= '\r') || c == '\U{85}' || c == '\U{A0}' || c == '\U{1680}'
    || ('\U{2000}' <= c <= '\U{200A}') || c == '\U{2028}' || c == '\U{2029}'
    || c == '\U{202F}' || c == '\U{205F}' || c == '\U{3000}'
  }

  /** string.IsNullOrWhiteSpace (strings are never null here). */
  predicate IsBlank(s: string) {
    forall i :: 0 <= i < |s| ==> IsWhiteSpace(s[i])
  }

  /** A string with no white space at either end. */
  predicate IsTrimmed(s: string) {
    s == [] || (!IsWhiteSpace(s[0]) && !IsWhiteSpace(s[|s| - 1]))
  }

  /** The suffix of `s` left after removing leading white space. */
  function TrimStart(s: string): (r: string)
    ensures |r| <= |s| && r == s[|s| - |r|..]
    ensures r == [] || !IsWhiteSpace(r[0])
    ensures forall i :: 0 <= i < |s| - |r| ==> IsWhiteSpace(s[i])
  {
    if s == [] || !IsWhiteSpace(s[0]) then s else TrimStart(s[1..])
  }

  /** The prefix of `s` left after removing trailing white space. */
  function TrimEnd(s: string): (r: string)
    ensures |r| <= |s| && r == s[..|r|]
    ensures r == [] || !IsWhiteSpace(r[|r| - 1])
    ensures forall i :: |r| <= i < |s| ==> IsWhiteSpace(s[i])
  {
    if s == [] || !IsWhiteSpace(s[|s| - 1]) then s else TrimEnd(s[..|s| - 1])
  }

  /** string.Trim(): the longest infix of `s` that neither starts nor ends with white space
      (TrimSpan states that only white space is cut, at both ends). */
  function Trim(s: string): (r: string)
    ensures IsTrimmed(r)
    ensures |r| <= |s|
    ensures r == [] <==> IsBlank(s)
  {
    var t := TrimStart(s);
    var r := TrimEnd(t);
    assert r == [] ==> t == [];
    r
  }

  /** Trim keeps the infix `s[a..a + |Trim(s)|]`, where `a` is the length of the leading
      white space, and cuts only white space after it. */
  lemma {:induction false} TrimSpan(s: string)
    ensures var a := |s| - |TrimStart(s)|; var r := Trim(s);
            a + |r| <= |s| && r == s[a..a + |r|] &&
            (forall i :: 0 <= i < a ==> IsWhiteSpace(s[i])) &&
            (forall i :: a + |r| <= i < |s| ==> IsWhiteSpace(s[i]))
  {
    var t := TrimStart(s);
    var r := TrimEnd(t);
    var a := |s| - |t|;
    assert r == Trim(s);
    SliceOfSuffix(s, a, |r|);
    forall i | a + |r| <= i < |s| ensures IsWhiteSpace(s[i]) {
      assert s[i] == t[i - a];
    }
  }

  /** A prefix of a suffix is a slice. */
  lemma {:induction false} SliceOfSuffix(s: string, a: nat, n: nat)
    requires a + n <= |s|
    ensures s[a..][..n] == s[a..a + n]
  {
  }

  lemma {:induction false} TrimOfTrimmed(s: string)
    requires IsTrimmed(s)
    ensures Trim(s) == s
  {
  }

  /** ASCII upper-case letters mapped to lower case; every other character unchanged. */
  function LowerChar(c: char): (r: char)
    ensures 'A' <= c <= 'Z' ==> 'a' <= r <= 'z'
    ensures !('A' <= c <= 'Z') ==> r == c
  {
    if 'A' <= c <= 'Z' then (c as int - 'A' as int + 'a' as int) as char else c
  }

  /** string.ToLower(), restricted to the ASCII letters. */
  function Lower(s: string): (r: string)
    ensures |r| == |s|
    ensures forall i :: 0 <= i < |s| ==> r[i] == LowerChar(s[i])
  {
    if s == [] then [] else [LowerChar(s[0])] + Lower(s[1..])
  }

  /** `p` is a prefix of `s`. */
  predicate StartsWith(s: string, p: string) {
    |p| <= |s| && s[..|p|] == p
  }

  /** `pat` occurs in `text` starting at index `i`. */
  predicate OccursAt(text: string, pat: string, i: int) {
    0 <= i && i + |pat| <= |text| && text[i..i + |pat|] == pat
  }

  /** string.Contains(string): ordinal substring search. */
  function Contains(text: string, pat: string): (r: bool)
    ensures r <==> exists i :: OccursAt(text, pat, i)
    decreases |text|
  {
    if StartsWith(text, pat) then
      assert OccursAt(text, pat, 0);
      true
    else if text == [] then
      false
    else
      var r := Contains(text[1..], pat);
      assert r ==> exists i :: OccursAt(text, pat, i) by {
        if r {
          var i :| OccursAt(text[1..], pat, i);
          assert text[i + 1..i + 1 + |pat|] == text[1..][i..i + |pat|];
          assert OccursAt(text, pat, i + 1);
        }
      }
      assert (exists i :: OccursAt(text, pat, i)) ==> r by {
        if exists i :: OccursAt(text, pat, i) {
          var i :| OccursAt(text, pat, i);
          assert i != 0;
          assert text[1..][i - 1..i - 1 + |pat|] == text[i..i + |pat|];
          assert OccursAt(text[1..], pat, i - 1);
        }
      }
      r
  }

  /** A non-empty pattern whose first character never appears in `text` does not occur in it. */
  lemma {:induction false} NotContainedWithoutFirstChar(text: string, pat: string)
    requires pat != [] && pat[0] !in text
    ensures !Contains(text, pat)
  {
    forall i ensures !OccursAt(text, pat, i) {
      if 0 <= i && i + |pat| <= |text| {
        assert text[i..i + |pat|][0] == text[i];
      }
    }
  }

  /** `t` occurs inside `text` whenever `text` has it as a prefix shifted by `pre`. */
  lemma {:induction false} ContainsInfix(pre: string, pat: string, post: string)
    ensures Contains(pre + pat + post, pat)
  {
    var text := pre + pat + post;
    assert text[|pre|..|pre| + |pat|] == pat;
    assert OccursAt(text, pat, |pre|);
  }

  /** Every string contains its own prefixes. */
  lemma {:induction false} ContainsAtStart(pat: string, post: string)
    ensures Contains(pat + post, pat)
  {
    ContainsInfix([], pat, post);
    assert [] + pat + post == pat + post;
  }

  /** Number of occurrences of `c` in `s`. */
  function Occurrences(s: string, c: char): nat {
    if s == [] then 0 else (if s[0] == c then 1 else 0) + Occurrences(s[1..], c)
  }

  /** string.Split(c): the pieces between the occurrences of `c`, empty pieces included. */
  function Split(s: string, c: char): (r: seq<string>)
    ensures |r| >= 1
    decreases |s|
  {
    if s == [] then [""]
    else if s[0] == c then [""] + Split(s[1..], c)
    else
      var t := Split(s[1..], c);
      [[s[0]] + t[0]] + t[1..]
  }

  /** string.Join(c, pieces). */
  function Join(pieces: seq<string>, c: char): string
    requires |pieces| >= 1
  {
    if |pieces| == 1 then pieces[0] else pieces[0] + [c] + Join(pieces[1..], c)
  }

  /** Split cuts at every separator and nowhere else: joining the pieces back gives the
      input, no piece holds the separator, and there is one piece more than separators. */
  lemma {:induction false} SplitJoin(s: string, c: char)
    ensures Join(Split(s, c), c) == s
    ensures |Split(s, c)| == Occurrences(s, c) + 1
    ensures forall k :: 0 <= k < |Split(s, c)| ==> c !in Split(s, c)[k]
    decreases |s|
  {
    if s == [] {
    } else if s[0] == c {
      SplitJoin(s[1..], c);
      assert s == [c] + s[1..];
      assert Split(s, c)[1..] == Split(s[1..], c);
    } else {
      SplitJoin(s[1..], c);
      var t := Split(s[1..], c);
      var r := Split(s, c);
      assert r[1..] == t[1..];
      if |t| == 1 {
        assert Join(r, c) == [s[0]] + t[0] == s;
      } else {
        assert Join(r, c) == [s[0]] + t[0] + [c] + Join(t[1..], c);
        assert Join(t, c) == t[0] + [c] + Join(t[1..], c);
        assert Join(r, c) == [s[0]] + Join(t, c);
        assert s == [s[0]] + s[1..];
      }
      forall k | 0 <= k < |r| ensures c !in r[k] {
        if k == 0 { assert r[0] == [s[0]] + t[0]; } else { assert r[k] == t[k]; }
      }
    }
  }

  /** The lines of `text`: Split on "\r\n", "\n" and "\r" with empty entries removed
      yields the non-empty pieces between line-break characters, which is what
      CleanLines keeps of this after blank pieces are dropped. */
  function LineBreaksAsNewLines(text: string): (r: string)
    ensures |r| == |text|
    ensures '\r' !in r
    ensures forall i :: 0 <= i < |text| && text[i] != '\r' ==> r[i] == text[i]
  {
    if text == [] then []
    else [if text[0] == '\r' then '\n' else text[0]] + LineBreaksAsNewLines(text[1..])
  }

  function SplitLines(text: string): seq<string> {
    Split(LineBreaksAsNewLines(text), '\n')
  }

  /** `.Where(l => !IsNullOrWhiteSpace(l)).Select(l => l.Trim())`. */
  function CleanLines(lines: seq<string>): (r: seq<string>)
    ensures |r| <= |lines|
    ensures forall k :: 0 <= k < |r| ==> r[k] != [] && IsTrimmed(r[k])
  {
    if lines == [] then [] else CleanLine(lines[0]) + CleanLines(lines[1..])
  }

  /** What CleanLines keeps of one line. */
  function CleanLine(l: string): (r: seq<string>)
    ensures |r| <= 1
    ensures forall k :: 0 <= k < |r| ==> r[k] != [] && IsTrimmed(r[k])
  {
    if IsBlank(l) then [] else [Trim(l)]
  }

  /** CleanLines works line by line: it distributes over concatenation and keeps the
      input order. */
  lemma {:induction false} CleanLinesAppend(a: seq<string>, b: seq<string>)
    ensures CleanLines(a + b) == CleanLines(a) + CleanLines(b)
  {
    if a == [] {
      assert a + b == b;
    } else {
      assert (a + b)[0] == a[0];
      assert (a + b)[1..] == a[1..] + b;
      CleanLinesAppend(a[1..], b);
    }
  }

  /** A trimmed, non-blank line is kept as it is; a blank line is dropped. */
  lemma {:induction false} CleanLinesSingle(l: string)
    ensures IsBlank(l) ==> CleanLines([l]) == []
    ensures !IsBlank(l) ==> CleanLines([l]) == [Trim(l)]
  {
    assert [l][1..] == [];
  }

  /** Lines that are already clean pass through unchanged. */
  lemma {:induction false} CleanLinesOfClean(lines: seq<string>)
    requires forall k :: 0 <= k < |lines| ==> lines[k] != [] && IsTrimmed(lines[k])
    ensures CleanLines(lines) == lines
  {
    if lines != [] {
      assert !IsBlank(lines[0]) by { assert !IsWhiteSpace(lines[0][0]); }
      TrimOfTrimmed(lines[0]);
      CleanLinesOfClean(lines[1..]);
    }
  }

  /** A list typed one item per line, as both windows read it: split on "\r\n", "\n" and
      "\r" with empty entries removed, each piece trimmed, blank pieces dropped. */
  function ParseList(text: string): seq<string> {
    CleanLines(SplitLines(text))
  }

  /** What loading a list from a file puts in a text box: the cleaned lines joined with
      Environment.NewLine ("\r\n"). */
  function JoinLines(words: seq<string>): string {
    if words == [] then []
    else if |words| == 1 then words[0]
    else words[0] + "\r\n" + JoinLines(words[1..])
  }

  /** Line breaks are rewritten character by character. */
  lemma {:induction false} LineBreaksAppend(a: string, b: string)
    ensures LineBreaksAsNewLines(a + b) == LineBreaksAsNewLines(a) + LineBreaksAsNewLines(b)
    decreases |a|
  {
    if a == [] {
      assert a + b == b;
    } else {
      assert (a + b)[1..] == a[1..] + b && (a + b)[0] == a[0];
      LineBreaksAppend(a[1..], b);
    }
  }

  /** Splitting at a separator splits the pieces on either side of it independently. */
  lemma {:induction false} SplitAppend(a: string, b: string, c: char)
    ensures Split(a + [c] + b, c) == Split(a, c) + Split(b, c)
    decreases |a|
  {
    if a == [] {
      assert a + [c] + b == [c] + b;
      assert ([c] + b)[1..] == b;
    } else {
      var rest := a[1..] + [c] + b;
      assert (a + [c] + b)[1..] == rest && (a + [c] + b)[0] == a[0];
      SplitAppend(a[1..], b, c);
    }
  }

  /** A string without the separator is one piece. */
  lemma {:induction false} SplitWithoutSeparator(s: string, c: char)
    requires c !in s
    ensures Split(s, c) == [s]
    decreases |s|
  {
    if s != [] {
      SplitWithoutSeparator(s[1..], c);
      assert s == [s[0]] + s[1..];
    }
  }

  /** The words of two pieces of text joined by a line break are the words of the first
      followed by the words of the second. */
  lemma {:induction false} ParseListAppend(a: string, b: string)
    ensures ParseList(a + "\n" + b) == ParseList(a) + ParseList(b)
  {
    LineBreaksAppend(a + "\n", b);
    LineBreaksAppend(a, "\n");
    assert LineBreaksAsNewLines("\n") == "\n";
    SplitAppend(LineBreaksAsNewLines(a), LineBreaksAsNewLines(b), '\n');
    CleanLinesAppend(SplitLines(a), SplitLines(b));
  }

  /** A clean word on its own line, and on a line followed by '\r', reads back as itself. */
  lemma {:induction false} ParseOneWord(w: string)
    requires w != [] && IsTrimmed(w) && '\r' !in w && '\n' !in w
    ensures ParseList(w) == [w]
    ensures ParseList(w + "\r") == [w]
  {
    assert LineBreaksAsNewLines(w) == w;
    SplitWithoutSeparator(w, '\n');
    assert !IsBlank(w) by { assert !IsWhiteSpace(w[0]); }
    CleanLinesSingle(w);
    TrimOfTrimmed(w);
    LineBreaksAppend(w, "\r");
    assert LineBreaksAsNewLines("\r") == "\n";
    SplitAppend(w, [], '\n');
    assert w + "\n" == w + ['\n'] + [];
    assert Split([], '\n') == [""];
    CleanLinesAppend([w], [""]);
    CleanLinesSingle("");
  }

  /** Items loaded from a file into a text box read back unchanged. */
  lemma {:induction false} LoadedListRoundTrip(words: seq<string>)
    requires forall k :: 0 <= k < |words| ==>
               words[k] != [] && IsTrimmed(words[k]) && '\r' !in words[k] && '\n' !in words[k]
    ensures ParseList(JoinLines(words)) == words
  {
    if words == [] {
      assert Split([], '\n') == [""];
      CleanLinesSingle("");
    } else if |words| == 1 {
      ParseOneWord(words[0]);
    } else {
      var rest := words[1..];
      assert forall k :: 0 <= k < |rest| ==> rest[k] == words[k + 1];
      LoadedListRoundTrip(rest);
      RoundTripStep(words[0], rest);
      assert words == [words[0]] + rest;
    }
  }

  /** One more clean word in front of a list that reads back. */
  lemma {:induction false} RoundTripStep(w: string, rest: seq<string>)
    requires w != [] && IsTrimmed(w) && '\r' !in w && '\n' !in w
    requires rest != [] && ParseList(JoinLines(rest)) == rest
    ensures ParseList(JoinLines([w] + rest)) == [w] + rest
  {
    ParseOneWord(w);
    assert ([w] + rest)[1..] == rest;
    assert JoinLines([w] + rest) == (w + "\r") + "\n" + JoinLines(rest);
    ParseListAppend(w + "\r", JoinLines(rest));
  }

  /** `n` in decimal, as Int32.ToString() prints a non-negative value. */
  function Decimal(n: nat): (r: string)
    ensures r != []
    ensures forall i :: 0 <= i < |r| ==> '0' <= r[i] <= '9'
  {
    if n < 10 then [('0' as int + n) as char] else Decimal(n / 10) + [('0' as int + n % 10) as char]
  }

  /** The number a string of decimal digits denotes. */
  function DigitsValue(s: string): nat
    requires forall i :: 0 <= i < |s| ==> '0' <= s[i] <= '9'
  {
    if s == [] then 0 else DigitsValue(s[..|s| - 1]) * 10 + (s[|s| - 1] as int - '0' as int)
  }

  /** Decimal is read back by DigitsValue, so distinct numbers print differently. */
  lemma {:induction false} DecimalValue(n: nat)
    ensures DigitsValue(Decimal(n)) == n
  {
    var r := Decimal(n);
    if n >= 10 {
      DecimalValue(n / 10);
      assert r[..|r| - 1] == Decimal(n / 10);
    }
  }
}
