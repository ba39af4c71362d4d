/**
 * Python `str` operations the scorer relies on, on `seq<char>`.
 * Case mapping is ASCII only; whitespace is the set Python's `str.isspace`
 * (and the regular-expression class `\s`) accepts.
 */
module Strings {

  /** Python `str.isspace` for one character. */
  predicate IsSpace(c: char) {
    c == ' ' || c == '\t' || c == '\n' || c == '\r' || c == '\U{000B}' || c == '\U{000C}'
    || ('\U{001C}' <= c <= '\U{001F}') || c == '\U{0085}' || c == '\U{00A0}' || c == '\U{1680}'
    || ('\U{2000}' <= c <= '\U{200A}') || c == '\U{2028}' || c == '\U{2029}' || c == '\U{202F}'
    || c == '\U{205F}' || c == '\U{3000}'
  }

  /** The line boundaries of Python `str.splitlines` ("\r\n" is one boundary, handled there). */
  predicate IsLineBreak(c: char) {
    c == '\n' || c == '\r' || c == '\U{000B}' || c == '\U{000C}' || ('\U{001C}' <= c <= '\U{001E}')
    || c == '\U{0085}' || c == '\U{2028}' || c == '\U{2029}'
  }

  predicate IsUpperChar(c: char) { 'A' <= c <= 'Z' }
  predicate IsLowerChar(c: char) { 'a' <= c <= 'z' }
  predicate IsDigit(c: char) { '0' <= c <= '9' }

  /** Regular-expression `\w` on ASCII. */
  predicate IsWordChar(c: char) { IsUpperChar(c) || IsLowerChar(c) || IsDigit(c) || c == '_' }

  function LowerChar(c: char): (r: char)
    ensures !IsUpperChar(r)
    ensures IsUpperChar(c) || r == c
    ensures IsSpace(r) <==> IsSpace(c)
    ensures IsLowerChar(r) <==> IsLowerChar(c) || IsUpperChar(c)
  {
    if IsUpperChar(c) then (c as int + 32) as char else c
  }

  /** Python `str.lower`, ASCII letters only. */
  function Lower(s: string): (r: string)
    ensures |r| == |s|
    ensures forall i :: 0 <= i < |s| ==> r[i] == LowerChar(s[i])
  {
    seq(|s|, i requires 0 <= i < |s| => LowerChar(s[i]))
  }

  predicate HasNoUpper(s: string) {
    forall i :: 0 <= i < |s| ==> !IsUpperChar(s[i])
  }

  lemma LowerHasNoUpper(s: string)
    ensures HasNoUpper(Lower(s))
  {
  }

  lemma LowerAppend(a: string, b: string)
    ensures Lower(a + b) == Lower(a) + Lower(b)
  {
    assert forall i :: 0 <= i < |a + b| ==> Lower(a + b)[i] == (Lower(a) + Lower(b))[i];
  }

  lemma LowerIdempotent(s: string)
    ensures Lower(Lower(s)) == Lower(s)
  {
    assert forall i :: 0 <= i < |s| ==> Lower(Lower(s))[i] == Lower(s)[i];
  }

  /** Python `str.isupper`: some cased character, and no lower-case one (ASCII letters). */
  predicate IsUpperText(s: string) {
    (exists i | 0 <= i < |s| :: IsUpperChar(s[i])) && forall i | 0 <= i < |s| :: !IsLowerChar(s[i])
  }

  predicate StartsWith(s: string, p: string) {
    |p| <= |s| && s[..|p|] == p
  }

  predicate EndsWith(s: string, p: string) {
    |p| <= |s| && s[|s| - |p|..] == p
  }

  predicate OccursAt(s: string, p: string, i: int) {
    0 <= i && i + |p| <= |s| && s[i..i + |p|] == p
  }

  /** Python's `p in s`. */
  predicate Contains(s: string, p: string) {
    exists i | 0 <= i <= |s| - |p| :: OccursAt(s, p, i)
  }

  predicate HasChar(s: string, c: char) {
    exists i | 0 <= i < |s| :: s[i] == c
  }

  lemma ContainsInLonger(s: string, t: string, u: string, p: string)
    requires Contains(t, p)
    ensures Contains(s + t + u, p)
  {
    var i :| 0 <= i <= |t| - |p| && OccursAt(t, p, i);
    assert (s + t + u)[|s| + i..|s| + i + |p|] == t[i..i + |p|];
    assert OccursAt(s + t + u, p, |s| + i);
  }

  lemma ContainsSelf(s: string)
    ensures Contains(s, s)
  {
    assert OccursAt(s, s, 0);
  }

  lemma StartsWithContains(s: string, p: string)
    requires StartsWith(s, p)
    ensures Contains(s, p)
  {
    assert OccursAt(s, p, 0);
  }

  lemma ConcatAssoc(a: string, b: string, c: string)
    ensures a + b + c == a + (b + c)
  {
  }

  // ---------------------------------------------------------------- strip

  /** Number of leading whitespace characters. */
  function LeadSpaces(s: string): (k: nat)
    ensures k <= |s|
    ensures forall i :: 0 <= i < k ==> IsSpace(s[i])
    ensures k < |s| ==> !IsSpace(s[k])
  {
    if |s| > 0 && IsSpace(s[0]) then 1 + LeadSpaces(s[1..]) else 0
  }

  /** Number of trailing whitespace characters. */
  function TrailSpaces(s: string): (k: nat)
    ensures k <= |s|
    ensures forall i :: |s| - k <= i < |s| ==> IsSpace(s[i])
    ensures k < |s| ==> !IsSpace(s[|s| - 1 - k])
  {
    if |s| > 0 && IsSpace(s[|s| - 1]) then 1 + TrailSpaces(s[..|s| - 1]) else 0
  }

  function TrimStart(s: string): (r: string)
    ensures r == s[LeadSpaces(s)..]
    ensures |r| > 0 ==> !IsSpace(r[0])
  {
    s[LeadSpaces(s)..]
  }

  function TrimEnd(s: string): (r: string)
    ensures r == s[..|s| - TrailSpaces(s)]
    ensures |r| > 0 ==> !IsSpace(r[|r| - 1])
  {
    s[..|s| - TrailSpaces(s)]
  }

  /** No whitespace at either end. */
  predicate IsStripped(s: string) {
    |s| == 0 || (!IsSpace(s[0]) && !IsSpace(s[|s| - 1]))
  }

  /** Python `str.strip()`: the text between the first and the last non-space character. */
  function Strip(s: string): (r: string)
    ensures IsStripped(r)
    ensures LeadSpaces(s) + |r| <= |s|
    ensures r == s[LeadSpaces(s)..LeadSpaces(s) + |r|]
    ensures forall k :: LeadSpaces(s) + |r| <= k < |s| ==> IsSpace(s[k])
    ensures IsStripped(s) ==> r == s
  {
    var t := TrimStart(s);
    SpaceRunsCut(s, LeadSpaces(s), t, TrailSpaces(t));
    assert IsStripped(s) ==> LeadSpaces(s) == 0 && t == s && TrailSpaces(t) == 0;
    TrimEnd(t)
  }

  /** Cutting leading whitespace and then trailing whitespace leaves a stripped slice of `s`. */
  lemma SpaceRunsCut(s: string, a: nat, t: string, b: nat)
    requires a <= |s| && t == s[a..] && b <= |t|
    requires a < |s| ==> !IsSpace(s[a])
    requires forall i :: |t| - b <= i < |t| ==> IsSpace(t[i])
    requires b < |t| ==> !IsSpace(t[|t| - 1 - b])
    ensures var r := t[..|t| - b];
      && a + |r| <= |s| && r == s[a..a + |r|]
      && (forall k :: a + |r| <= k < |s| ==> IsSpace(s[k]))
      && IsStripped(r)
  {
    var r := t[..|t| - b];
    assert r == s[a..a + |r|];
    assert forall k :: a + |r| <= k < |s| ==> s[k] == t[k - a];
    assert |r| > 0 ==> r[0] == t[0];
  }

  lemma StripAllSpace(s: string)
    requires forall i :: 0 <= i < |s| ==> IsSpace(s[i])
    ensures Strip(s) == ""
  {
  }

  lemma StripEmptyIffAllSpace(s: string)
    ensures Strip(s) == "" <==> forall i :: 0 <= i < |s| ==> IsSpace(s[i])
  {
    var k := LeadSpaces(s);
    if k < |s| {
      var t := TrimStart(s);
      assert !IsSpace(t[0]);
      assert |Strip(s)| > 0 by {
        assert TrailSpaces(t) < |t|;
      }
    }
  }

  /** Length of the leading run of `c` in `s`. */
  function LeadRun(s: string, c: char): (k: nat)
    ensures k <= |s|
    ensures forall i :: 0 <= i < k ==> s[i] == c
    ensures k < |s| ==> s[k] != c
  {
    if |s| > 0 && s[0] == c then 1 + LeadRun(s[1..], c) else 0
  }

  /** Length of the trailing run of `c` in `s`. */
  function TrailRun(s: string, c: char): (k: nat)
    ensures k <= |s|
    ensures forall i :: |s| - k <= i < |s| ==> s[i] == c
    ensures k < |s| ==> s[|s| - 1 - k] != c
  {
    if |s| > 0 && s[|s| - 1] == c then 1 + TrailRun(s[..|s| - 1], c) else 0
  }

  /** `r` is `s` with its first `a` characters and a tail cut, every cut character a `c`. */
  predicate CharCut(s: string, a: nat, r: string, c: char) {
    a + |r| <= |s| && r == s[a..a + |r|]
    && (forall i :: 0 <= i < a ==> s[i] == c) && (forall i :: a + |r| <= i < |s| ==> s[i] == c)
  }

  /** Python `str.strip(c)` for one character `c`: only copies of `c` are cut, from either end. */
  function StripChar(s: string, c: char): (r: string)
    ensures CharCut(s, LeadRun(s, c), r, c)
    ensures |r| > 0 ==> r[0] != c && r[|r| - 1] != c
  {
    var a := LeadRun(s, c);
    var t := s[a..];
    RunsCut(s, c, a, t, TrailRun(t, c));
    t[..|t| - TrailRun(t, c)]
  }

  /** Cutting a leading run of `c` and then a trailing run of `c` leaves a `CharCut` of `s`. */
  lemma RunsCut(s: string, c: char, a: nat, t: string, b: nat)
    requires a <= |s| && t == s[a..] && b <= |t|
    requires forall i :: 0 <= i < a ==> s[i] == c
    requires a < |s| ==> s[a] != c
    requires forall i :: |t| - b <= i < |t| ==> t[i] == c
    requires b < |t| ==> t[|t| - 1 - b] != c
    ensures CharCut(s, a, t[..|t| - b], c)
    ensures var r := t[..|t| - b]; |r| > 0 ==> r[0] != c && r[|r| - 1] != c
  {
    var r := t[..|t| - b];
    assert r == s[a..a + |r|];
    assert forall i :: a + |r| <= i < |s| ==> s[i] == t[i - a];
  }

  // ---------------------------------------------------------------- split and join

  /** `parts` joined with `sep` between consecutive parts (Python `sep.join(parts)`). */
  function Join(parts: seq<string>, sep: string): (r: string)
  {
    if |parts| == 0 then ""
    else if |parts| == 1 then parts[0]
    else parts[0] + sep + Join(parts[1..], sep)
  }

  /** Index of the first `c` in `s`, or `|s|` when there is none. */
  function FirstIndexOf(s: string, c: char): (k: nat)
    ensures k <= |s|
    ensures k < |s| ==> s[k] == c
    ensures forall i :: 0 <= i < k ==> s[i] != c
  {
    if |s| == 0 then 0 else if s[0] == c then 0 else 1 + FirstIndexOf(s[1..], c)
  }

  /** Python `s.split(c)` for a one-character separator. */
  function Split(s: string, c: char): (r: seq<string>)
    ensures |r| >= 1
    decreases |s|
  {
    var k := FirstIndexOf(s, c);
    if k == |s| then [s] else [s[..k]] + Split(s[k + 1..], c)
  }

  /** No piece of a split contains the separator. */
  lemma {:induction false} SplitNoSep(s: string, c: char)
    ensures forall k :: 0 <= k < |Split(s, c)| ==> !HasChar(Split(s, c)[k], c)
    decreases |s|
  {
    var k := FirstIndexOf(s, c);
    if k < |s| {
      SplitNoSep(s[k + 1..], c);
      assert Split(s, c) == [s[..k]] + Split(s[k + 1..], c);
    }
  }

  lemma {:induction false} JoinSplit(s: string, c: char)
    ensures Join(Split(s, c), [c]) == s
    decreases |s|
  {
    var k := FirstIndexOf(s, c);
    if k < |s| {
      JoinSplit(s[k + 1..], c);
      SplitAtSep(s, c);
      JoinCons(s[..k], Split(s[k + 1..], c), [c]);
      CutAt(s, k);
    } else {
      assert Split(s, c) == [s];
    }
  }

  /** At the first separator, the first piece is cut off and the rest is split on. */
  lemma SplitAtSep(s: string, c: char)
    requires FirstIndexOf(s, c) < |s|
    ensures Split(s, c) == [s[..FirstIndexOf(s, c)]] + Split(s[FirstIndexOf(s, c) + 1..], c)
  {
  }

  lemma JoinSingle(p: string, sep: string)
    ensures Join([p], sep) == p
  {
  }

  lemma {:induction false} JoinAppend(parts: seq<string>, p: string, sep: string)
    requires |parts| > 0
    ensures Join(parts + [p], sep) == Join(parts, sep) + sep + p
  {
    if |parts| == 1 {
      assert parts + [p] == [parts[0], p];
    } else {
      assert (parts + [p])[1..] == parts[1..] + [p];
      JoinAppend(parts[1..], p, sep);
    }
  }

  /** Python `s.splitlines()`: lines without their terminators, no trailing empty line. */
  function SplitLines(s: string): (r: seq<string>)
    ensures forall k :: 0 <= k < |r| ==> forall j :: 0 <= j < |r[k]| ==> !IsLineBreak(r[k][j])
    decreases |s|
  {
    if |s| == 0 then []
    else
      var k := FirstBreak(s);
      if k == |s| then [s]
      else
        var skip := if s[k] == '\r' && k + 1 < |s| && s[k + 1] == '\n' then 2 else 1;
        [s[..k]] + SplitLines(s[k + skip..])
  }

  /** Every line break of `s` is a `'\n'`. */
  predicate NewlineBreaks(s: string) {
    forall i :: 0 <= i < |s| ==> IsLineBreak(s[i]) ==> s[i] == '\n'
  }

  lemma NewlineBreaksSuffix(s: string, j: nat)
    requires NewlineBreaks(s) && j <= |s|
    ensures NewlineBreaks(s[j..])
  {
    assert forall i :: 0 <= i < |s| - j ==> s[j..][i] == s[j + i];
  }

  /** At a `'\n'` break, the first line is cut off and the rest is split on. */
  lemma SplitLinesAtNewline(s: string)
    requires FirstBreak(s) < |s| && s[FirstBreak(s)] == '\n'
    ensures SplitLines(s) == [s[..FirstBreak(s)]] + SplitLines(s[FirstBreak(s) + 1..])
  {
  }

  lemma JoinCons(a: string, rest: seq<string>, sep: string)
    requires |rest| > 0
    ensures Join([a] + rest, sep) == a + sep + Join(rest, sep)
  {
    assert ([a] + rest)[1..] == rest;
  }

  /**
   * The round trip of `"\n".join(s.splitlines())` on a text whose only line
   * breaks are `'\n'`: the text comes back, less one trailing newline.
   */
  lemma {:induction false} JoinSplitLines(s: string)
    requires NewlineBreaks(s)
    ensures if |s| > 0 && s[|s| - 1] == '\n' then Join(SplitLines(s), "\n") + "\n" == s
            else Join(SplitLines(s), "\n") == s
    decreases |s|
  {
    if |s| > 0 {
      var k := FirstBreak(s);
      if k < |s| {
        var a := s[..k];
        var t := s[k + 1..];
        SplitLinesAtNewline(s);
        CutAt(s, k);
        if |t| == 0 {
          assert SplitLines(s) == [a];
        } else {
          NewlineBreaksSuffix(s, k + 1);
          JoinSplitLines(t);
          assert |SplitLines(t)| > 0;
          JoinCons(a, SplitLines(t), "\n");
          assert t[|t| - 1] == s[|s| - 1];
        }
      } else {
        assert SplitLines(s) == [s];
        assert !IsLineBreak(s[|s| - 1]);
      }
    }
  }

  /** A text is its part before `k`, the character at `k`, and the rest. */
  lemma CutAt(s: string, k: nat)
    requires k < |s|
    ensures s == s[..k] + [s[k]] + s[k + 1..]
  {
  }

  function FirstBreak(s: string): (k: nat)
    ensures k <= |s|
    ensures k < |s| ==> IsLineBreak(s[k])
    ensures forall i :: 0 <= i < k ==> !IsLineBreak(s[i])
  {
    if |s| == 0 then 0 else if IsLineBreak(s[0]) then 0 else 1 + FirstBreak(s[1..])
  }

  // ---------------------------------------------------------------- whitespace tokens

  /** Length of the leading run of non-space characters. */
  function WordLen(s: string): (k: nat)
    ensures k <= |s|
    ensures forall i :: 0 <= i < k ==> !IsSpace(s[i])
    ensures k < |s| ==> IsSpace(s[k])
  {
    if |s| > 0 && !IsSpace(s[0]) then 1 + WordLen(s[1..]) else 0
  }

  /** Python `s.split()`: the maximal runs of non-space characters, in order. */
  function Words(s: string): (r: seq<string>)
    ensures forall k :: 0 <= k < |r| ==> |r[k]| > 0
    ensures forall k :: 0 <= k < |r| ==> forall j :: 0 <= j < |r[k]| ==> !IsSpace(r[k][j])
    decreases |s|
  {
    var t := TrimStart(s);
    if |t| == 0 then []
    else
      var k := WordLen(t);
      [t[..k]] + Words(t[k..])
  }

  // ---------------------------------------------------------------- replace

  /** Python `s.replace(p, q)` for a non-empty `p`: left to right, non-overlapping. */
  function ReplaceAll(s: string, p: string, q: string): (r: string)
    requires |p| > 0
    decreases |s|
  {
    if |s| < |p| then s
    else if s[..|p|] == p then q + ReplaceAll(s[|p|..], p, q)
    else [s[0]] + ReplaceAll(s[1..], p, q)
  }

  lemma {:induction false} ReplaceAllChars(s: string, p: string, q: string, d: char)
    requires |p| > 0
    requires HasChar(ReplaceAll(s, p, q), d)
    ensures HasChar(s, d) || HasChar(q, d)
    decreases |s|
  {
    var r := ReplaceAll(s, p, q);
    var i :| 0 <= i < |r| && r[i] == d;
    if |s| < |p| {
    } else if s[..|p|] == p {
      var rest := ReplaceAll(s[|p|..], p, q);
      if i < |q| {
      } else {
        assert rest[i - |q|] == d;
        ReplaceAllChars(s[|p|..], p, q, d);
        if HasChar(s[|p|..], d) {
          var j :| 0 <= j < |s[|p|..]| && s[|p|..][j] == d;
          assert s[|p| + j] == d;
        }
      }
    } else {
      var rest := ReplaceAll(s[1..], p, q);
      if i == 0 {
        assert s[0] == d;
      } else {
        assert rest[i - 1] == d;
        ReplaceAllChars(s[1..], p, q, d);
        if HasChar(s[1..], d) {
          var j :| 0 <= j < |s[1..]| && s[1..][j] == d;
          assert s[1 + j] == d;
        }
      }
    }
  }

  lemma ReplaceAllKeepsAbsent(s: string, p: string, q: string, c: char)
    requires |p| > 0
    requires !HasChar(s, c) && !HasChar(q, c)
    ensures !HasChar(ReplaceAll(s, p, q), c)
  {
    if HasChar(ReplaceAll(s, p, q), c) {
      ReplaceAllChars(s, p, q, c);
    }
  }

  lemma ReplaceAllNoUpper(s: string, p: string, q: string)
    requires |p| > 0
    requires HasNoUpper(s) && HasNoUpper(q)
    ensures HasNoUpper(ReplaceAll(s, p, q))
  {
    var r := ReplaceAll(s, p, q);
    forall i | 0 <= i < |r| ensures !IsUpperChar(r[i]) {
      ReplaceAllChars(s, p, q, r[i]);
    }
  }

  lemma {:induction false} ReplaceAllRemovesChar(s: string, c: char, q: string)
    requires !HasChar(q, c)
    ensures forall i :: 0 <= i < |ReplaceAll(s, [c], q)| ==> ReplaceAll(s, [c], q)[i] != c
    decreases |s|
  {
    if |s| >= 1 {
      ReplaceAllRemovesChar(s[1..], c, q);
      var rest := ReplaceAll(s[1..], [c], q);
      assert forall i :: 0 <= i < |q| ==> q[i] != c;
      if s[..1] == [c] {
        assert ReplaceAll(s, [c], q) == q + rest;
      } else {
        assert ReplaceAll(s, [c], q) == [s[0]] + rest;
      }
    }
  }
}
