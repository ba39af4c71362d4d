/**
 * Text normalisation and contact-detail helpers of
 * backend/app/utils/text_processing.py.
 */
module TextProcessing {
  import opened Strings
  import opened Seqs
  import opened Recognizers

  // ---------------------------------------------------------------- clean_text

  /** `text.replace("\r\n", "\n").replace("\r", "\n")`. */
  function NormalizeNewlines(s: string): (r: string)
  {
    ReplaceAll(ReplaceAll(s, "\r\n", "\n"), "\r", "\n")
  }

  /** Length of the leading run of characters satisfying `p`. */
  function RunLen(s: string, p: char -> bool): (k: nat)
    ensures k <= |s|
    ensures forall i :: 0 <= i < k ==> p(s[i])
    ensures k < |s| ==> !p(s[k])
  {
    if |s| > 0 && p(s[0]) then 1 + RunLen(s[1..], p) else 0
  }

  predicate IsNewline(c: char) { c == '\n' }
  predicate IsBlank(c: char) { c == ' ' || c == '\t' }

  /** `re.sub(r"\n{3,}", "\n\n", s)`: every run of three or more newlines becomes two. */
  function CollapseNewlines(s: string): (r: string)
    decreases |s|
  {
    if |s| == 0 then ""
    else
      var k := RunLen(s, IsNewline);
      if k >= 3 then "\n\n" + CollapseNewlines(s[k..])
      else if k > 0 then s[..k] + CollapseNewlines(s[k..])
      else [s[0]] + CollapseNewlines(s[1..])
  }

  /** `re.sub(r"[ \t]+", " ", s)`: every run of spaces and tabs becomes one space. */
  function CollapseBlanks(s: string): (r: string)
    decreases |s|
  {
    if |s| == 0 then ""
    else
      var k := RunLen(s, IsBlank);
      if k > 0 then " " + CollapseBlanks(s[k..])
      else [s[0]] + CollapseBlanks(s[1..])
  }

  /** `[line.strip() for line in lines]`. */
  function StripAll(lines: seq<string>): (r: seq<string>)
    ensures |r| == |lines|
    ensures forall k :: 0 <= k < |r| ==> r[k] == Strip(lines[k])
  {
    seq(|lines|, k requires 0 <= k < |lines| => Strip(lines[k]))
  }

  /** `clean_text`. */
  function CleanText(text: string): (r: string)
  {
    var t := CollapseBlanks(CollapseNewlines(NormalizeNewlines(text)));
    Strip(Join(StripAll(Split(t, '\n')), "\n"))
  }

  /** No two adjacent spaces. */
  predicate NoDoubleSpace(s: string) {
    forall i :: 0 <= i < |s| - 1 ==> !(s[i] == ' ' && s[i + 1] == ' ')
  }

  /**
   * Every line (the text between newlines) is stripped: whitespace never
   * touches a newline from either side except another newline.
   */
  predicate LinesStripped(s: string) {
    forall i :: 0 <= i < |s| && s[i] == '\n' ==>
      (i == 0 || s[i - 1] == '\n' || !IsSpace(s[i - 1])) &&
      (i == |s| - 1 || s[i + 1] == '\n' || !IsSpace(s[i + 1]))
  }

  predicate CharsWithin(s: string, t: string, extra: char) {
    forall i :: 0 <= i < |s| ==> s[i] == extra || HasChar(t, s[i])
  }

  lemma {:induction false} CollapseNewlinesChars(s: string)
    ensures CharsWithin(CollapseNewlines(s), s, '\n')
    decreases |s|
  {
    if |s| > 0 {
      var k := RunLen(s, IsNewline);
      var r := CollapseNewlines(s);
      if k > 0 {
        CollapseNewlinesChars(s[k..]);
        var rest := CollapseNewlines(s[k..]);
        var pre := if k >= 3 then "\n\n" else s[..k];
        assert r == pre + rest;
        forall i | 0 <= i < |r| ensures r[i] == '\n' || HasChar(s, r[i]) {
          if i >= |pre| {
            var c := rest[i - |pre|];
            if c != '\n' {
              var j :| 0 <= j < |s[k..]| && s[k..][j] == c;
              assert s[k + j] == c;
            }
          }
        }
      } else {
        CollapseNewlinesChars(s[1..]);
        var rest := CollapseNewlines(s[1..]);
        assert r == [s[0]] + rest;
        forall i | 0 <= i < |r| ensures r[i] == '\n' || HasChar(s, r[i]) {
          if i == 0 {
            assert s[0] == r[0];
          } else {
            var c := rest[i - 1];
            if c != '\n' {
              var j :| 0 <= j < |s[1..]| && s[1..][j] == c;
              assert s[1 + j] == c;
            }
          }
        }
      }
    }
  }

  lemma {:induction false} CollapseBlanksProps(s: string)
    ensures CharsWithin(CollapseBlanks(s), s, ' ')
    ensures forall i :: 0 <= i < |CollapseBlanks(s)| ==> CollapseBlanks(s)[i] != '\t'
    ensures NoDoubleSpace(CollapseBlanks(s))
    ensures |CollapseBlanks(s)| > 0 && CollapseBlanks(s)[0] == ' ' ==> |s| > 0 && IsBlank(s[0])
    decreases |s|
  {
    if |s| > 0 {
      var k := RunLen(s, IsBlank);
      var r := CollapseBlanks(s);
      if k > 0 {
        CollapseBlanksProps(s[k..]);
        var rest := CollapseBlanks(s[k..]);
        assert r == " " + rest;
        assert |s[k..]| > 0 ==> !IsBlank(s[k..][0]);
        assert |rest| > 0 ==> rest[0] != ' ';
        forall i | 0 <= i < |r| ensures r[i] == ' ' || HasChar(s, r[i]) {
          if i >= 1 {
            var c := rest[i - 1];
            if c != ' ' {
              var j :| 0 <= j < |s[k..]| && s[k..][j] == c;
              assert s[k + j] == c;
            }
          }
        }
        forall i | 0 <= i < |r| - 1 ensures !(r[i] == ' ' && r[i + 1] == ' ') {
          if i >= 1 {
            assert r[i] == rest[i - 1] && r[i + 1] == rest[i];
          }
        }
      } else {
        CollapseBlanksProps(s[1..]);
        var rest := CollapseBlanks(s[1..]);
        assert r == [s[0]] + rest;
        assert s[0] != ' ' && s[0] != '\t';
        forall i | 0 <= i < |r| ensures r[i] == ' ' || HasChar(s, r[i]) {
          if i == 0 {
            assert s[0] == r[0];
          } else {
            var c := rest[i - 1];
            if c != ' ' {
              var j :| 0 <= j < |s[1..]| && s[1..][j] == c;
              assert s[1 + j] == c;
            }
          }
        }
        forall i | 0 <= i < |r| - 1 ensures !(r[i] == ' ' && r[i + 1] == ' ') {
          if i >= 1 {
            assert r[i] == rest[i - 1] && r[i + 1] == rest[i];
          }
        }
      }
    }
  }

  /** A piece of a string keeps the absence of a character and of double spaces. */
  lemma SliceProps(s: string, a: int, b: int)
    requires 0 <= a <= b <= |s|
    ensures !HasChar(s, '\r') ==> !HasChar(s[a..b], '\r')
    ensures !HasChar(s, '\t') ==> !HasChar(s[a..b], '\t')
    ensures HasNoUpper(s) ==> HasNoUpper(s[a..b])
    ensures NoDoubleSpace(s) ==> NoDoubleSpace(s[a..b])
  {
    assert forall j :: 0 <= j < b - a ==> s[a..b][j] == s[a + j];
    if NoDoubleSpace(s) {
      forall i | 0 <= i < b - a - 1 ensures !(s[a..b][i] == ' ' && s[a..b][i + 1] == ' ') {
        assert s[a..b][i] == s[a + i] && s[a..b][i + 1] == s[a + i + 1];
      }
    }
  }

  /** Each piece of `Split(s, c)` is the slice of `s` starting at `a`. */
  lemma {:induction false} SplitPiece(s: string, c: char, k: nat) returns (a: nat)
    requires k < |Split(s, c)|
    ensures a + |Split(s, c)[k]| <= |s|
    ensures Split(s, c)[k] == s[a..a + |Split(s, c)[k]|]
    decreases |s|
  {
    var f := FirstIndexOf(s, c);
    if f == |s| {
      assert Split(s, c) == [s];
      a := 0;
    } else {
      SplitCons(s, c);
      if k == 0 {
        a := 0;
      } else {
        var b := SplitPiece(s[f + 1..], c, k - 1);
        a := PieceAfterFirst(s, f, Split(s, c), Split(s[f + 1..], c), k, b);
      }
    }
  }

  /** A piece found at `b` after the first separator sits at `f + 1 + b` in `s`. */
  lemma PieceAfterFirst(s: string, f: nat, ps: seq<string>, qs: seq<string>, k: nat, b: nat) returns (a: nat)
    requires f < |s| && ps == [s[..f]] + qs && 0 < k < |ps|
    requires b + |qs[k - 1]| <= |s| - f - 1
    requires qs[k - 1] == s[f + 1..][b..b + |qs[k - 1]|]
    ensures a + |ps[k]| <= |s|
    ensures ps[k] == s[a..a + |ps[k]|]
  {
    assert ps[k] == qs[k - 1];
    SliceShift(s, f + 1, b, |qs[k - 1]|);
    a := f + 1 + b;
  }

  lemma SplitCons(s: string, c: char)
    requires FirstIndexOf(s, c) < |s|
    ensures Split(s, c) == [s[..FirstIndexOf(s, c)]] + Split(s[FirstIndexOf(s, c) + 1..], c)
  {
  }

  lemma SliceShift(s: string, d: nat, b: nat, n: nat)
    requires d + b + n <= |s|
    ensures s[d..][b..b + n] == s[d + b..d + b + n]
  {
  }

  lemma ConcatNoDoubleSpace(a: string, b: string)
    requires NoDoubleSpace(a) && NoDoubleSpace(b)
    requires |a| == 0 || |b| == 0 || a[|a| - 1] != ' ' || b[0] != ' '
    ensures NoDoubleSpace(a + b)
  {
    var s := a + b;
    forall i | 0 <= i < |s| - 1 ensures !(s[i] == ' ' && s[i + 1] == ' ') {
      if i + 1 < |a| {
        assert s[i] == a[i] && s[i + 1] == a[i + 1];
      } else if i >= |a| {
        assert s[i] == b[i - |a|] && s[i + 1] == b[i + 1 - |a|];
      }
    }
  }

  /** The properties of the joined lines that `clean_text` relies on. */
  predicate GoodLine(p: string) {
    IsStripped(p) && !HasChar(p, '\n') && !HasChar(p, '\r') && !HasChar(p, '\t') && NoDoubleSpace(p)
  }

  predicate EdgeOk(s: string) {
    |s| == 0 || ((s[0] == '\n' || !IsSpace(s[0])) && (s[|s| - 1] == '\n' || !IsSpace(s[|s| - 1])))
  }

  lemma {:induction false} JoinGoodLines(ps: seq<string>)
    requires forall k :: 0 <= k < |ps| ==> GoodLine(ps[k])
    ensures LinesStripped(Join(ps, "\n"))
    ensures NoDoubleSpace(Join(ps, "\n"))
    ensures EdgeOk(Join(ps, "\n"))
    ensures !HasChar(Join(ps, "\n"), '\r') && !HasChar(Join(ps, "\n"), '\t')
  {
    if |ps| >= 2 {
      JoinGoodLines(ps[1..]);
      var p := ps[0];
      var rest := Join(ps[1..], "\n");
      var s := Join(ps, "\n");
      assert s == p + "\n" + rest;
      assert GoodLine(p);
      ConcatNoDoubleSpace(p, "\n");
      ConcatNoDoubleSpace(p + "\n", rest);
      forall i | 0 <= i < |s| && s[i] == '\n'
        ensures (i == 0 || s[i - 1] == '\n' || !IsSpace(s[i - 1])) &&
                (i == |s| - 1 || s[i + 1] == '\n' || !IsSpace(s[i + 1]))
      {
        if i < |p| {
          assert false;
        } else if i == |p| {
          if i > 0 { assert s[i - 1] == p[|p| - 1]; }
          if i < |s| - 1 { assert s[i + 1] == rest[0]; }
        } else {
          var j := i - |p| - 1;
          assert rest[j] == '\n';
          if j == 0 {
            assert s[i - 1] == '\n';
          } else {
            assert s[i - 1] == rest[j - 1];
          }
          if i < |s| - 1 { assert s[i + 1] == rest[j + 1]; }
        }
      }
      if |p| > 0 { assert s[0] == p[0]; } else { assert s[0] == '\n'; }
      if |rest| > 0 { assert s[|s| - 1] == rest[|rest| - 1]; }
      assert forall i :: 0 <= i < |p| ==> s[i] == p[i] && p[i] != '\r' && p[i] != '\t';
      assert forall i :: |p| < i < |s| ==> s[i] == rest[i - |p| - 1];
      assert forall i :: 0 <= i < |rest| ==> rest[i] != '\r' && rest[i] != '\t';
    } else if |ps| == 1 {
      var p := ps[0];
      assert Join(ps, "\n") == p;
      assert GoodLine(p);
      assert forall i :: 0 <= i < |p| ==> p[i] != '\n';
    }
  }

  /** Stripping a string whose lines are stripped keeps them stripped. */
  lemma StripKeepsLines(s: string)
    requires LinesStripped(s) && NoDoubleSpace(s)
    requires !HasChar(s, '\r') && !HasChar(s, '\t')
    ensures LinesStripped(Strip(s)) && NoDoubleSpace(Strip(s))
    ensures !HasChar(Strip(s), '\r') && !HasChar(Strip(s), '\t')
  {
    var a := LeadSpaces(s);
    var r := Strip(s);
    assert r == s[a..a + |r|];
    SliceProps(s, a, a + |r|);
    LinesStrippedSlice(s, a, a + |r|);
    assert LinesStripped(r);
  }

  /** Any slice of a text whose lines are stripped has its lines stripped: the cut ends are allowed to touch whitespace. */
  lemma LinesStrippedSlice(s: string, a: int, b: int)
    requires 0 <= a <= b <= |s| && LinesStripped(s)
    ensures LinesStripped(s[a..b])
  {
    var r := s[a..b];
    forall i | 0 <= i < |r| && r[i] == '\n'
      ensures (i == 0 || r[i - 1] == '\n' || !IsSpace(r[i - 1])) &&
              (i == |r| - 1 || r[i + 1] == '\n' || !IsSpace(r[i + 1]))
    {
      assert s[a + i] == '\n';
      if i > 0 { assert r[i - 1] == s[a + i - 1]; }
      if i < |r| - 1 { assert r[i + 1] == s[a + i + 1]; }
    }
  }

  lemma StripGood(l: string)
    requires !HasChar(l, '\n') && !HasChar(l, '\r') && !HasChar(l, '\t') && NoDoubleSpace(l)
    ensures GoodLine(Strip(l))
  {
    var c := LeadSpaces(l);
    var sl := Strip(l);
    SliceProps(l, c, c + |sl|);
    assert forall j :: 0 <= j < |sl| ==> sl[j] == l[c + j];
  }

  lemma CleanTextLinesGood(t: string)
    requires !HasChar(t, '\r') && !HasChar(t, '\t') && NoDoubleSpace(t)
    ensures forall k :: 0 <= k < |StripAll(Split(t, '\n'))| ==> GoodLine(StripAll(Split(t, '\n'))[k])
  {
    var ls := Split(t, '\n');
    SplitNoSep(t, '\n');
    forall k | 0 <= k < |ls| ensures GoodLine(Strip(ls[k])) {
      var a := SplitPiece(t, '\n', k);
      SliceProps(t, a, a + |ls[k]|);
      StripGood(ls[k]);
    }
  }

  /**
   * `clean_text` leaves no carriage return and no tab, never two adjacent
   * spaces, and no line with leading or trailing whitespace.
   */
  lemma CleanTextProperties(text: string)
    ensures !HasChar(CleanText(text), '\r')
    ensures !HasChar(CleanText(text), '\t')
    ensures NoDoubleSpace(CleanText(text))
    ensures LinesStripped(CleanText(text))
    ensures IsStripped(CleanText(text))
  {
    var n1 := ReplaceAll(text, "\r\n", "\n");
    var n := NormalizeNewlines(text);
    ReplaceAllRemovesChar(n1, '\r', "\n");
    assert !HasChar(n, '\r');
    var c := CollapseNewlines(n);
    CollapseNewlinesChars(n);
    assert !HasChar(c, '\r');
    var t := CollapseBlanks(c);
    CollapseBlanksProps(c);
    assert !HasChar(t, '\r');
    assert !HasChar(t, '\t');
    CleanTextLinesGood(t);
    JoinGoodLines(StripAll(Split(t, '\n')));
    StripKeepsLines(Join(StripAll(Split(t, '\n')), "\n"));
  }

  // ---------------------------------------------------------------- count_words, estimate_pages

  /** `count_words`: `len(text.split())`. */
  function CountWords(text: string): (n: nat)
  {
    |Words(text)|
  }

  lemma CountWordsZeroIffBlank(text: string)
    ensures CountWords(text) == 0 <==> forall i :: 0 <= i < |text| ==> IsSpace(text[i])
  {
    var k := LeadSpaces(text);
    if k < |text| {
      assert TrimStart(text)[0] == text[k];
    }
  }

  lemma WordLenOfPrefix(a: string, b: string)
    requires forall j :: 0 <= j < |a| ==> !IsSpace(a[j])
    requires |b| == 0 || IsSpace(b[0])
    ensures WordLen(a + b) == |a|
    decreases |a|
  {
    if |a| > 0 {
      assert (a + b)[1..] == a[1..] + b;
      WordLenOfPrefix(a[1..], b);
    }
  }

  /** A token followed by nothing or by whitespace is the first word. */
  lemma WordsCons(a: string, b: string)
    requires |a| > 0 && forall j :: 0 <= j < |a| ==> !IsSpace(a[j])
    requires |b| == 0 || IsSpace(b[0])
    ensures Words(a + b) == [a] + Words(b)
  {
    var s := a + b;
    assert LeadSpaces(s) == 0;
    WordLenOfPrefix(a, b);
    assert s[..|a|] == a;
    assert s[|a|..] == b;
  }

  lemma WordsOfWord(w: string)
    requires |w| > 0 && forall j :: 0 <= j < |w| ==> !IsSpace(w[j])
    ensures Words(w) == [w]
  {
    WordsCons(w, "");
    assert w + "" == w;
  }

  lemma WordsAfterSpace(b: string)
    ensures Words(" " + b) == Words(b)
  {
    assert (" " + b)[1..] == b;
    assert LeadSpaces(" " + b) == 1 + LeadSpaces(b);
    assert TrimStart(" " + b) == TrimStart(b);
  }

  /** Non-empty space-free tokens joined by single spaces are exactly the words of the result. */
  lemma {:induction false} CountWordsOfJoin(ws: seq<string>)
    requires forall k :: 0 <= k < |ws| ==> |ws[k]| > 0 && forall j :: 0 <= j < |ws[k]| ==> !IsSpace(ws[k][j])
    ensures Words(Join(ws, " ")) == ws
    ensures CountWords(Join(ws, " ")) == |ws|
  {
    if |ws| == 1 {
      WordsOfWord(ws[0]);
    } else if |ws| >= 2 {
      var tail := ws[1..];
      assert forall k :: 0 <= k < |tail| ==> tail[k] == ws[k + 1];
      CountWordsOfJoin(tail);
      assert ws == [ws[0]] + tail;
      WordThenWords(ws[0], Join(tail, " "), tail, ws, Join(ws, " "));
    }
  }

  /** A word, a space, then a text whose words are known. */
  lemma WordThenWords(w: string, rest: string, tail: seq<string>, ws: seq<string>, joined: string)
    requires |w| > 0 && forall j :: 0 <= j < |w| ==> !IsSpace(w[j])
    requires Words(rest) == tail && ws == [w] + tail && joined == w + " " + rest
    ensures Words(joined) == ws && CountWords(joined) == |ws|
  {
    var sp := " " + rest;
    assert sp[0] == ' ';
    WordsCons(w, sp);
    WordsAfterSpace(rest);
    ConcatAssoc(w, " ", rest);
  }

  /** `estimate_pages`. */
  function EstimatePages(wordCount: int): (p: int)
    ensures p >= 1
    ensures wordCount <= 500 ==> p == 1
    ensures 500 < wordCount <= 1000 ==> p == 2
    ensures wordCount > 0 ==> (p - 1) * 500 < wordCount <= p * 500
  {
    if wordCount <= 500 then 1
    else if wordCount <= 1000 then 2
    else
      var q := (wordCount + 499) / 500;
      if q >= 1 then q else 1
  }

  lemma EstimatePagesMonotone(a: int, b: int)
    requires a <= b
    ensures EstimatePages(a) <= EstimatePages(b)
  {
  }

  // ---------------------------------------------------------------- extract_phones, extract_urls

  /** The phones every pattern finds, pattern by pattern. */
  function AllMatches(patterns: seq<string -> seq<string>>, text: string): (r: seq<string>)
  {
    if |patterns| == 0 then [] else AllMatches(patterns[..|patterns| - 1], text) + patterns[|patterns| - 1](text)
  }

  /** `extract_phones`. */
  method ExtractPhones(rx: Recognizers, text: string) returns (phones: seq<string>)
    ensures phones == AllMatches(rx.phonePatterns, text)
  {
    phones := [];
    var i := 0;
    while i < |rx.phonePatterns|
      invariant 0 <= i <= |rx.phonePatterns|
      invariant phones == AllMatches(rx.phonePatterns[..i], text)
    {
      assert rx.phonePatterns[..i + 1][..i] == rx.phonePatterns[..i];
      phones := phones + rx.phonePatterns[i](text);
      i := i + 1;
    }
    assert rx.phonePatterns[..i] == rx.phonePatterns;
  }

  lemma {:induction false} AllMatchesMembers(patterns: seq<string -> seq<string>>, text: string, m: string)
    ensures m in AllMatches(patterns, text) <==> exists k :: 0 <= k < |patterns| && m in patterns[k](text)
  {
    if |patterns| > 0 {
      var init := patterns[..|patterns| - 1];
      AllMatchesMembers(init, text, m);
      if m in patterns[|patterns| - 1](text) {
      } else if exists k :: 0 <= k < |patterns| && m in patterns[k](text) {
        var k :| 0 <= k < |patterns| && m in patterns[k](text);
        assert k < |patterns| - 1 && init[k] == patterns[k];
      }
    }
  }

  predicate IsLinkedInUrl(url: string) { Contains(Lower(url), "linkedin.com") }
  predicate IsGitHubUrl(url: string) { Contains(Lower(url), "github.com") }

  /** The elements `x` of `xs` with `p(x) == keep`, in order. */
  function Select(xs: seq<string>, p: string -> bool, keep: bool): (r: seq<string>)
    ensures |r| <= |xs|
  {
    if |xs| == 0 then []
    else Select(xs[..|xs| - 1], p, keep) + (if p(xs[|xs| - 1]) == keep then [xs[|xs| - 1]] else [])
  }

  /** Selecting by `p` and by its negation splits a sequence into two parts. */
  lemma {:induction false} SelectPartition(xs: seq<string>, p: string -> bool)
    ensures multiset(Select(xs, p, true)) + multiset(Select(xs, p, false)) == multiset(xs)
    ensures |Select(xs, p, true)| + |Select(xs, p, false)| == |xs|
  {
    if |xs| > 0 {
      var init := xs[..|xs| - 1];
      var x := xs[|xs| - 1];
      SelectPartition(init, p);
      assert xs == init + [x];
      SelectSnoc(init, x, p, true);
      SelectSnoc(init, x, p, false);
      PartitionStep(Select(init, p, true), Select(init, p, false), init, x, p(x), Select(xs, p, true), Select(xs, p, false), xs);
    }
  }

  lemma {:induction false} SelectMembers(xs: seq<string>, p: string -> bool, keep: bool)
    ensures forall x :: x in Select(xs, p, keep) ==> x in xs && p(x) == keep
  {
    if |xs| > 0 {
      SelectMembers(xs[..|xs| - 1], p, keep);
      assert forall x :: x in xs[..|xs| - 1] ==> x in xs;
    }
  }

  lemma SelectSnoc(xs: seq<string>, x: string, p: string -> bool, keep: bool)
    ensures Select(xs + [x], p, keep) == Select(xs, p, keep) + (if p(x) == keep then [x] else [])
  {
    assert (xs + [x])[..|xs|] == xs;
  }

  /** One more URL lands in exactly one bucket: the first test it passes, or the last bucket. */
  lemma BucketsSnoc(xs: seq<string>, x: string, p: string -> bool, q: string -> bool)
    ensures Select(xs + [x], p, true) == Select(xs, p, true) + (if p(x) then [x] else [])
    ensures Select(Select(xs + [x], p, false), q, true) == Select(Select(xs, p, false), q, true) + (if !p(x) && q(x) then [x] else [])
    ensures Select(Select(xs + [x], p, false), q, false) == Select(Select(xs, p, false), q, false) + (if !p(x) && !q(x) then [x] else [])
  {
    SelectSnoc(xs, x, p, true);
    SelectSnoc(xs, x, p, false);
    var rest := Select(xs, p, false);
    if p(x) {
      assert Select(xs + [x], p, false) == rest;
    } else {
      assert Select(xs + [x], p, false) == rest + [x];
      SelectSnoc(rest, x, q, true);
      SelectSnoc(rest, x, q, false);
    }
  }

  /** The LinkedIn URLs, in order. */
  function LinkedInUrls(urls: seq<string>): seq<string> { Select(urls, IsLinkedInUrl, true) }
  /** The GitHub URLs that are not LinkedIn URLs, in order (LinkedIn takes precedence). */
  function GitHubUrls(urls: seq<string>): seq<string> { Select(Select(urls, IsLinkedInUrl, false), IsGitHubUrl, true) }
  /** The remaining URLs, in order. */
  function OtherUrls(urls: seq<string>): seq<string> { Select(Select(urls, IsLinkedInUrl, false), IsGitHubUrl, false) }

  datatype Urls = Urls(linkedin: seq<string>, github: seq<string>, portfolio: seq<string>, other: seq<string>)

  /** `extract_urls`. */
  method ExtractUrls(rx: Recognizers, text: string) returns (r: Urls)
    ensures r.linkedin == LinkedInUrls(rx.findUrls(text))
    ensures r.github == GitHubUrls(rx.findUrls(text))
    ensures r.other == OtherUrls(rx.findUrls(text))
    ensures r.portfolio == []
  {
    var urls := rx.findUrls(text);
    r := Urls([], [], [], []);
    var i := 0;
    while i < |urls|
      invariant 0 <= i <= |urls|
      invariant r.linkedin == LinkedInUrls(urls[..i])
      invariant r.github == GitHubUrls(urls[..i])
      invariant r.other == OtherUrls(urls[..i])
      invariant r.portfolio == []
    {
      var url := urls[i];
      assert urls[..i + 1] == urls[..i] + [url];
      BucketsSnoc(urls[..i], url, IsLinkedInUrl, IsGitHubUrl);
      if IsLinkedInUrl(url) {
        r := r.(linkedin := r.linkedin + [url]);
      } else if IsGitHubUrl(url) {
        r := r.(github := r.github + [url]);
      } else {
        r := r.(other := r.other + [url]);
      }
      i := i + 1;
    }
    assert urls[..i] == urls;
  }

  /**
   * The three buckets partition the URLs: every URL lands in exactly one of
   * them, LinkedIn taking precedence over GitHub.
   */
  lemma BucketsPartition(urls: seq<string>)
    ensures multiset(LinkedInUrls(urls)) + multiset(GitHubUrls(urls)) + multiset(OtherUrls(urls)) == multiset(urls)
    ensures |LinkedInUrls(urls)| + |GitHubUrls(urls)| + |OtherUrls(urls)| == |urls|
    ensures forall u :: u in GitHubUrls(urls) ==> !IsLinkedInUrl(u) && IsGitHubUrl(u)
    ensures forall u :: u in OtherUrls(urls) ==> !IsLinkedInUrl(u) && !IsGitHubUrl(u)
  {
    SelectPartition(urls, IsLinkedInUrl);
    var rest := Select(urls, IsLinkedInUrl, false);
    SelectPartition(rest, IsGitHubUrl);
    SelectMembers(urls, IsLinkedInUrl, false);
    SelectMembers(rest, IsGitHubUrl, true);
    SelectMembers(rest, IsGitHubUrl, false);
    var l, g, o := multiset(LinkedInUrls(urls)), multiset(GitHubUrls(urls)), multiset(OtherUrls(urls));
    assert g + o == multiset(rest);
    assert l + multiset(rest) == multiset(urls);
    assert l + g + o == l + (g + o);
  }

  // ---------------------------------------------------------------- normalize_keyword

  /** `normalize_keyword`. */
  function NormalizeKeyword(keyword: string): (r: string)
  {
    ReplaceAll(ReplaceAll(ReplaceAll(Strip(Lower(keyword)), "-", " "), ".", ""), "/", " ")
  }

  lemma NormalizeKeywordClean(keyword: string)
    ensures !HasChar(NormalizeKeyword(keyword), '-')
    ensures !HasChar(NormalizeKeyword(keyword), '.')
    ensures !HasChar(NormalizeKeyword(keyword), '/')
    ensures HasNoUpper(NormalizeKeyword(keyword))
  {
    var l := Lower(keyword);
    var s := Strip(l);
    var a := ReplaceAll(s, "-", " ");
    var b := ReplaceAll(a, ".", "");
    LowerHasNoUpper(keyword);
    SliceProps(l, LeadSpaces(l), LeadSpaces(l) + |s|);
    assert forall i :: 0 <= i < |s| ==> s[i] == l[LeadSpaces(l) + i];
    ReplaceAllRemovesChar(s, '-', " ");
    ReplaceAllRemovesChar(a, '.', "");
    ReplaceAllRemovesChar(b, '/', " ");
    ReplaceAllKeepsAbsent(a, ".", "", '-');
    ReplaceAllKeepsAbsent(b, "/", " ", '-');
    ReplaceAllKeepsAbsent(b, "/", " ", '.');
    ReplaceAllNoUpper(s, "-", " ");
    ReplaceAllNoUpper(a, ".", "");
    ReplaceAllNoUpper(b, "/", " ");
  }
}
