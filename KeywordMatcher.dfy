/**
 * The keyword matcher of backend/app/services/keyword_matcher.py: the
 * match cascade for one keyword (word-boundary variation match, best
 * fuzzy window, multi-word token-set match), the section locator and the
 * weighted keyword score.
 */
module KeywordMatcher {
  import opened Wrappers
  import opened Strings
  import opened Dicts
  import opened Seqs
  import opened Numeric
  import opened Recognizers
  import JdParser
  import ResumeParser

  /** `KeywordMatchResult`. */
  datatype MatchResult = MatchResult(
    keyword: string,
    category: string,
    found: bool,
    matchType: string,
    matchScore: real,
    matchedText: Option<string>,
    location: Option<string>
  )

  const MatchTypes: seq<string> := ["exact", "variation", "fuzzy", "not_found"]

  // ---------------------------------------------------------------- word-boundary search

  /** `\b` at position `i`: exactly one of the characters around it is a word character. */
  predicate BoundaryAt(s: string, i: nat)
    requires i <= |s|
  {
    (i > 0 && IsWordChar(s[i - 1])) != (i < |s| && IsWordChar(s[i]))
  }

  /** `\b<v>\b` matches `s` at `i`. */
  predicate WordMatchAt(s: string, v: string, i: nat) {
    OccursAt(s, v, i) && BoundaryAt(s, i) && BoundaryAt(s, i + |v|)
  }

  /** `re.search(r"\b" + re.escape(v) + r"\b", s, re.IGNORECASE)` on a lower-cased `s`. */
  predicate WordSearch(s: string, v: string) {
    exists i: nat | i <= |s| :: WordMatchAt(s, Lower(v), i)
  }

  /** A whole-word occurrence is in particular an occurrence of the lower-cased variation. */
  lemma WordSearchContains(s: string, v: string)
    requires WordSearch(s, v)
    ensures Contains(s, Lower(v))
  {
    var i: nat :| i <= |s| && WordMatchAt(s, Lower(v), i);
    assert OccursAt(s, Lower(v), i);
  }

  // ---------------------------------------------------------------- _find_section

  /** The section's lower-cased text contains the lower-cased `t`. */
  predicate SectionHas(e: (string, string), t: string) {
    Contains(Lower(e.1), Lower(t))
  }

  /** `_find_section`: the first section, in dict order, holding `t`, or "general". */
  function FindSection(t: string, sections: Dict<string>): (r: string)
    ensures (forall i :: 0 <= i < |sections| ==> !SectionHas(sections[i], t)) ==> r == "general"
    ensures forall i :: 0 <= i < |sections| && SectionHas(sections[i], t) && (forall j :: 0 <= j < i ==> !SectionHas(sections[j], t)) ==>
      r == sections[i].0
  {
    match FirstIndexWhere(sections, e => SectionHas(e, t))
    case Some(i) => sections[i].0
    case None => "general"
  }

  // ---------------------------------------------------------------- the fuzzy window loop

  /** `best_score`, `best_match` after the window loop: a strictly better ratio replaces the best so far. */
  function Best(kl: string, words: seq<string>, ratio: (string, string) -> Unit): (b: (real, string))
  {
    if |words| == 0 then (0.0, "")
    else
      var prev := Best(kl, words[..|words| - 1], ratio);
      var w := words[|words| - 1];
      if ratio(kl, w) > prev.0 then (ratio(kl, w) as real, w) else prev
  }

  /** The window loop of `match_keyword_in_text`. */
  method BestWindow(kl: string, words: seq<string>, ratio: (string, string) -> Unit) returns (bestScore: real, bestMatch: string)
    ensures (bestScore, bestMatch) == Best(kl, words, ratio)
  {
    bestScore, bestMatch := 0.0, "";
    var i := 0;
    while i < |words|
      invariant 0 <= i <= |words|
      invariant (bestScore, bestMatch) == Best(kl, words[..i], ratio)
    {
      assert words[..i + 1][..i] == words[..i];
      var r := ratio(kl, words[i]);
      if r > bestScore {
        bestScore, bestMatch := r, words[i];
      }
      i := i + 1;
    }
    assert words[..i] == words;
  }

  /**
   * The best score is the largest ratio (0 when there is none above 0), and
   * a positive best is attained first at the window kept as best match.
   */
  lemma {:induction false} BestIsFirstMax(kl: string, words: seq<string>, ratio: (string, string) -> Unit)
    ensures var b := Best(kl, words, ratio);
      && 0.0 <= b.0 <= 1.0
      && (forall j :: 0 <= j < |words| ==> ratio(kl, words[j]) <= b.0)
      && (b.0 == 0.0 ==> b.1 == "")
      && (b.0 > 0.0 ==> exists j :: (0 <= j < |words| && words[j] == b.1 && ratio(kl, words[j]) == b.0
            && forall t :: 0 <= t < j ==> ratio(kl, words[t]) < b.0))
  {
    if |words| > 0 {
      var init := words[..|words| - 1];
      BestIsFirstMax(kl, init, ratio);
      var prev := Best(kl, init, ratio);
      var w := words[|words| - 1];
      if ratio(kl, w) > prev.0 {
        assert words[|words| - 1] == w;
      } else if prev.0 > 0.0 {
        var j :| 0 <= j < |init| && init[j] == prev.1 && ratio(kl, init[j]) == prev.0
          && forall t :: 0 <= t < j ==> ratio(kl, init[t]) < prev.0;
        assert words[j] == init[j];
      }
      forall j | 0 <= j < |words| ensures ratio(kl, words[j]) <= Best(kl, words, ratio).0 {
        if j < |init| {
          assert words[j] == init[j];
        }
      }
    }
  }

  /** No window's ratio exceeds the best score. */
  lemma BestAbove(kl: string, words: seq<string>, ratio: (string, string) -> Unit, j: nat)
    requires j < |words|
    ensures ratio(kl, words[j]) <= Best(kl, words, ratio).0
  {
    BestIsFirstMax(kl, words, ratio);
  }

  /** When every window's ratio is below a positive bound, so is the best score. */
  lemma BestBelow(kl: string, words: seq<string>, ratio: (string, string) -> Unit, bound: real)
    requires bound > 0.0
    requires forall j :: 0 <= j < |words| ==> ratio(kl, words[j]) < bound
    ensures Best(kl, words, ratio).0 < bound
  {
    BestIsFirstMax(kl, words, ratio);
  }

  // ---------------------------------------------------------------- match_keyword_in_text

  /** The variation step hits the lower-cased text with `v`. */
  predicate VariationHit(textLower: string, v: string) {
    WordSearch(textLower, v)
  }

  /** The first variation, in order, whose whole-word search hits. */
  function FirstVariation(rx: Recognizers, kl: string, textLower: string): (r: Option<string>)
    ensures r.Some? ==> VariationHit(textLower, r.value) && r.value in rx.variations(kl)
    ensures r.None? <==> forall v :: v in rx.variations(kl) ==> !VariationHit(textLower, v)
  {
    var vs := rx.variations(kl);
    var r := FirstWhere(vs, v => VariationHit(textLower, v));
    assert r.None? ==> forall v :: v in vs ==> !VariationHit(textLower, v);
    r
  }

  /** `round(best_score * 0.9, 2)`: the fuzzy-window score. */
  function WindowScore(ratio: real): (s: real)
  {
    Round2(ratio * 0.9)
  }

  /** `round(ratio * 0.7, 2)`: the token-set score. */
  function TokenSetScore(ratio: real): (s: real)
  {
    Round2(ratio * 0.7)
  }

  /**
   * The cascade of `match_keyword_in_text` once its inputs are computed:
   * the first hitting variation `v`, the best window `best`, whether the
   * keyword has several words, and the first token-set section `ts` with
   * its ratio.
   */
  function Decide(keyword: string, kl: string, v: Option<string>, best: (real, string), multi: bool,
                  ts: Option<(string, real)>, sections: Dict<string>): (r: MatchResult)
  {
    match v
    case Some(w) =>
      MatchResult(keyword, "", true, if w == kl then "exact" else "variation", if w == kl then 1.0 else 0.9,
                  Some(w), Some(FindSection(w, sections)))
    case None =>
      if best.0 >= 0.85 then
        MatchResult(keyword, "", true, "fuzzy", WindowScore(best.0), Some(best.1), Some(FindSection(best.1, sections)))
      else if multi && ts.Some? then
        MatchResult(keyword, "", true, "fuzzy", TokenSetScore(ts.value.1), Some(kl), Some(ts.value.0))
      else
        MatchResult(keyword, "", false, "not_found", 0.0, None, None)
  }

  /** The first section, in dict order, whose lower-cased text reaches token-set ratio 0.9: its name and ratio. */
  function TokenSetHit(rx: Recognizers, kl: string, sections: Dict<string>): (r: Option<(string, real)>)
    ensures r.Some? ==> r.value.1 >= 0.9
    ensures r.Some? ==> exists i :: (0 <= i < |sections| && r.value == (sections[i].0, rx.tokenSetRatio(kl, Lower(sections[i].1)) as real)
      && forall j :: 0 <= j < i ==> rx.tokenSetRatio(kl, Lower(sections[j].1)) < 0.9)
    ensures r.None? <==> forall i :: 0 <= i < |sections| ==> rx.tokenSetRatio(kl, Lower(sections[i].1)) < 0.9
  {
    match FirstIndexWhere(sections, (e: (string, string)) => rx.tokenSetRatio(kl, Lower(e.1)) >= 0.9)
    case Some(i) => Some((sections[i].0, rx.tokenSetRatio(kl, Lower(sections[i].1)) as real))
    case None => None
  }

  /** `match_keyword_in_text`. */
  function MatchKeyword(rx: Recognizers, keyword: string, text: string, sections: Dict<string>): (r: MatchResult)
  {
    var kl := Strip(Lower(keyword));
    var tl := Lower(text);
    Decide(keyword, kl, FirstVariation(rx, kl, tl), Best(kl, rx.textWindows(tl), rx.ratio), |Words(kl)| > 1,
           TokenSetHit(rx, kl, sections), sections)
  }

  /** `MatchKeyword` is `Decide` on the computed cascade inputs. */
  lemma MatchIsDecide(rx: Recognizers, keyword: string, text: string, sections: Dict<string>)
    ensures var kl := Strip(Lower(keyword));
      MatchKeyword(rx, keyword, text, sections)
        == Decide(keyword, kl, FirstVariation(rx, kl, Lower(text)), Best(kl, rx.textWindows(Lower(text)), rx.ratio),
                  |Words(kl)| > 1, TokenSetHit(rx, kl, sections), sections)
  {
  }

  /**
   * The shape of every decided result: `found` exactly when the type is not
   * "not_found", a not-found result carries score 0 and no text or
   * location, a found one carries both, the score lies in [0, 1], and it is
   * 1.0 exactly for an exact match.
   */
  lemma DecideShape(keyword: string, kl: string, v: Option<string>, best: (real, string), multi: bool,
                    ts: Option<(string, real)>, sections: Dict<string>)
    requires 0.0 <= best.0 <= 1.0
    requires ts.Some? ==> 0.0 <= ts.value.1 <= 1.0
    ensures var r := Decide(keyword, kl, v, best, multi, ts, sections);
      && r.keyword == keyword && r.category == ""
      && r.matchType in MatchTypes
      && (r.found <==> r.matchType != "not_found")
      && (!r.found ==> r.matchScore == 0.0 && r.matchedText.None? && r.location.None?)
      && (r.found ==> r.matchedText.Some? && r.location.Some?)
      && 0.0 <= r.matchScore <= 1.0
      && (r.matchScore == 1.0 <==> r.matchType == "exact")
  {
    if v.None? {
      if best.0 >= 0.85 {
        Round2Bounds(best.0 * 0.9, 0.0, 0.9);
      } else if multi && ts.Some? {
        Round2Bounds(ts.value.1 * 0.7, 0.0, 0.7);
      }
    }
  }

  /** `MatchKeyword` has the shape of `DecideShape`. */
  lemma MatchShape(rx: Recognizers, keyword: string, text: string, sections: Dict<string>)
    ensures var r := MatchKeyword(rx, keyword, text, sections);
      && r.keyword == keyword && r.category == ""
      && r.matchType in MatchTypes
      && (r.found <==> r.matchType != "not_found")
      && (!r.found ==> r.matchScore == 0.0 && r.matchedText.None? && r.location.None?)
      && (r.found ==> r.matchedText.Some? && r.location.Some?)
      && 0.0 <= r.matchScore <= 1.0
      && (r.matchScore == 1.0 <==> r.matchType == "exact")
  {
    var kl := Strip(Lower(keyword));
    var tl := Lower(text);
    BestIsFirstMax(kl, rx.textWindows(tl), rx.ratio);
    DecideShape(keyword, kl, FirstVariation(rx, kl, tl), Best(kl, rx.textWindows(tl), rx.ratio), |Words(kl)| > 1,
                TokenSetHit(rx, kl, sections), sections);
  }

  /**
   * The cascade order: a whole-word variation hit always wins, and is
   * "exact" exactly when the first hitting variation is the stripped
   * lower-cased keyword itself. Without one, the result is "fuzzy" or
   * "not_found".
   */
  lemma VariationFirst(rx: Recognizers, keyword: string, text: string, sections: Dict<string>)
    ensures var r := MatchKeyword(rx, keyword, text, sections);
      var v := FirstVariation(rx, Strip(Lower(keyword)), Lower(text));
      && (v.Some? ==> r.found && r.matchedText == v && r.location == Some(FindSection(v.value, sections))
                      && (r.matchType == "exact" <==> v.value == Strip(Lower(keyword))))
      && (v.None? ==> r.matchType == "fuzzy" || r.matchType == "not_found")
  {
  }

  /** With no variation hit, the outcome is decided by the best window first, then the token-set section. */
  lemma DecideNoVariation(keyword: string, kl: string, best: (real, string), multi: bool,
                          ts: Option<(string, real)>, sections: Dict<string>)
    ensures var r := Decide(keyword, kl, None, best, multi, ts, sections);
      && (best.0 >= 0.85 ==> r.matchType == "fuzzy" && r.matchScore == WindowScore(best.0) && r.matchedText == Some(best.1))
      && (best.0 < 0.85 ==> (r.found <==> multi && ts.Some?))
      && (best.0 < 0.85 && multi && ts.Some? ==>
            r.matchedText == Some(kl) && r.location == Some(ts.value.0) && r.matchScore == TokenSetScore(ts.value.1))
  {
  }

  /** A token-set result of `Decide` carries the section and score of `ts`. */
  lemma DecideTokenSet(keyword: string, kl: string, best: (real, string), multi: bool,
                       ts: Option<(string, real)>, sections: Dict<string>, r: MatchResult)
    requires r == Decide(keyword, kl, None, best, multi, ts, sections)
    requires best.0 < 0.85 && r.found
    ensures r.matchedText == Some(kl) && ts.Some? && r.location == Some(ts.value.0) && r.matchScore == TokenSetScore(ts.value.1)
  {
  }

  /**
   * Without a variation hit, a window whose ratio reaches 0.85 makes the
   * result "fuzzy", scored at the best ratio times 0.9 rounded to two
   * places, with the best window as its text.
   */
  lemma FuzzyAccepted(rx: Recognizers, keyword: string, text: string, sections: Dict<string>)
    requires FirstVariation(rx, Strip(Lower(keyword)), Lower(text)).None?
    requires exists j :: 0 <= j < |rx.textWindows(Lower(text))| && rx.ratio(Strip(Lower(keyword)), rx.textWindows(Lower(text))[j]) >= 0.85
    ensures var r := MatchKeyword(rx, keyword, text, sections);
      var b := Best(Strip(Lower(keyword)), rx.textWindows(Lower(text)), rx.ratio);
      r.matchType == "fuzzy" && r.matchScore == WindowScore(b.0) && r.matchedText == Some(b.1)
  {
    var kl := Strip(Lower(keyword));
    var ws := rx.textWindows(Lower(text));
    var j :| 0 <= j < |ws| && rx.ratio(kl, ws[j]) >= 0.85;
    BestAbove(kl, ws, rx.ratio, j);
    DecideNoVariation(keyword, kl, Best(kl, ws, rx.ratio), |Words(kl)| > 1, TokenSetHit(rx, kl, sections), sections);
  }

  /** Without a variation hit, a single-word keyword with every window ratio below 0.85 is not found. */
  lemma FuzzyRejected(rx: Recognizers, keyword: string, text: string, sections: Dict<string>)
    requires FirstVariation(rx, Strip(Lower(keyword)), Lower(text)).None?
    requires forall j :: 0 <= j < |rx.textWindows(Lower(text))| ==> rx.ratio(Strip(Lower(keyword)), rx.textWindows(Lower(text))[j]) < 0.85
    requires |Words(Strip(Lower(keyword)))| <= 1
    ensures MatchKeyword(rx, keyword, text, sections).matchType == "not_found"
  {
    var kl := Strip(Lower(keyword));
    var ws := rx.textWindows(Lower(text));
    BestBelow(kl, ws, rx.ratio, 0.85);
    DecideNoVariation(keyword, kl, Best(kl, ws, rx.ratio), |Words(kl)| > 1, TokenSetHit(rx, kl, sections), sections);
  }

  /**
   * Below the window threshold, the result is found exactly for a
   * multi-word keyword with some section reaching token-set ratio 0.9.
   */
  lemma TokenSetFound(rx: Recognizers, keyword: string, text: string, sections: Dict<string>)
    requires FirstVariation(rx, Strip(Lower(keyword)), Lower(text)).None?
    requires Best(Strip(Lower(keyword)), rx.textWindows(Lower(text)), rx.ratio).0 < 0.85
    ensures MatchKeyword(rx, keyword, text, sections).found <==>
      |Words(Strip(Lower(keyword)))| > 1
      && exists i :: 0 <= i < |sections| && rx.tokenSetRatio(Strip(Lower(keyword)), Lower(sections[i].1)) >= 0.9
  {
    var kl := Strip(Lower(keyword));
    DecideNoVariation(keyword, kl, Best(kl, rx.textWindows(Lower(text)), rx.ratio), |Words(kl)| > 1,
                      TokenSetHit(rx, kl, sections), sections);
  }

  /**
   * A token-set match names the first section reaching 0.9 (as
   * `TokenSetHit` finds it), takes the keyword itself as matched text, and
   * scores that section's ratio times 0.7 rounded to two places.
   */
  lemma TokenSetLocation(rx: Recognizers, keyword: string, text: string, sections: Dict<string>)
    requires FirstVariation(rx, Strip(Lower(keyword)), Lower(text)).None?
    requires Best(Strip(Lower(keyword)), rx.textWindows(Lower(text)), rx.ratio).0 < 0.85
    requires MatchKeyword(rx, keyword, text, sections).found
    ensures TokenSetHit(rx, Strip(Lower(keyword)), sections).Some?
    ensures MatchKeyword(rx, keyword, text, sections).matchedText == Some(Strip(Lower(keyword)))
    ensures MatchKeyword(rx, keyword, text, sections).location == Some(TokenSetHit(rx, Strip(Lower(keyword)), sections).value.0)
    ensures MatchKeyword(rx, keyword, text, sections).matchScore == TokenSetScore(TokenSetHit(rx, Strip(Lower(keyword)), sections).value.1)
  {
    var kl := Strip(Lower(keyword));
    MatchIsDecide(rx, keyword, text, sections);
    var r := MatchKeyword(rx, keyword, text, sections);
    var t := TokenSetHit(rx, kl, sections);
    var b := Best(kl, rx.textWindows(Lower(text)), rx.ratio);
    DecideTokenSet(keyword, kl, b, |Words(kl)| > 1, t, sections, r);
  }

  // ---------------------------------------------------------------- compute_keyword_score

  /** The result for one job keyword, with the keyword's category copied in. */
  function ResultFor(rx: Recognizers, resume: ResumeParser.ParsedResume, kw: JdParser.Keyword): (r: MatchResult)
  {
    MatchKeyword(rx, kw.keyword, resume.rawText, resume.sections).(category := kw.category)
  }

  function Results(rx: Recognizers, resume: ResumeParser.ParsedResume, kws: seq<JdParser.Keyword>): (rs: seq<MatchResult>)
  {
    seq(|kws|, i requires 0 <= i < |kws| => ResultFor(rx, resume, kws[i]))
  }

  /** `2.0 if r.category == "required" else 1.0`. */
  function Weight(r: MatchResult): (w: real) {
    if r.category == "required" then 2.0 else 1.0
  }

  function TotalWeight(rs: seq<MatchResult>): (t: real)
  {
    if |rs| == 0 then 0.0 else TotalWeight(rs[..|rs| - 1]) + Weight(rs[|rs| - 1])
  }

  function WeightedSum(rs: seq<MatchResult>): (t: real)
  {
    if |rs| == 0 then 0.0 else WeightedSum(rs[..|rs| - 1]) + rs[|rs| - 1].matchScore * Weight(rs[|rs| - 1])
  }

  /** The score of a result list: 0 when empty, else the weighted mean in percent, rounded, capped at 100. */
  function KeywordScore(rs: seq<MatchResult>): (score: int)
  {
    if |rs| == 0 then 0
    else
      Percent(WeightedSum(rs), TotalWeight(rs))
  }

  /** `min(100, int(round(weighted_score / max(total_weight, 1) * 100)))`. */
  function Percent(ws: real, tw: real): (p: int)
  {
    Min(100, RoundHalfEven(ws / (if tw >= 1.0 then tw else 1.0) * 100.0))
  }

  /** The first loop of `compute_keyword_score`, over any per-keyword matcher `f`. */
  method MatchEach(f: JdParser.Keyword -> MatchResult, kws: seq<JdParser.Keyword>) returns (results: seq<MatchResult>)
    ensures |results| == |kws|
    ensures forall j :: 0 <= j < |kws| ==> results[j] == f(kws[j])
  {
    results := [];
    var i := 0;
    while i < |kws|
      invariant 0 <= i <= |kws|
      invariant |results| == i
      invariant forall j :: 0 <= j < i ==> results[j] == f(kws[j])
    {
      var result := f(kws[i]);
      results := results + [result];
      i := i + 1;
    }
  }

  /** One result per keyword, its category copied in. */
  method MatchAll(rx: Recognizers, resume: ResumeParser.ParsedResume, kws: seq<JdParser.Keyword>)
    returns (results: seq<MatchResult>)
    ensures results == Results(rx, resume, kws)
  {
    results := MatchEach(kw => ResultFor(rx, resume, kw), kws);
  }

  /** The second loop of `compute_keyword_score`: total weight and weighted score. */
  method Totals(results: seq<MatchResult>) returns (totalWeight: real, weightedScore: real)
    ensures totalWeight == TotalWeight(results) && weightedScore == WeightedSum(results)
  {
    totalWeight := 0.0;
    weightedScore := 0.0;
    var i := 0;
    while i < |results|
      invariant 0 <= i <= |results|
      invariant totalWeight == TotalWeight(results[..i]) && weightedScore == WeightedSum(results[..i])
    {
      assert results[..i + 1][..i] == results[..i];
      var weight := if results[i].category == "required" then 2.0 else 1.0;
      totalWeight := totalWeight + weight;
      weightedScore := weightedScore + results[i].matchScore * weight;
      i := i + 1;
    }
    assert results[..i] == results;
  }

  /** `compute_keyword_score`. */
  method ComputeKeywordScore(rx: Recognizers, resume: ResumeParser.ParsedResume, jd: JdParser.ParsedJd)
    returns (score: int, results: seq<MatchResult>)
    ensures results == Results(rx, resume, jd.keywords)
    ensures score == KeywordScore(results)
  {
    results := MatchAll(rx, resume, jd.keywords);
    if |results| == 0 {
      return 0, results;
    }
    var totalWeight, weightedScore := Totals(results);
    score := Percent(weightedScore, totalWeight);
  }

  /** One result per job keyword, in order, each for its own keyword with its category. */
  lemma ResultsInOrder(rx: Recognizers, resume: ResumeParser.ParsedResume, kws: seq<JdParser.Keyword>)
    ensures |Results(rx, resume, kws)| == |kws|
    ensures forall i :: 0 <= i < |kws| ==>
      Results(rx, resume, kws)[i].keyword == kws[i].keyword && Results(rx, resume, kws)[i].category == kws[i].category
  {
    forall i | 0 <= i < |kws| ensures Results(rx, resume, kws)[i].keyword == kws[i].keyword {
      MatchShape(rx, kws[i].keyword, resume.rawText, resume.sections);
    }
  }

  /** Every result's score lies in [0, 1]. */
  lemma ResultScores(rx: Recognizers, resume: ResumeParser.ParsedResume, kws: seq<JdParser.Keyword>)
    ensures forall i :: 0 <= i < |kws| ==> 0.0 <= Results(rx, resume, kws)[i].matchScore <= 1.0
  {
    forall i | 0 <= i < |kws| ensures 0.0 <= Results(rx, resume, kws)[i].matchScore <= 1.0 {
      MatchShape(rx, kws[i].keyword, resume.rawText, resume.sections);
    }
  }

  /** Each result weighs at least 1, so the total is at least the count. */
  lemma {:induction false} WeightBounds(rs: seq<MatchResult>)
    requires forall i :: 0 <= i < |rs| ==> 0.0 <= rs[i].matchScore <= 1.0
    ensures TotalWeight(rs) >= |rs| as real
    ensures 0.0 <= WeightedSum(rs) <= TotalWeight(rs)
  {
    if |rs| > 0 {
      WeightBounds(rs[..|rs| - 1]);
      var r := rs[|rs| - 1];
      assert 0.0 <= r.matchScore * Weight(r) <= Weight(r);
    }
  }

  /** The weighted mean of in-range scores is in [0, 1]. */
  lemma MeanBounds(ws: real, tw: real)
    requires tw >= 1.0 && 0.0 <= ws <= tw
    ensures 0.0 <= ws / tw <= 1.0
  {
    assert ws / tw * tw == ws;
  }

  /** With every score in [0, 1], the keyword score lies in [0, 100]. */
  lemma ScoreBounds(rs: seq<MatchResult>)
    requires forall i :: 0 <= i < |rs| ==> 0.0 <= rs[i].matchScore <= 1.0
    ensures 0 <= KeywordScore(rs) <= 100
  {
    if |rs| > 0 {
      WeightBounds(rs);
      MeanBounds(WeightedSum(rs), TotalWeight(rs));
      RoundBetweenInts(WeightedSum(rs) / TotalWeight(rs) * 100.0, 0, 100);
    }
  }

  /** The weighted sum when every score is the same `s`. */
  lemma {:induction false} UniformSum(rs: seq<MatchResult>, s: real)
    requires forall i :: 0 <= i < |rs| ==> rs[i].matchScore == s
    ensures WeightedSum(rs) == s * TotalWeight(rs)
  {
    if |rs| > 0 {
      UniformSum(rs[..|rs| - 1], s);
    }
    if |rs| > 0 {
      WeightBounds0(rs[..|rs| - 1]);
    }
  }

  /** Total weight is never negative. */
  lemma {:induction false} WeightBounds0(rs: seq<MatchResult>)
    ensures TotalWeight(rs) >= 0.0
  {
    if |rs| > 0 {
      WeightBounds0(rs[..|rs| - 1]);
    }
  }

  /** Nothing found scores 0; everything matched exactly scores 100. */
  lemma ScoreExtremes(rs: seq<MatchResult>)
    requires |rs| > 0
    ensures (forall i :: 0 <= i < |rs| ==> !rs[i].found && rs[i].matchScore == 0.0) ==> KeywordScore(rs) == 0
    ensures (forall i :: 0 <= i < |rs| ==> rs[i].matchScore == 1.0) ==> KeywordScore(rs) == 100
  {
    WeightBounds0(rs);
    if forall i :: 0 <= i < |rs| ==> !rs[i].found && rs[i].matchScore == 0.0 {
      UniformSum(rs, 0.0);
      WeightBounds(rs);
      assert WeightedSum(rs) == 0.0;
      RoundOfInt(0);
    }
    if forall i :: 0 <= i < |rs| ==> rs[i].matchScore == 1.0 {
      UniformSum(rs, 1.0);
      WeightBounds(rs);
      assert WeightedSum(rs) / TotalWeight(rs) == 1.0;
      RoundOfInt(100);
    }
  }

  /**
   * Two required keywords, one matched as a variation (0.9) and one not
   * found: each weighs 2, so the score is round(100 * 1.8 / 4) = 45.
   */
  lemma TwoRequiredExample(a: MatchResult, b: MatchResult)
    requires a.category == "required" && b.category == "required"
    requires a.matchScore == 0.9 && b.matchScore == 0.0
    ensures KeywordScore([a, b]) == 45
  {
    assert [a, b][..1] == [a] && [a][..0] == [];
    assert Weight(a) == 2.0 && Weight(b) == 2.0;
    assert TotalWeight([a]) == 2.0 && WeightedSum([a]) == 1.8;
    assert TotalWeight([a, b]) == TotalWeight([a]) + Weight(b);
    assert WeightedSum([a, b]) == WeightedSum([a]) + b.matchScore * Weight(b);
    assert 1.8 / 4.0 * 100.0 == 45.0;
    RoundOfInt(45);
  }
}
