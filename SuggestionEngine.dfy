/**
 * The rule-based suggestions of backend/app/services/suggestion_engine.py:
 * keyword, structure, semantic and LLM rules appended in a fixed order,
 * then stably sorted by non-increasing estimated impact.
 */
module SuggestionEngine {
  import opened Wrappers
  import opened Strings
  import opened Dicts
  import opened Numeric
  import opened Sorting
  import KeywordMatcher
  import StructureScorer

  /** `Suggestion`. */
  datatype Suggestion = Suggestion(priority: string, category: string, title: string, description: string, estimatedImpact: int)

  /** The two similarities of a `SemanticResult` the rules read. */
  datatype SemanticScores = SemanticScores(skillsSimilarity: real, experienceSimilarity: real)

  /** An entry of `missing_keywords_to_add`: a dict, or any other JSON value. */
  datatype KeywordHint = HintDict(entries: Dict<string>) | HintOther

  /** The parts of an `LLMAnalysis` the rules read. */
  datatype LlmAnalysis = LlmAnalysis(gaps: seq<string>, missingKeywordsToAdd: seq<KeywordHint>)

  function Impact(s: Suggestion): int { s.estimatedImpact }

  // ---------------------------------------------------------------- missing keywords

  /** `[r for r in keyword_results if not r.found and r.category == category]`. */
  function MissingOf(rs: seq<KeywordMatcher.MatchResult>, category: string): (m: seq<KeywordMatcher.MatchResult>)
  {
    if |rs| == 0 then []
    else MissingOf(rs[..|rs| - 1], category)
         + (if !rs[|rs| - 1].found && rs[|rs| - 1].category == category then [rs[|rs| - 1]] else [])
  }

  /** The missing list holds exactly the not-found results of the category, in result order. */
  lemma {:induction false} MissingOfMembers(rs: seq<KeywordMatcher.MatchResult>, category: string)
    ensures forall x :: x in MissingOf(rs, category) <==> x in rs && !x.found && x.category == category
    ensures |MissingOf(rs, category)| <= |rs|
    ensures MissingOf(rs, category) == [] <==> forall i :: 0 <= i < |rs| ==> rs[i].found || rs[i].category != category
  {
    if |rs| > 0 {
      var init := rs[..|rs| - 1];
      MissingOfMembers(init, category);
      assert rs == init + [rs[|rs| - 1]];
      assert forall i :: 0 <= i < |init| ==> init[i] == rs[i];
    }
  }

  /** The keyword names of the first five results, for the message. */
  function FirstFiveNames(rs: seq<KeywordMatcher.MatchResult>): (names: seq<string>)
    ensures |names| == Min(5, |rs|)
    ensures forall i :: 0 <= i < |names| ==> names[i] == rs[i].keyword
  {
    var n := Min(5, |rs|);
    seq(n, i requires 0 <= i < n => rs[i].keyword)
  }

  // ---------------------------------------------------------------- the rules

  /** The suggestion of a rule, listed when its condition holds. */
  function When(c: bool, s: Suggestion): (r: seq<Suggestion>)
    ensures |r| <= 1 && (c <==> r == [s]) && (!c <==> r == [])
  {
    if c then [s] else []
  }

  function RequiredSuggestion(missing: seq<KeywordMatcher.MatchResult>): (s: Suggestion)
  {
    Suggestion("high", "keywords", "Add Missing Required Keywords",
               "Your resume is missing these required keywords: " + Join(FirstFiveNames(missing), ", ")
               + ". Add them naturally to your skills or experience sections.",
               Min(15, |missing| * 3))
  }

  function PreferredSuggestion(missing: seq<KeywordMatcher.MatchResult>): (s: Suggestion)
  {
    Suggestion("medium", "keywords", "Add Preferred Keywords",
               "Consider adding these preferred keywords: " + Join(FirstFiveNames(missing), ", "),
               Min(8, |missing| * 2))
  }

  function RequiredRule(rs: seq<KeywordMatcher.MatchResult>): (r: seq<Suggestion>)
  {
    var missing := MissingOf(rs, "required");
    When(|missing| > 0, RequiredSuggestion(missing))
  }

  function PreferredRule(rs: seq<KeywordMatcher.MatchResult>): (r: seq<Suggestion>)
  {
    var missing := MissingOf(rs, "preferred");
    When(|missing| > 0, PreferredSuggestion(missing))
  }

  const SummarySuggestion := Suggestion("high", "structure", "Add a Professional Summary",
    "Add a 2-3 sentence summary at the top of your resume tailored to this role.", 5)
  const LinkedinSuggestion := Suggestion("low", "structure", "Add LinkedIn URL",
    "Include your LinkedIn profile URL in the contact section.", 2)
  const GithubSuggestion := Suggestion("low", "structure", "Add GitHub/Portfolio Link",
    "Include a link to your GitHub or portfolio to showcase your work.", 2)
  const SkillsSuggestion := Suggestion("high", "semantic", "Align Skills with Job Requirements",
    "Your skills section has low similarity to the job requirements. Reorder and rephrase skills to match the JD language.", 10)
  const ExperienceSuggestion := Suggestion("medium", "semantic", "Tailor Experience Descriptions",
    "Your experience descriptions don't closely match the job responsibilities. Rewrite bullets to use similar language as the JD.", 8)

  function ExpandSuggestion(wc: nat): (s: Suggestion)
  {
    Suggestion("high", "structure", "Expand Resume Content",
               "Your resume is only " + NatToString(wc) + " words. Aim for 400-700 words with detailed bullet points.", 8)
  }

  function CondenseSuggestion(wc: nat): (s: Suggestion)
  {
    Suggestion("medium", "structure", "Condense Resume",
               "Your resume is " + NatToString(wc) + " words. Try to keep it under 800 words for a single-page format.", 4)
  }

  function LengthRule(wc: nat): (r: seq<Suggestion>)
  {
    if wc < 300 then [ExpandSuggestion(wc)]
    else if wc > 1000 then [CondenseSuggestion(wc)]
    else []
  }

  /** The summary and profile-link rules. */
  function ProfileRules(d: StructureScorer.StructureDetails): (r: seq<Suggestion>)
  {
    When(!d.hasSummary, SummarySuggestion)
    + When(!d.hasLinkedin, LinkedinSuggestion)
    + When(!d.hasGithub, GithubSuggestion)
  }

  function StructureRules(d: StructureScorer.StructureDetails): (r: seq<Suggestion>)
  {
    ProfileRules(d) + LengthRule(d.wordCount)
  }

  function SemanticRules(sem: SemanticScores): (r: seq<Suggestion>)
  {
    When(sem.skillsSimilarity < 0.5, SkillsSuggestion)
    + When(sem.experienceSimilarity < 0.4, ExperienceSuggestion)
  }

  function GapSuggestion(gap: string): (s: Suggestion)
  {
    Suggestion("medium", "gaps", "Address Experience Gap", gap, 5)
  }

  /** The suggestions for a list of gaps, one each, in order. */
  function GapSuggestions(gaps: seq<string>): (r: seq<Suggestion>)
  {
    if |gaps| == 0 then [] else GapSuggestions(gaps[..|gaps| - 1]) + [GapSuggestion(gaps[|gaps| - 1])]
  }

  function KeywordSuggestion(e: Dict<string>): (s: Suggestion)
  {
    Suggestion("high", "keywords", "Add '" + GetOr(e, "keyword", "") + "'",
               "Add to " + GetOr(e, "where", "skills") + " section: " + GetOr(e, "how", ""), 3)
  }

  /** The suggestion for a keyword hint, present only for dict entries. */
  function HintSuggestion(h: KeywordHint): (r: seq<Suggestion>)
  {
    match h
    case HintDict(e) => [KeywordSuggestion(e)]
    case HintOther => []
  }

  function HintSuggestions(hints: seq<KeywordHint>): (r: seq<Suggestion>)
  {
    if |hints| == 0 then [] else HintSuggestions(hints[..|hints| - 1]) + HintSuggestion(hints[|hints| - 1])
  }

  function Take<T>(xs: seq<T>, n: nat): (r: seq<T>)
    ensures |r| == Min(n, |xs|) && r == xs[..|r|]
  {
    if |xs| <= n then xs else xs[..n]
  }

  function LlmRules(llm: Option<LlmAnalysis>): (r: seq<Suggestion>)
  {
    match llm
    case None => []
    case Some(a) => GapSuggestions(Take(a.gaps, 3)) + HintSuggestions(Take(a.missingKeywordsToAdd, 3))
  }

  /** Every suggestion the rules trigger, in rule-evaluation order. */
  function Triggered(rs: seq<KeywordMatcher.MatchResult>, d: StructureScorer.StructureDetails,
                     sem: SemanticScores, llm: Option<LlmAnalysis>): (r: seq<Suggestion>)
  {
    RequiredRule(rs) + PreferredRule(rs) + StructureRules(d) + SemanticRules(sem) + LlmRules(llm)
  }

  // ---------------------------------------------------------------- generate_suggestions

  /** The gap loop: one suggestion per gap, in order. */
  method GapLoop(gaps: seq<string>) returns (r: seq<Suggestion>)
    ensures r == GapSuggestions(gaps)
  {
    r := [];
    var i := 0;
    while i < |gaps|
      invariant 0 <= i <= |gaps|
      invariant r == GapSuggestions(gaps[..i])
    {
      assert gaps[..i + 1][..i] == gaps[..i];
      r := r + [GapSuggestion(gaps[i])];
      i := i + 1;
    }
    assert gaps[..i] == gaps;
  }

  /** The keyword-hint loop: one suggestion per dict entry, in order. */
  method HintLoop(hints: seq<KeywordHint>) returns (r: seq<Suggestion>)
    ensures r == HintSuggestions(hints)
  {
    r := [];
    var i := 0;
    while i < |hints|
      invariant 0 <= i <= |hints|
      invariant r == HintSuggestions(hints[..i])
    {
      assert hints[..i + 1][..i] == hints[..i];
      if hints[i].HintDict? {
        r := r + [KeywordSuggestion(hints[i].entries)];
      }
      i := i + 1;
    }
    assert hints[..i] == hints;
  }

  /** The suggestions of the keyword rules. */
  method KeywordRules(rs: seq<KeywordMatcher.MatchResult>) returns (r: seq<Suggestion>)
    ensures r == RequiredRule(rs) + PreferredRule(rs)
  {
    r := [];
    var missingRequired := MissingOf(rs, "required");
    if |missingRequired| > 0 {
      r := r + [RequiredSuggestion(missingRequired)];
    }
    assert r == RequiredRule(rs);
    var missingPreferred := MissingOf(rs, "preferred");
    if |missingPreferred| > 0 {
      r := r + [PreferredSuggestion(missingPreferred)];
    }
  }

  /** The suggestions of the summary and profile-link rules. */
  method ProfileRuleLoop(d: StructureScorer.StructureDetails) returns (r: seq<Suggestion>)
    ensures r == ProfileRules(d)
  {
    r := [];
    if !d.hasSummary { r := r + [SummarySuggestion]; }
    assert r == When(!d.hasSummary, SummarySuggestion);
    if !d.hasLinkedin { r := r + [LinkedinSuggestion]; }
    assert r == When(!d.hasSummary, SummarySuggestion) + When(!d.hasLinkedin, LinkedinSuggestion);
    if !d.hasGithub { r := r + [GithubSuggestion]; }
  }

  /** The suggestions of the word-count rules. */
  method LengthRuleStep(wc: nat) returns (r: seq<Suggestion>)
    ensures r == LengthRule(wc)
  {
    r := [];
    if wc < 300 {
      r := r + [ExpandSuggestion(wc)];
    } else if wc > 1000 {
      r := r + [CondenseSuggestion(wc)];
    }
  }

  /** The suggestions of the semantic rules. */
  method SemanticRuleLoop(sem: SemanticScores) returns (r: seq<Suggestion>)
    ensures r == SemanticRules(sem)
  {
    r := [];
    if sem.skillsSimilarity < 0.5 { r := r + [SkillsSuggestion]; }
    assert r == When(sem.skillsSimilarity < 0.5, SkillsSuggestion);
    if sem.experienceSimilarity < 0.4 { r := r + [ExperienceSuggestion]; }
  }

  /** The suggestions drawn from the LLM analysis, when there is one. */
  method LlmRuleLoop(llm: Option<LlmAnalysis>) returns (r: seq<Suggestion>)
    ensures r == LlmRules(llm)
  {
    r := [];
    if llm.Some? {
      var gaps := GapLoop(Take(llm.value.gaps, 3));
      var hints := HintLoop(Take(llm.value.missingKeywordsToAdd, 3));
      r := gaps + hints;
    }
  }

  /** `generate_suggestions`. */
  method GenerateSuggestions(rs: seq<KeywordMatcher.MatchResult>, structure: StructureScorer.StructureResult,
                             sem: SemanticScores, llm: Option<LlmAnalysis>) returns (suggestions: seq<Suggestion>)
    ensures suggestions == SortDesc(Triggered(rs, structure.details, sem, llm), Impact)
  {
    suggestions := KeywordRules(rs);
    var profile := ProfileRuleLoop(structure.details);
    var length := LengthRuleStep(structure.details.wordCount);
    suggestions := suggestions + (profile + length);
    var semantic := SemanticRuleLoop(sem);
    suggestions := suggestions + semantic;
    var fromLlm := LlmRuleLoop(llm);
    suggestions := suggestions + fromLlm;
    suggestions := SortDesc(suggestions, Impact);
  }

  // ---------------------------------------------------------------- properties

  /**
   * The output is the triggered suggestions reordered: by non-increasing
   * impact, with suggestions of equal impact in rule-evaluation order.
   */
  lemma OrderedPermutation(rs: seq<KeywordMatcher.MatchResult>, d: StructureScorer.StructureDetails,
                           sem: SemanticScores, llm: Option<LlmAnalysis>)
    ensures var t := Triggered(rs, d, sem, llm);
      && Descending(SortDesc(t, Impact), Impact)
      && multiset(SortDesc(t, Impact)) == multiset(t)
      && forall v :: WithKey(SortDesc(t, Impact), Impact, v) == WithKey(t, Impact, v)
  {
    var t := Triggered(rs, d, sem, llm);
    SortDescSorted(t, Impact);
    forall v ensures WithKey(SortDesc(t, Impact), Impact, v) == WithKey(t, Impact, v) {
      SortDescStable(t, Impact, v);
    }
  }

  lemma {:induction false} GapCount(gaps: seq<string>)
    ensures |GapSuggestions(gaps)| == |gaps|
    ensures forall i :: 0 <= i < |gaps| ==> GapSuggestions(gaps)[i] == GapSuggestion(gaps[i])
  {
    if |gaps| > 0 {
      GapCount(gaps[..|gaps| - 1]);
    }
  }

  /** The number of dict entries. */
  function DictCount(hints: seq<KeywordHint>): (n: nat)
  {
    if |hints| == 0 then 0 else DictCount(hints[..|hints| - 1]) + (if hints[|hints| - 1].HintDict? then 1 else 0)
  }

  lemma {:induction false} HintCount(hints: seq<KeywordHint>)
    ensures |HintSuggestions(hints)| == DictCount(hints) <= |hints|
    ensures forall s :: s in HintSuggestions(hints) ==> s.estimatedImpact == 3 && s.priority == "high"
  {
    if |hints| > 0 {
      HintCount(hints[..|hints| - 1]);
    }
  }

  /**
   * Without an analysis there are no gap or hint suggestions; with one,
   * one gap suggestion (impact 5) for each of the first three gaps and one
   * keyword suggestion (impact 3) for each dict among the first three hints.
   */
  lemma LlmRuleCounts(llm: Option<LlmAnalysis>)
    ensures llm.None? ==> LlmRules(llm) == []
    ensures llm.Some? ==>
      |LlmRules(llm)| == Min(3, |llm.value.gaps|) + DictCount(Take(llm.value.missingKeywordsToAdd, 3))
      && forall s :: s in LlmRules(llm) ==> s.estimatedImpact == 5 || s.estimatedImpact == 3
  {
    if llm.Some? {
      GapCount(Take(llm.value.gaps, 3));
      HintCount(Take(llm.value.missingKeywordsToAdd, 3));
      var g := GapSuggestions(Take(llm.value.gaps, 3));
      forall s | s in g ensures s.estimatedImpact == 5 {
        var i :| 0 <= i < |g| && g[i] == s;
      }
    }
  }

  /**
   * The missing-required rule fires exactly when some required result is
   * not found; its impact is `min(15, 3n)` for the `n` missing, and its
   * message names the first five of them.
   */
  lemma RequiredRuleFires(rs: seq<KeywordMatcher.MatchResult>)
    ensures |RequiredRule(rs)| <= 1
    ensures |RequiredRule(rs)| == 1 <==> exists i :: 0 <= i < |rs| && !rs[i].found && rs[i].category == "required"
    ensures |RequiredRule(rs)| == 1 ==>
      var m := MissingOf(rs, "required");
      && RequiredRule(rs)[0].estimatedImpact == Min(15, 3 * |m|)
      && RequiredRule(rs)[0].priority == "high"
      && RequiredRule(rs)[0].description
           == "Your resume is missing these required keywords: " + Join(FirstFiveNames(m), ", ")
              + ". Add them naturally to your skills or experience sections."
  {
    MissingOfMembers(rs, "required");
  }

  /** The preferred rule fires exactly when some preferred result is not found, with impact `min(8, 2n)`, priority medium. */
  lemma PreferredRuleFires(rs: seq<KeywordMatcher.MatchResult>)
    ensures |PreferredRule(rs)| <= 1
    ensures |PreferredRule(rs)| == 1 <==> exists i :: 0 <= i < |rs| && !rs[i].found && rs[i].category == "preferred"
    ensures |PreferredRule(rs)| == 1 ==>
      PreferredRule(rs)[0].estimatedImpact == Min(8, 2 * |MissingOf(rs, "preferred")|)
      && PreferredRule(rs)[0].priority == "medium"
  {
    MissingOfMembers(rs, "preferred");
  }

  /** The length rules exclude each other: short gives impact 8 (high), long gives 4 (medium), else none. */
  lemma LengthRulesExclusive(wc: nat)
    ensures |LengthRule(wc)| <= 1
    ensures wc < 300 ==> |LengthRule(wc)| == 1 && LengthRule(wc)[0].estimatedImpact == 8 && LengthRule(wc)[0].priority == "high"
    ensures wc > 1000 ==> |LengthRule(wc)| == 1 && LengthRule(wc)[0].estimatedImpact == 4 && LengthRule(wc)[0].priority == "medium"
    ensures 300 <= wc <= 1000 ==> LengthRule(wc) == []
  {
  }

  /** At most 2 keyword, 4 structure, 2 semantic and 6 LLM suggestions: 14 in all. */
  lemma AtMostFourteen(rs: seq<KeywordMatcher.MatchResult>, d: StructureScorer.StructureDetails,
                       sem: SemanticScores, llm: Option<LlmAnalysis>)
    ensures |SortDesc(Triggered(rs, d, sem, llm), Impact)| <= 14
  {
    var t := Triggered(rs, d, sem, llm);
    assert |StructureRules(d)| <= 4 by { LengthRulesExclusive(d.wordCount); }
    assert |LlmRules(llm)| <= 6 by {
      LlmRuleCounts(llm);
      if llm.Some? {
        HintCount(Take(llm.value.missingKeywordsToAdd, 3));
      }
    }
    assert |t| <= 14;
    assert |multiset(SortDesc(t, Impact))| == |multiset(t)|;
  }

  /** Every impact in `ss` lies in `lo..hi`. */
  predicate ImpactsIn(ss: seq<Suggestion>, lo: int, hi: int)
  {
    forall s :: s in ss ==> lo <= s.estimatedImpact <= hi
  }

  lemma ImpactsInAppend(a: seq<Suggestion>, b: seq<Suggestion>, lo: int, hi: int)
    requires ImpactsIn(a, lo, hi) && ImpactsIn(b, lo, hi)
    ensures ImpactsIn(a + b, lo, hi)
  {
    forall s | s in a + b ensures lo <= s.estimatedImpact <= hi {
      assert s in a || s in b;
    }
  }

  lemma ProfileImpacts(d: StructureScorer.StructureDetails)
    ensures ImpactsIn(ProfileRules(d), 2, 5)
  {
    var c := When(!d.hasSummary, SummarySuggestion) + When(!d.hasLinkedin, LinkedinSuggestion);
    ImpactsInAppend(When(!d.hasSummary, SummarySuggestion), When(!d.hasLinkedin, LinkedinSuggestion), 2, 5);
    ImpactsInAppend(c, When(!d.hasGithub, GithubSuggestion), 2, 5);
  }

  lemma KeywordImpacts(rs: seq<KeywordMatcher.MatchResult>)
    ensures ImpactsIn(RequiredRule(rs) + PreferredRule(rs), 2, 15)
  {
    ImpactsInAppend(RequiredRule(rs), PreferredRule(rs), 2, 15);
  }

  lemma StructureImpacts(d: StructureScorer.StructureDetails)
    ensures ImpactsIn(StructureRules(d), 2, 15)
  {
    ProfileImpacts(d);
    ImpactsInAppend(ProfileRules(d), LengthRule(d.wordCount), 2, 15);
  }

  lemma SemanticImpacts(sem: SemanticScores)
    ensures ImpactsIn(SemanticRules(sem), 2, 15)
  {
    ImpactsInAppend(When(sem.skillsSimilarity < 0.5, SkillsSuggestion),
                    When(sem.experienceSimilarity < 0.4, ExperienceSuggestion), 2, 15);
  }

  /** Reordering keeps the impact bounds. */
  lemma SortedImpacts(t: seq<Suggestion>, lo: int, hi: int)
    requires ImpactsIn(t, lo, hi)
    ensures ImpactsIn(SortDesc(t, Impact), lo, hi)
  {
    forall s | s in SortDesc(t, Impact) ensures lo <= s.estimatedImpact <= hi {
      assert s in multiset(SortDesc(t, Impact));
      assert s in t;
    }
  }

  /** Every triggered suggestion's impact lies between 2 and 15. */
  lemma ImpactRange(rs: seq<KeywordMatcher.MatchResult>, d: StructureScorer.StructureDetails,
                    sem: SemanticScores, llm: Option<LlmAnalysis>)
    ensures ImpactsIn(SortDesc(Triggered(rs, d, sem, llm), Impact), 2, 15)
  {
    var k, st, sm, ll := RequiredRule(rs) + PreferredRule(rs), StructureRules(d), SemanticRules(sem), LlmRules(llm);
    KeywordImpacts(rs);
    StructureImpacts(d);
    SemanticImpacts(sem);
    LlmRuleCounts(llm);
    ImpactsInAppend(k, st, 2, 15);
    ImpactsInAppend(k + st, sm, 2, 15);
    ImpactsInAppend(k + st + sm, ll, 2, 15);
    SortedImpacts(Triggered(rs, d, sem, llm), 2, 15);
  }

  /**
   * A resume with every keyword found, a summary and both profile links,
   * 300..1000 words and high similarities gets no suggestion without an
   * LLM analysis.
   */
  lemma NothingToSuggest(rs: seq<KeywordMatcher.MatchResult>, d: StructureScorer.StructureDetails, sem: SemanticScores)
    requires forall i :: 0 <= i < |rs| ==> rs[i].found
    requires d.hasSummary && d.hasLinkedin && d.hasGithub && 300 <= d.wordCount <= 1000
    requires sem.skillsSimilarity >= 0.5 && sem.experienceSimilarity >= 0.4
    ensures SortDesc(Triggered(rs, d, sem, None), Impact) == []
  {
    MissingOfMembers(rs, "required");
    MissingOfMembers(rs, "preferred");
    var t := Triggered(rs, d, sem, None);
    assert t == [];
    assert |multiset(SortDesc(t, Impact))| == 0;
  }
}
