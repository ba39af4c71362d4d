/**
 * The deterministic parts of backend/app/services/resume_optimizer.py: the
 * plain-text section editor `_replace_section`, and `optimize_resume` around
 * its language-model call (the call itself is a function value supplied by
 * the caller): the request it is given, the failure result, the resolution
 * of LaTeX bullet edits to line numbers, the plain-text edits, and the
 * assembled response.
 */
module ResumeOptimizer {
  import opened Wrappers
  import opened Strings
  import opened Dicts
  import opened Recognizers
  import opened LatexEntries
  import opened LatexParser
  import opened LatexAssembler
  import opened OptimizationValidator
  import ResumeParser
  import KeywordMatcher
  import SuggestionEngine

  // ---------------------------------------------------------------- _replace_section

  /** The section name occurs in the line, both lower-cased and the line stripped. */
  predicate Names(name: string, line: string) {
    Contains(Lower(Strip(line)), Lower(name))
  }

  /** A non-empty, upper-case stripped line of at most four words closes a replaced section. */
  predicate ClosesSection(line: string) {
    var t := Strip(line);
    t != "" && IsUpperText(t) && |Words(t)| <= 4
  }

  /** The loop state of `_replace_section`. */
  datatype EditScan = EditScan(out: seq<string>, inSection: bool, replaced: bool)

  /**
   * One line: a naming line outside a section opens one and is followed by
   * the new content; inside, lines are dropped up to a closing line, which is
   * kept. The two line tests are parameters so that the scan's lemmas do not
   * depend on how lines are matched.
   */
  function EditStep(named: string -> bool, closes: string -> bool, content: string, st: EditScan, line: string): (st': EditScan)
  {
    if named(line) && !st.inSection then EditScan(st.out + [line, content], true, true)
    else if st.inSection then (if closes(line) then EditScan(st.out + [line], false, st.replaced) else st)
    else st.(out := st.out + [line])
  }

  function EditRun(named: string -> bool, closes: string -> bool, content: string, lines: seq<string>): (st: EditScan)
    ensures st.inSection ==> st.replaced
  {
    if |lines| == 0 then EditScan([], false, false)
    else EditStep(named, closes, content, EditRun(named, closes, content, lines[..|lines| - 1]), lines[|lines| - 1])
  }

  /** The line tests of `_replace_section` for a section name. */
  function Named(name: string): string -> bool {
    line => Names(name, line)
  }

  function Closes(): string -> bool {
    line => ClosesSection(line)
  }

  /** `_replace_section(text, section_name, new_content)`. */
  function ReplaceSection(text: string, name: string, content: string): (r: string)
  {
    var st := EditRun(Named(name), Closes(), content, Split(text, '\n'));
    if st.replaced then Join(st.out, "\n") else text
  }

  /** One iteration of the `_replace_section` loop. */
  method EditLine(name: string, content: string, line: string, result: seq<string>, inSection: bool, replaced: bool)
    returns (result': seq<string>, inSection': bool, replaced': bool)
    ensures EditScan(result', inSection', replaced') == EditStep(Named(name), Closes(), content, EditScan(result, inSection, replaced), line)
  {
    result', inSection', replaced' := result, inSection, replaced;
    var lineLower := Lower(Strip(line));
    if Contains(lineLower, Lower(name)) && !inSection {
      inSection' := true;
      result' := result + [line, content];
      replaced' := true;
    } else if inSection {
      var t := Strip(line);
      if t != "" && IsUpperText(t) && |Words(t)| <= 4 {
        inSection' := false;
        result' := result + [line];
      }
    } else {
      result' := result + [line];
    }
  }

  method ReplaceSectionLoop(text: string, name: string, content: string) returns (r: string)
    ensures r == ReplaceSection(text, name, content)
  {
    var lines := Split(text, '\n');
    var result: seq<string> := [];
    var inSection := false;
    var replaced := false;
    var i := 0;
    while i < |lines|
      invariant 0 <= i <= |lines|
      invariant EditScan(result, inSection, replaced) == EditRun(Named(name), Closes(), content, lines[..i])
    {
      assert lines[..i + 1][..i] == lines[..i];
      result, inSection, replaced := EditLine(name, content, lines[i], result, inSection, replaced);
      i := i + 1;
    }
    assert lines[..i] == lines;
    if !replaced {
      return text;
    }
    r := Join(result, "\n");
  }

  /** A replacement happens exactly when some line names the section. */
  lemma {:induction false} ReplacedIff(named: string -> bool, closes: string -> bool, content: string, lines: seq<string>)
    ensures EditRun(named, closes, content, lines).replaced <==> exists i :: 0 <= i < |lines| && named(lines[i])
  {
    if |lines| > 0 {
      var init := lines[..|lines| - 1];
      ReplacedIff(named, closes, content, init);
      assert forall i :: 0 <= i < |init| ==> init[i] == lines[i];
    }
  }

  /** With no naming line the text comes back unchanged; with one, it is the edited lines joined. */
  lemma NoMatchUnchanged(text: string, name: string, content: string)
    ensures (forall i :: 0 <= i < |Split(text, '\n')| ==> !Names(name, Split(text, '\n')[i]))
            <==> ReplaceSection(text, name, content) == text && !EditRun(Named(name), Closes(), content, Split(text, '\n')).replaced
  {
    ReplacedIff(Named(name), Closes(), content, Split(text, '\n'));
  }

  /** Outside a section, lines that name nothing are copied. */
  lemma {:induction false} CopiedRun(named: string -> bool, closes: string -> bool, content: string, lines: seq<string>, lo: nat, hi: nat)
    requires lo <= hi <= |lines|
    requires !EditRun(named, closes, content, lines[..lo]).inSection
    requires forall i :: lo <= i < hi ==> !named(lines[i])
    ensures EditRun(named, closes, content, lines[..hi])
            == EditRun(named, closes, content, lines[..lo]).(out := EditRun(named, closes, content, lines[..lo]).out + lines[lo..hi])
    decreases hi
  {
    if hi > lo {
      CopiedRun(named, closes, content, lines, lo, hi - 1);
      assert lines[..hi][..hi - 1] == lines[..hi - 1];
      assert lines[lo..hi] == lines[lo..hi - 1] + [lines[hi - 1]];
    }
  }

  /** Inside a section, lines up to a closing one are dropped. */
  lemma {:induction false} DroppedRun(named: string -> bool, closes: string -> bool, content: string, lines: seq<string>, lo: nat, hi: nat)
    requires lo <= hi <= |lines|
    requires EditRun(named, closes, content, lines[..lo]).inSection
    requires forall i :: lo <= i < hi ==> !closes(lines[i])
    ensures EditRun(named, closes, content, lines[..hi]) == EditRun(named, closes, content, lines[..lo])
    decreases hi
  {
    if hi > lo {
      DroppedRun(named, closes, content, lines, lo, hi - 1);
      assert lines[..hi][..hi - 1] == lines[..hi - 1];
    }
  }

  /** The output only grows as lines are read. */
  lemma {:induction false} OutputGrows(named: string -> bool, closes: string -> bool, content: string, lines: seq<string>, i: nat)
    requires i <= |lines|
    ensures var pre := EditRun(named, closes, content, lines[..i]).out;
      |pre| <= |EditRun(named, closes, content, lines).out| && EditRun(named, closes, content, lines).out[..|pre|] == pre
    decreases |lines|
  {
    if i < |lines| {
      var init := lines[..|lines| - 1];
      assert init[..i] == lines[..i];
      OutputGrows(named, closes, content, init, i);
    } else {
      assert lines[..i] == lines;
    }
  }

  /**
   * When line `k` is the first to name the section, the result begins with
   * the lines before it, that line, and the new content.
   */
  lemma ReplaceKeepsHead(text: string, name: string, content: string, k: nat)
    requires k < |Split(text, '\n')|
    requires Names(name, Split(text, '\n')[k])
    requires forall i :: 0 <= i < k ==> !Names(name, Split(text, '\n')[i])
    ensures var st := EditRun(Named(name), Closes(), content, Split(text, '\n'));
      && ReplaceSection(text, name, content) == Join(st.out, "\n")
      && |st.out| >= k + 2 && st.out[..k + 2] == Split(text, '\n')[..k + 1] + [content]
  {
    KeepsHeadRun(Named(name), Closes(), content, Split(text, '\n'), k);
  }

  lemma KeepsHeadRun(named: string -> bool, closes: string -> bool, content: string, lines: seq<string>, k: nat)
    requires k < |lines|
    requires named(lines[k])
    requires forall i :: 0 <= i < k ==> !named(lines[i])
    ensures var st := EditRun(named, closes, content, lines);
      && st.replaced
      && |st.out| >= k + 2 && st.out[..k + 2] == lines[..k + 1] + [content]
  {
    OpenedUntil(named, closes, content, lines, k, k + 1);
    OutputGrows(named, closes, content, lines, k + 1);
    ReplacedIff(named, closes, content, lines);
  }

  /**
   * One section replaced: the lines before the first naming line `k` and
   * that line are kept, the new content follows it, the lines after it are
   * dropped up to the first closing line `j` (or to the end when there is
   * none), and from `j` on the text is copied when no later line names the
   * section again.
   */
  lemma ReplaceOneSection(text: string, name: string, content: string, k: nat, j: nat)
    requires 0 <= k < j <= |Split(text, '\n')|
    requires Names(name, Split(text, '\n')[k])
    requires forall i :: 0 <= i < k ==> !Names(name, Split(text, '\n')[i])
    requires forall i :: k < i < j ==> !ClosesSection(Split(text, '\n')[i])
    requires j < |Split(text, '\n')| ==> ClosesSection(Split(text, '\n')[j])
    requires forall i :: j < i < |Split(text, '\n')| ==> !Names(name, Split(text, '\n')[i])
    ensures var lines := Split(text, '\n');
      ReplaceSection(text, name, content) == Join(lines[..k + 1] + [content] + lines[j..], "\n")
  {
    var lines := Split(text, '\n');
    OneSectionRun(Named(name), Closes(), content, lines, k, j);
  }

  /** Up to the closing line, the scan holds the lines before the section, its naming line and the new content. */
  lemma OpenedUntil(named: string -> bool, closes: string -> bool, content: string, lines: seq<string>, k: nat, j: nat)
    requires 0 <= k < j <= |lines|
    requires named(lines[k])
    requires forall i :: 0 <= i < k ==> !named(lines[i])
    requires forall i :: k < i < j ==> !closes(lines[i])
    ensures EditRun(named, closes, content, lines[..j]) == EditScan(lines[..k + 1] + [content], true, true)
  {
    assert lines[..0] == [];
    CopiedRun(named, closes, content, lines, 0, k);
    assert lines[..k + 1][..k] == lines[..k];
    assert lines[..k] + [lines[k], content] == lines[..k + 1] + [content];
    DroppedRun(named, closes, content, lines, k + 1, j);
  }

  /** `ReplaceOneSection` on the line scan, for any two line tests. */
  lemma OneSectionRun(named: string -> bool, closes: string -> bool, content: string, lines: seq<string>, k: nat, j: nat)
    requires 0 <= k < j <= |lines|
    requires named(lines[k])
    requires forall i :: 0 <= i < k ==> !named(lines[i])
    requires forall i :: k < i < j ==> !closes(lines[i])
    requires j < |lines| ==> closes(lines[j])
    requires forall i :: j < i < |lines| ==> !named(lines[i])
    ensures EditRun(named, closes, content, lines) == EditScan(lines[..k + 1] + [content] + lines[j..], j == |lines|, true)
  {
    OpenedUntil(named, closes, content, lines, k, j);
    var head := lines[..k + 1] + [content];
    if j < |lines| {
      ClosedRun(named, closes, content, lines, j, head);
    } else {
      assert lines[..j] == lines;
      assert head + lines[j..] == head;
    }
  }

  /** After the closing line at `j`, the rest of the document is copied unchanged. */
  lemma ClosedRun(named: string -> bool, closes: string -> bool, content: string, lines: seq<string>, j: nat, head: seq<string>)
    requires j < |lines| && closes(lines[j])
    requires forall i :: j < i < |lines| ==> !named(lines[i])
    requires EditRun(named, closes, content, lines[..j]) == EditScan(head, true, true)
    ensures EditRun(named, closes, content, lines) == EditScan(head + lines[j..], false, true)
  {
    ClosedAt(named, closes, content, lines, j, head);
    CopiedRun(named, closes, content, lines, j + 1, |lines|);
    TailJoin(lines, head, j);
  }

  /** A closing line ends the open section and is kept. */
  lemma ClosedAt(named: string -> bool, closes: string -> bool, content: string, lines: seq<string>, j: nat, head: seq<string>)
    requires j < |lines| && closes(lines[j])
    requires EditRun(named, closes, content, lines[..j]) == EditScan(head, true, true)
    ensures EditRun(named, closes, content, lines[..j + 1]) == EditScan(head + [lines[j]], false, true)
  {
    assert lines[..j + 1][..j] == lines[..j];
    assert lines[..j + 1][j] == lines[j];
  }

  /**
   * Outside a section the scan forgets what it has read: the lines after a
   * prefix that ends outside a section are edited as a document of their
   * own, and that output is appended.
   */
  lemma {:induction false} RunAfterClosed(named: string -> bool, closes: string -> bool, content: string,
                                          p: seq<string>, q: seq<string>)
    requires !EditRun(named, closes, content, p).inSection
    ensures var a := EditRun(named, closes, content, p);
      var b := EditRun(named, closes, content, q);
      EditRun(named, closes, content, p + q) == EditScan(a.out + b.out, b.inSection, a.replaced || b.replaced)
    decreases |q|
  {
    if |q| == 0 {
      assert p + q == p;
    } else {
      var q' := q[..|q| - 1];
      assert (p + q)[..|p + q| - 1] == p + q';
      assert (p + q)[|p + q| - 1] == q[|q| - 1];
      RunAfterClosed(named, closes, content, p, q');
    }
  }

  /** After the closing line at `j`, the rest of the lines are edited afresh, so a later naming line starts another replacement. */
  lemma RestartAfterClose(named: string -> bool, closes: string -> bool, content: string, lines: seq<string>, j: nat, head: seq<string>)
    requires j < |lines| && closes(lines[j])
    requires EditRun(named, closes, content, lines[..j]) == EditScan(head, true, true)
    ensures var b := EditRun(named, closes, content, lines[j + 1..]);
      EditRun(named, closes, content, lines) == EditScan(head + [lines[j]] + b.out, b.inSection, true)
  {
    ClosedAt(named, closes, content, lines, j, head);
    RunAfterClosed(named, closes, content, lines[..j + 1], lines[j + 1..]);
    assert lines[..j + 1] + lines[j + 1..] == lines;
  }

  /**
   * A section named at `k` and closed at `j`: the result is the lines up to
   * `k`, the new content, the closing line, and then the rest of the text
   * with its own sections of that name replaced in the same way.
   */
  lemma ReplaceThenRestart(text: string, name: string, content: string, k: nat, j: nat)
    requires 0 <= k < j < |Split(text, '\n')|
    requires Names(name, Split(text, '\n')[k])
    requires forall i :: 0 <= i < k ==> !Names(name, Split(text, '\n')[i])
    requires forall i :: k < i < j ==> !ClosesSection(Split(text, '\n')[i])
    requires ClosesSection(Split(text, '\n')[j])
    ensures var lines := Split(text, '\n');
      ReplaceSection(text, name, content)
        == Join(lines[..k + 1] + [content] + [lines[j]] + EditRun(Named(name), Closes(), content, lines[j + 1..]).out, "\n")
  {
    var lines := Split(text, '\n');
    OpenedUntil(Named(name), Closes(), content, lines, k, j);
    RestartAfterClose(Named(name), Closes(), content, lines, j, lines[..k + 1] + [content]);
  }

  /**
   * Two replacements: after the section named at `k` closes at `j`, the
   * next naming line `k2` is kept and followed by the new content again.
   */
  lemma SecondReplacement(named: string -> bool, closes: string -> bool, content: string, lines: seq<string>, k: nat, j: nat, k2: nat)
    requires 0 <= k < j < k2 < |lines|
    requires named(lines[k])
    requires forall i :: 0 <= i < k ==> !named(lines[i])
    requires forall i :: k < i < j ==> !closes(lines[i])
    requires closes(lines[j])
    requires named(lines[k2])
    requires forall i :: j < i < k2 ==> !named(lines[i])
    ensures var out := EditRun(named, closes, content, lines).out;
      var pre := lines[..k + 1] + [content] + lines[j..k2 + 1] + [content];
      |out| >= |pre| && out[..|pre|] == pre
  {
    var head := lines[..k + 1] + [content];
    OpenedUntil(named, closes, content, lines, k, j);
    RestartAfterClose(named, closes, content, lines, j, head);
    var rest := lines[j + 1..];
    var k' := k2 - j - 1;
    assert rest[k'] == lines[k2];
    assert forall i :: 0 <= i < k' ==> rest[i] == lines[j + 1 + i];
    KeepsHeadRun(named, closes, content, rest, k');
    assert rest[..k' + 1] == lines[j + 1..k2 + 1];
    assert [lines[j]] + lines[j + 1..k2 + 1] == lines[j..k2 + 1];
    PrefixGlue(head, lines[j], EditRun(named, closes, content, rest).out, lines[j + 1..k2 + 1], content, lines[j..k2 + 1]);
  }

  lemma PrefixGlue<T>(head: seq<T>, x: T, b: seq<T>, mid: seq<T>, c: T, all: seq<T>)
    requires |b| >= |mid| + 1 && b[..|mid| + 1] == mid + [c]
    requires [x] + mid == all
    ensures var out := head + [x] + b;
      var pre := head + all + [c];
      |out| >= |pre| && out[..|pre|] == pre
  {
    var out := head + [x] + b;
    var pre := head + all + [c];
    assert forall i :: 0 <= i < |pre| ==> out[i] == pre[i];
  }

  lemma TailJoin(lines: seq<string>, head: seq<string>, j: nat)
    requires j < |lines|
    ensures head + [lines[j]] + lines[j + 1..|lines|] == head + lines[j..]
    ensures lines[..|lines|] == lines
  {
    assert lines[j..] == [lines[j]] + lines[j + 1..|lines|];
  }

  // ---------------------------------------------------------------- the optimisation call

  /** An entry of `bullet_changes`: a dict, each field `None` where its key is absent, or any other JSON value. */
  datatype ChangeHint =
    | ChangeDict(section: Option<string>, entryIndex: Option<int>, bulletIndex: Option<int>,
                 original: Option<string>, optimized: Option<string>,
                 originalLatex: Option<string>, optimizedLatex: Option<string>,
                 keywordsAdded: Option<seq<string>>, reason: Option<string>)
    | ChangeOther

  /** An entry of `keywords_impossible_to_add`. */
  datatype ImpossibleHint = ImpossibleDict(keyword: Option<string>, reason: Option<string>) | ImpossibleOther

  /** A non-empty JSON object from the optimisation call; absent keys are `None` or empty lists. */
  datatype LlmResult = LlmResult(
    optimizedSummary: Option<string>,
    optimizedAbout: Option<string>,
    optimizedSkills: Option<string>,
    optimizedSkillsBlock: Option<string>,
    bulletChanges: seq<ChangeHint>,
    keywordsSuccessfullyAdded: seq<string>,
    keywordsImpossibleToAdd: seq<ImpossibleHint>,
    estimatedNewScore: Option<int>
  )

  /** The parts of an `ATSAnalysisResponse` the optimiser reads. */
  datatype Analysis = Analysis(
    keywordResults: seq<KeywordMatcher.MatchResult>,
    parsedResume: ResumeParser.ParsedResume,
    sectionSimilarities: Dict<real>,
    overallScore: int
  )

  /** The arguments of `_call_optimization_llm`. */
  datatype OptimizeRequest = OptimizeRequest(
    resumeText: string,
    jdText: string,
    missingRequired: seq<string>,
    missingPreferred: seq<string>,
    existingSkills: seq<string>,
    currentScore: int,
    weakSections: seq<string>,
    isLatex: bool,
    rawLatex: Option<string>
  )

  /** `[r.keyword for r in keyword_results if not r.found and r.category == category]`. */
  function MissingKeywords(rs: seq<KeywordMatcher.MatchResult>, category: string): (ks: seq<string>)
    ensures |ks| == |SuggestionEngine.MissingOf(rs, category)|
    ensures forall i :: 0 <= i < |ks| ==> ks[i] == SuggestionEngine.MissingOf(rs, category)[i].keyword
  {
    var m := SuggestionEngine.MissingOf(rs, category);
    seq(|m|, i requires 0 <= i < |m| => m[i].keyword)
  }

  /** The missing lists hold the keywords of exactly the not-found results of their category, in result order. */
  lemma MissingKeywordsMembers(rs: seq<KeywordMatcher.MatchResult>, category: string)
    ensures forall k :: k in MissingKeywords(rs, category)
              <==> exists i :: 0 <= i < |rs| && !rs[i].found && rs[i].category == category && rs[i].keyword == k
  {
    var m := SuggestionEngine.MissingOf(rs, category);
    SuggestionEngine.MissingOfMembers(rs, category);
    forall k | k in MissingKeywords(rs, category)
      ensures exists i :: 0 <= i < |rs| && !rs[i].found && rs[i].category == category && rs[i].keyword == k
    {
      var j :| 0 <= j < |m| && MissingKeywords(rs, category)[j] == k;
      assert m[j] in m;
    }
    forall k | exists i :: 0 <= i < |rs| && !rs[i].found && rs[i].category == category && rs[i].keyword == k
      ensures k in MissingKeywords(rs, category)
    {
      var i :| 0 <= i < |rs| && !rs[i].found && rs[i].category == category && rs[i].keyword == k;
      assert rs[i] in m;
      var j :| 0 <= j < |m| && m[j] == rs[i];
      assert MissingKeywords(rs, category)[j] == k;
    }
  }

  /** `[k for k, v in section_similarities.items() if v < 50]`. */
  function WeakSections(sims: Dict<real>): (ks: seq<string>)
  {
    if |sims| == 0 then []
    else WeakSections(sims[..|sims| - 1]) + (if sims[|sims| - 1].1 < 50.0 then [sims[|sims| - 1].0] else [])
  }

  lemma {:induction false} WeakSectionsMembers(sims: Dict<real>)
    ensures forall k :: k in WeakSections(sims) <==> exists i :: 0 <= i < |sims| && sims[i].0 == k && sims[i].1 < 50.0
  {
    if |sims| > 0 {
      var init := sims[..|sims| - 1];
      WeakSectionsMembers(init);
      assert forall i :: 0 <= i < |init| ==> init[i] == sims[i];
    }
  }

  /** `raw_latex is not None and is_latex(raw_latex)`. */
  predicate LatexInput(rawLatex: Option<string>) {
    rawLatex.Some? && ResumeParser.IsLatex(rawLatex.value)
  }

  /** The request `optimize_resume` sends. */
  function Request(resumeText: string, jdText: string, analysis: Analysis, rawLatex: Option<string>): (q: OptimizeRequest)
    ensures q.isLatex <==> LatexInput(rawLatex)
    ensures q.currentScore == analysis.overallScore && q.existingSkills == analysis.parsedResume.skills
    ensures q.resumeText == resumeText && q.jdText == jdText && q.rawLatex == rawLatex
    ensures q.missingRequired == MissingKeywords(analysis.keywordResults, "required")
    ensures q.missingPreferred == MissingKeywords(analysis.keywordResults, "preferred")
    ensures q.weakSections == WeakSections(analysis.sectionSimilarities)
    ensures var rs := analysis.keywordResults;
      forall k :: k in q.missingRequired <==>
        (exists i :: 0 <= i < |rs| && !rs[i].found && rs[i].category == "required" && rs[i].keyword == k)
    ensures var rs := analysis.keywordResults;
      forall k :: k in q.missingPreferred <==>
        (exists i :: 0 <= i < |rs| && !rs[i].found && rs[i].category == "preferred" && rs[i].keyword == k)
    ensures var sims := analysis.sectionSimilarities;
      forall k :: k in q.weakSections <==> (exists i :: 0 <= i < |sims| && sims[i].0 == k && sims[i].1 < 50.0)
  {
    MissingKeywordsMembers(analysis.keywordResults, "required");
    MissingKeywordsMembers(analysis.keywordResults, "preferred");
    WeakSectionsMembers(analysis.sectionSimilarities);
    OptimizeRequest(resumeText, jdText,
                    MissingKeywords(analysis.keywordResults, "required"),
                    MissingKeywords(analysis.keywordResults, "preferred"),
                    analysis.parsedResume.skills, analysis.overallScore,
                    WeakSections(analysis.sectionSimilarities),
                    LatexInput(rawLatex), rawLatex)
  }

  // ---------------------------------------------------------------- the response

  datatype ResumeChange = ResumeChange(section: string, changeType: string, original: string, optimized: string,
                                       originalLatex: Option<string>, optimizedLatex: Option<string>,
                                       keywordsAdded: seq<string>, reason: string)

  datatype BulletChange = BulletChange(section: string, entryIndex: int, bulletIndex: int, original: string,
                                       optimized: string, keywordsAdded: seq<string>, reason: string)

  datatype LatexBulletChange = LatexBulletChange(section: string, entryIndex: int, bulletIndex: int,
                                                 originalLatex: string, optimizedLatex: string, lineNumber: int,
                                                 keywordsAdded: seq<string>, reason: string)

  datatype KeywordImpossible = KeywordImpossible(keyword: string, reason: string)

  /** `OptimizeResponse`; the fields `optimize_resume` leaves out take their defaults. */
  datatype OptimizeResponse = OptimizeResponse(
    inputFormat: string,
    originalText: string,
    optimizedText: string,
    originalLatex: Option<string>,
    optimizedLatex: Option<string>,
    originalScore: int,
    optimizedScore: int,
    scoreDelta: int,
    changes: seq<ResumeChange>,
    validation: Validation,
    latexValidation: Option<LatexValidation>,
    fabricatedSkillsRemoved: set<string>,
    keywordsAdded: seq<string>,
    keywordsImpossible: seq<KeywordImpossible>,
    optimizedSummary: string,
    optimizedSkills: string,
    optimizedBullets: seq<BulletChange>,
    optimizedAboutLatex: Option<string>,
    optimizedSkillsLatex: Option<string>,
    optimizedBulletsLatex: Option<seq<LatexBulletChange>>
  )

  function InputFormat(isLatex: bool): string {
    if isLatex then "latex" else "plain"
  }

  /** The response when the call returns nothing usable. */
  function Failed(resumeText: string, analysis: Analysis, isLatex: bool): (r: OptimizeResponse)
  {
    OptimizeResponse(InputFormat(isLatex), resumeText, resumeText, None, None,
                     analysis.overallScore, analysis.overallScore, 0, [], Validation(false, {}), None, {},
                     [], [], "", "", [], None, None, None)
  }

  /** `d.get(key, "")`, a JSON null read as empty. */
  function Field(o: Option<string>): string {
    o.GetOr("")
  }

  function SummaryOf(l: LlmResult): (s: string)
    ensures s == "" <==> Field(l.optimizedSummary) == "" && Field(l.optimizedAbout) == ""
  {
    if Field(l.optimizedSummary) != "" then Field(l.optimizedSummary) else Field(l.optimizedAbout)
  }

  function SkillsOf(l: LlmResult): (s: string)
    ensures s == "" <==> Field(l.optimizedSkills) == "" && Field(l.optimizedSkillsBlock) == ""
  {
    if Field(l.optimizedSkills) != "" then Field(l.optimizedSkills) else Field(l.optimizedSkillsBlock)
  }

  /** A text rewrite of the summary or the skills. */
  function Rewrite(rx: Recognizers, section: string, text: string, isLatex: bool, reason: string): ResumeChange {
    ResumeChange(section, "rewrite", "", if isLatex then rx.latexToPlain(text) else text, None,
                 if isLatex then Some(text) else None, [], reason)
  }

  /** The fields of a rewrite record for `section` with the new text `text`. */
  predicate RewriteRecord(rx: Recognizers, c: ResumeChange, section: string, text: string, isLatex: bool) {
    && c.section == section && c.changeType == "rewrite" && c.original == "" && c.originalLatex.None?
    && c.optimized == PlainIfLatex(rx, text, isLatex)
    && c.optimizedLatex == (if isLatex then Some(text) else None)
    && c.keywordsAdded == []
  }

  /** The change records: the summary rewrite first, then the skills rewrite, each only for a non-empty text. */
  function Changes(rx: Recognizers, summary: string, skills: string, isLatex: bool): (cs: seq<ResumeChange>)
    ensures |cs| == (if summary != "" then 1 else 0) + (if skills != "" then 1 else 0)
    ensures summary != "" ==>
      RewriteRecord(rx, cs[0], "summary", summary, isLatex) && cs[0].reason == "Aligned summary with job description"
    ensures skills != "" ==>
      RewriteRecord(rx, cs[|cs| - 1], "skills", skills, isLatex)
      && cs[|cs| - 1].reason == "Reordered and aligned skills with JD requirements"
  {
    (if summary != "" then [Rewrite(rx, "summary", summary, isLatex, "Aligned summary with job description")] else [])
    + (if skills != "" then [Rewrite(rx, "skills", skills, isLatex, "Reordered and aligned skills with JD requirements")] else [])
  }

  /** `keywords_impossible`: one record per dict entry, in order. */
  function Impossible(hs: seq<ImpossibleHint>): (ks: seq<KeywordImpossible>)
  {
    if |hs| == 0 then []
    else Impossible(hs[..|hs| - 1])
         + match hs[|hs| - 1]
           case ImpossibleDict(k, why) => [KeywordImpossible(Field(k), Field(why))]
           case ImpossibleOther => []
  }

  function PlainIfLatex(rx: Recognizers, text: string, isLatex: bool): string {
    if isLatex then rx.latexToPlain(text) else text
  }

  /** `set(s.lower() for s in parsed_resume.skills)`. */
  function OriginalSkills(analysis: Analysis): set<string> {
    LowerSet(set s | s in analysis.parsedResume.skills)
  }

  /** The response once the optimised text is known. */
  function Response(rx: Recognizers, resumeText: string, analysis: Analysis, rawLatex: Option<string>, l: LlmResult,
                    isLatex: bool, optimizedText: string, optimizedLatex: Option<string>,
                    latexValidation: Option<LatexValidation>, bullets: seq<BulletChange>,
                    latexBullets: Option<seq<LatexBulletChange>>): (r: OptimizeResponse)
    ensures r.originalText == resumeText && r.optimizedText == optimizedText
    ensures r.originalScore == analysis.overallScore
    ensures r.optimizedScore == l.estimatedNewScore.GetOr(analysis.overallScore + 5)
    ensures r.scoreDelta == r.optimizedScore - r.originalScore
    ensures r.validation == ValidateOptimization(rx, resumeText, optimizedText, OriginalSkills(analysis))
    ensures r.fabricatedSkillsRemoved == r.validation.fabricatedSkills
    ensures r.validation.valid <==> r.fabricatedSkillsRemoved == {}
  {
    var summary := SummaryOf(l);
    var skills := SkillsOf(l);
    var validation := ValidateOptimization(rx, resumeText, optimizedText, OriginalSkills(analysis));
    var estimate := l.estimatedNewScore.GetOr(analysis.overallScore + 5);
    OptimizeResponse(InputFormat(isLatex), resumeText, optimizedText, rawLatex, optimizedLatex,
                     analysis.overallScore, estimate, estimate - analysis.overallScore,
                     Changes(rx, summary, skills, isLatex), validation, latexValidation, validation.fabricatedSkills,
                     l.keywordsSuccessfullyAdded, Impossible(l.keywordsImpossibleToAdd),
                     PlainIfLatex(rx, summary, isLatex), PlainIfLatex(rx, skills, isLatex), bullets,
                     if isLatex then Some(summary) else None, if isLatex then Some(skills) else None, latexBullets)
  }

  // ---------------------------------------------------------------- LaTeX bullet edits

  /** Python `xs[i]` where `i < len(xs)`: a negative index counts from the end, and below `-len(xs)` it raises. */
  function PyIndex<T>(xs: seq<T>, i: int): (r: Option<T>)
    requires i < |xs|
    ensures 0 <= i ==> r == Some(xs[i])
    ensures r.None? <==> i < -|xs|
  {
    if i >= 0 then Some(xs[i]) else if i + |xs| >= 0 then Some(xs[i + |xs|]) else None
  }

  /** The entries a change of `section` is resolved against. */
  function EntriesFor(m: LatexResumeMap, section: string): seq<LatexEntry> {
    if section == "experience" then m.experienceEntries else m.projectEntries
  }

  /** What looking a bullet up gives: no line, a line number, or an `IndexError`. */
  datatype Lookup = Unresolved | AtLine(n: int) | Raises

  function LineOf(m: LatexResumeMap, section: string, entryIdx: int, bulletIdx: int): (l: Lookup)
  {
    var entries := EntriesFor(m, section);
    if |entries| > 0 && entryIdx < |entries| then
      match PyIndex(entries, entryIdx)
      case None => Raises
      case Some(entry) =>
        if bulletIdx < |entry.bullets| then
          match PyIndex(entry.bullets, bulletIdx)
          case None => Raises
          case Some(b) => AtLine(b.lineNumber)
        else Unresolved
    else Unresolved
  }

  /** What one entry of `bullet_changes` does to the bullet map. */
  datatype Outcome = Skip | Edit(change: LatexBulletChange) | Fail

  /**
   * A change without `optimized_latex` is skipped. Otherwise the defaulted
   * section and indices are looked up: a raising index fails, and a positive
   * line yields an edit of that line carrying the change's fields.
   */
  function OutcomeOf(m: LatexResumeMap, c: ChangeHint): (o: Outcome)
    ensures o.Edit? ==> o.change.lineNumber > 0
    ensures c.ChangeOther? || c.optimizedLatex.None? ==> o == Skip
    ensures c.ChangeDict? && c.optimizedLatex.Some? ==>
      var l := LineOf(m, c.section.GetOr("experience"), c.entryIndex.GetOr(0), c.bulletIndex.GetOr(0));
      && (o.Fail? <==> l.Raises?)
      && (o.Edit? <==> l.AtLine? && l.n > 0)
      && (o.Edit? ==> o.change == LatexBulletChange(c.section.GetOr("experience"), c.entryIndex.GetOr(0),
                                                     c.bulletIndex.GetOr(0), Field(c.originalLatex),
                                                     c.optimizedLatex.value, l.n, c.keywordsAdded.GetOr([]),
                                                     Field(c.reason)))
  {
    match c
    case ChangeOther => Skip
    case ChangeDict(section, entryIndex, bulletIndex, _, _, originalLatex, optimizedLatex, keywordsAdded, reason) =>
      if optimizedLatex.None? then Skip
      else
        var sec := section.GetOr("experience");
        var e := entryIndex.GetOr(0);
        var b := bulletIndex.GetOr(0);
        match LineOf(m, sec, e, b)
        case Raises => Fail
        case Unresolved => Skip
        case AtLine(n) =>
          if n > 0 then Edit(LatexBulletChange(sec, e, b, Field(originalLatex), optimizedLatex.value, n,
                                               keywordsAdded.GetOr([]), Field(reason)))
          else Skip
  }

  /** The bullet map as `(line, text)` pairs in assignment order, and the change records. */
  datatype Resolution = Resolution(edits: seq<(int, string)>, applied: seq<LatexBulletChange>)

  /**
   * The resolution loop; `None` once a lookup raises. Each applied change
   * comes from its own change and is recorded as an edit of its positive
   * line number with its new text.
   */
  function Resolve(m: LatexResumeMap, cs: seq<ChangeHint>): (r: Option<Resolution>)
    ensures r.Some? ==> |r.value.edits| == |r.value.applied| <= |cs|
    ensures r.Some? ==> forall k :: 0 <= k < |r.value.applied| ==>
      r.value.applied[k].lineNumber > 0 && r.value.edits[k] == (r.value.applied[k].lineNumber, r.value.applied[k].optimizedLatex)
  {
    if |cs| == 0 then Some(Resolution([], []))
    else
      var prev := Resolve(m, cs[..|cs| - 1]);
      if prev.None? then None
      else match OutcomeOf(m, cs[|cs| - 1])
        case Skip => prev
        case Fail => None
        case Edit(ch) => Some(Resolution(prev.value.edits + [(ch.lineNumber, ch.optimizedLatex)], prev.value.applied + [ch]))
  }

  lemma {:induction false} ResolveAborts(m: LatexResumeMap, cs: seq<ChangeHint>, i: nat)
    requires i <= |cs| && Resolve(m, cs[..i]) == None
    ensures Resolve(m, cs) == None
    decreases |cs|
  {
    if i < |cs| {
      assert cs[..|cs| - 1][..i] == cs[..i];
      ResolveAborts(m, cs[..|cs| - 1], i);
    } else {
      assert cs[..i] == cs;
    }
  }

  method ResolveBullets(m: LatexResumeMap, cs: seq<ChangeHint>) returns (r: Option<Resolution>)
    ensures r == Resolve(m, cs)
  {
    var edits: seq<(int, string)> := [];
    var applied: seq<LatexBulletChange> := [];
    var i := 0;
    while i < |cs|
      invariant 0 <= i <= |cs|
      invariant Resolve(m, cs[..i]) == Some(Resolution(edits, applied))
    {
      assert cs[..i + 1][..i] == cs[..i];
      var outcome := OutcomeOf(m, cs[i]);
      if outcome.Fail? {
        ResolveAborts(m, cs, i + 1);
        return None;
      }
      if outcome.Edit? {
        edits := edits + [(outcome.change.lineNumber, outcome.change.optimizedLatex)];
        applied := applied + [outcome.change];
      }
      i := i + 1;
    }
    assert cs[..i] == cs;
    r := Some(Resolution(edits, applied));
  }

  /** Predicate `c` edits line `n`. */
  predicate EditsLine(m: LatexResumeMap, c: ChangeHint, n: int) {
    OutcomeOf(m, c).Edit? && OutcomeOf(m, c).change.lineNumber == n
  }

  /**
   * For non-negative indices a change is resolved exactly when the entry and
   * the bullet exist, to that bullet's parsed line number; a change of any
   * section other than "experience" is looked up among the project entries.
   */
  lemma LineOfNonNegative(m: LatexResumeMap, section: string, e: int, b: int)
    requires e >= 0 && b >= 0
    ensures var entries := if section == "experience" then m.experienceEntries else m.projectEntries;
      LineOf(m, section, e, b)
        == if e < |entries| && b < |entries[e].bullets| then AtLine(entries[e].bullets[b].lineNumber) else Unresolved
  {
  }

  /** Only a negative index can raise. */
  lemma RaisesOnlyNegative(m: LatexResumeMap, section: string, e: int, b: int)
    requires LineOf(m, section, e, b) == Raises
    ensures e < -|EntriesFor(m, section)| || b < 0
  {
  }

  /**
   * After the loop the bullet map holds, for each line number, the text of
   * the last change that resolved to it, and nothing for a line no change
   * resolved to.
   */
  lemma {:induction false} LastEditWins(m: LatexResumeMap, cs: seq<ChangeHint>, n: int)
    requires Resolve(m, cs).Some?
    ensures EditFor(Resolve(m, cs).value.edits, n).Some? <==> exists j :: 0 <= j < |cs| && EditsLine(m, cs[j], n)
    ensures EditFor(Resolve(m, cs).value.edits, n).Some? ==>
      exists j :: 0 <= j < |cs| && EditsLine(m, cs[j], n)
        && EditFor(Resolve(m, cs).value.edits, n).value == OutcomeOf(m, cs[j]).change.optimizedLatex
        && forall k :: j < k < |cs| ==> !EditsLine(m, cs[k], n)
  {
    var f := EditOf(m);
    ResolveEdits(m, cs);
    LastWinsOf(f, cs, n);
    forall j | 0 <= j < |cs|
      ensures Hits(f, cs[j], n) == EditsLine(m, cs[j], n)
      ensures EditsLine(m, cs[j], n) ==> f(cs[j]).value.1 == OutcomeOf(m, cs[j]).change.optimizedLatex
    {
    }
  }

  /** The edit a change contributes to the bullet map, if any. */
  function EditOf(m: LatexResumeMap): (f: ChangeHint -> Option<(int, string)>)
  {
    c => if OutcomeOf(m, c).Edit? then Some((OutcomeOf(m, c).change.lineNumber, OutcomeOf(m, c).change.optimizedLatex)) else None
  }

  /** The edits contributed by `cs`, in order. */
  function EditsOf<T>(f: T -> Option<(int, string)>, cs: seq<T>): (es: seq<(int, string)>)
    ensures |es| <= |cs|
  {
    if |cs| == 0 then []
    else EditsOf(f, cs[..|cs| - 1]) + (if f(cs[|cs| - 1]).Some? then [f(cs[|cs| - 1]).value] else [])
  }

  predicate Hits<T>(f: T -> Option<(int, string)>, c: T, n: int) {
    f(c).Some? && f(c).value.0 == n
  }

  /** A successful resolution records exactly the edits of its changes. */
  lemma {:induction false} ResolveEdits(m: LatexResumeMap, cs: seq<ChangeHint>)
    requires Resolve(m, cs).Some?
    ensures Resolve(m, cs).value.edits == EditsOf(EditOf(m), cs)
  {
    if |cs| > 0 {
      ResolveEdits(m, cs[..|cs| - 1]);
    }
  }

  /** The last edit of line `n` is the one the map keeps. */
  lemma {:induction false} LastWinsOf<T>(f: T -> Option<(int, string)>, cs: seq<T>, n: int)
    ensures EditFor(EditsOf(f, cs), n).Some? <==> exists j :: 0 <= j < |cs| && Hits(f, cs[j], n)
    ensures EditFor(EditsOf(f, cs), n).Some? ==>
      exists j :: 0 <= j < |cs| && Hits(f, cs[j], n)
        && EditFor(EditsOf(f, cs), n).value == f(cs[j]).value.1
        && forall k :: j < k < |cs| ==> !Hits(f, cs[k], n)
  {
    if |cs| > 0 {
      var init := cs[..|cs| - 1];
      LastWinsOf(f, init, n);
      EditsOfStep(f, cs, n);
      if Hits(f, cs[|cs| - 1], n) {
      } else {
        MissKeepsLast(f, cs, n);
      }
    }
  }

  lemma EditsOfStep<T>(f: T -> Option<(int, string)>, cs: seq<T>, n: int)
    requires |cs| > 0
    ensures EditFor(EditsOf(f, cs), n)
      == if Hits(f, cs[|cs| - 1], n) then Some(f(cs[|cs| - 1]).value.1) else EditFor(EditsOf(f, cs[..|cs| - 1]), n)
  {
    var last := cs[|cs| - 1];
    var prev := EditsOf(f, cs[..|cs| - 1]);
    var es := EditsOf(f, cs);
    if f(last).Some? {
      assert es == prev + [f(last).value];
      assert es[..|es| - 1] == prev;
    } else {
      assert es == prev;
    }
  }

  /** A last change that misses line `n` keeps the earlier answer and its witness. */
  lemma MissKeepsLast<T>(f: T -> Option<(int, string)>, cs: seq<T>, n: int)
    requires |cs| > 0 && !Hits(f, cs[|cs| - 1], n)
    requires EditFor(EditsOf(f, cs), n) == EditFor(EditsOf(f, cs[..|cs| - 1]), n)
    requires var init := cs[..|cs| - 1];
      (EditFor(EditsOf(f, init), n).Some? <==> exists j :: 0 <= j < |init| && Hits(f, init[j], n))
      && (EditFor(EditsOf(f, init), n).Some? ==>
        exists j :: 0 <= j < |init| && Hits(f, init[j], n)
          && EditFor(EditsOf(f, init), n).value == f(init[j]).value.1
          && forall k :: j < k < |init| ==> !Hits(f, init[k], n))
    ensures EditFor(EditsOf(f, cs), n).Some? <==> exists j :: 0 <= j < |cs| && Hits(f, cs[j], n)
    ensures EditFor(EditsOf(f, cs), n).Some? ==>
      exists j :: 0 <= j < |cs| && Hits(f, cs[j], n)
        && EditFor(EditsOf(f, cs), n).value == f(cs[j]).value.1
        && forall k :: j < k < |cs| ==> !Hits(f, cs[k], n)
  {
    var init := cs[..|cs| - 1];
    var r := EditFor(EditsOf(f, cs), n);
    assert forall j :: 0 <= j < |init| ==> init[j] == cs[j];
    if r.Some? {
      var j :| 0 <= j < |init| && Hits(f, init[j], n)
        && r.value == f(init[j]).value.1
        && forall k :: j < k < |init| ==> !Hits(f, init[k], n);
      forall k | j < k < |cs| ensures !Hits(f, cs[k], n) {
        if k < |init| {
          assert cs[k] == init[k];
        }
      }
    }
  }

  /** The resolution fails only on a change with a negative index. */
  lemma {:induction false} ResolveFailsOnNegative(m: LatexResumeMap, cs: seq<ChangeHint>)
    requires Resolve(m, cs).None?
    ensures exists j :: 0 <= j < |cs| && cs[j].ChangeDict? && cs[j].optimizedLatex.Some?
                        && (cs[j].entryIndex.GetOr(0) < 0 || cs[j].bulletIndex.GetOr(0) < 0)
  {
    var init := cs[..|cs| - 1];
    var c := cs[|cs| - 1];
    if Resolve(m, init).None? {
      ResolveFailsOnNegative(m, init);
      var j :| 0 <= j < |init| && init[j].ChangeDict? && init[j].optimizedLatex.Some?
                && (init[j].entryIndex.GetOr(0) < 0 || init[j].bulletIndex.GetOr(0) < 0);
      assert init[j] == cs[j];
    } else {
      assert OutcomeOf(m, c).Fail?;
      RaisesOnlyNegative(m, c.section.GetOr("experience"), c.entryIndex.GetOr(0), c.bulletIndex.GetOr(0));
    }
  }

  // ---------------------------------------------------------------- plain-text edits

  function BulletOf(c: ChangeHint): (bs: seq<BulletChange>)
  {
    match c
    case ChangeOther => []
    case ChangeDict(section, e, b, original, optimized, _, _, keywordsAdded, reason) =>
      [BulletChange(section.GetOr("experience"), e.GetOr(0), b.GetOr(0), Field(original), Field(optimized),
                    keywordsAdded.GetOr([]), Field(reason))]
  }

  /** The `BulletChange` records, one per dict entry, in order. */
  function BulletsOf(cs: seq<ChangeHint>): (bs: seq<BulletChange>)
  {
    if |cs| == 0 then [] else BulletsOf(cs[..|cs| - 1]) + BulletOf(cs[|cs| - 1])
  }

  method CollectBullets(cs: seq<ChangeHint>) returns (bs: seq<BulletChange>)
    ensures bs == BulletsOf(cs)
  {
    bs := [];
    var i := 0;
    while i < |cs|
      invariant 0 <= i <= |cs|
      invariant bs == BulletsOf(cs[..i])
    {
      assert cs[..i + 1][..i] == cs[..i];
      if cs[i].ChangeDict? {
        bs := bs + BulletOf(cs[i]);
      }
      i := i + 1;
    }
    assert cs[..i] == cs;
  }

  /** Each change with a non-empty original and optimised text replaces every occurrence of the former, in order. */
  function Substituted(text: string, bs: seq<BulletChange>): (t: string)
  {
    if |bs| == 0 then text
    else
      var t := Substituted(text, bs[..|bs| - 1]);
      var b := bs[|bs| - 1];
      if b.original != "" && b.optimized != "" then ReplaceAll(t, b.original, b.optimized) else t
  }

  method SubstituteLoop(text: string, bs: seq<BulletChange>) returns (t: string)
    ensures t == Substituted(text, bs)
  {
    t := text;
    var i := 0;
    while i < |bs|
      invariant 0 <= i <= |bs|
      invariant t == Substituted(text, bs[..i])
    {
      assert bs[..i + 1][..i] == bs[..i];
      if bs[i].original != "" && bs[i].optimized != "" {
        t := ReplaceAll(t, bs[i].original, bs[i].optimized);
      }
      i := i + 1;
    }
    assert bs[..i] == bs;
  }

  /** The summary replaces the "summary" and then the "about" section; the skills replace the "skills" section. */
  function SectionEdits(text: string, summary: string, skills: string): (t: string)
  {
    var t1 := if summary != "" then ReplaceSection(ReplaceSection(text, "summary", summary), "about", summary) else text;
    if skills != "" then ReplaceSection(t1, "skills", skills) else t1
  }

  function PlainText(text: string, summary: string, skills: string, bs: seq<BulletChange>): (t: string)
  {
    Substituted(SectionEdits(text, summary, skills), bs)
  }

  method PlainEdits(text: string, summary: string, skills: string, bs: seq<BulletChange>) returns (t: string)
    ensures t == PlainText(text, summary, skills, bs)
  {
    t := text;
    if summary != "" {
      t := ReplaceSectionLoop(t, "summary", summary);
      t := ReplaceSectionLoop(t, "about", summary);
    }
    if skills != "" {
      t := ReplaceSectionLoop(t, "skills", skills);
    }
    t := SubstituteLoop(t, bs);
  }

  /** Nothing to replace leaves the text unchanged. */
  lemma {:induction false} NoSubstitutions(text: string, bs: seq<BulletChange>)
    requires forall i :: 0 <= i < |bs| ==> bs[i].original == "" || bs[i].optimized == ""
    ensures Substituted(text, bs) == text
  {
    if |bs| > 0 {
      NoSubstitutions(text, bs[..|bs| - 1]);
    }
  }

  // ---------------------------------------------------------------- optimize_resume

  function NonEmpty(s: string): (o: Option<string>)
    ensures o.Some? <==> s != ""
  {
    if s != "" then Some(s) else None
  }

  /** The LaTeX branch: the assembled source and the applied bullet changes, `None` where Python raises. */
  function LatexOutcome(rx: Recognizers, raw: string, l: LlmResult): (r: Option<(string, seq<LatexBulletChange>)>)
  {
    var m := LatexMap(rx, raw);
    var res := Resolve(m, l.bulletChanges);
    if res.None? then None
    else
      ParsedMapPlaced(rx, raw);
      var tex := Assembled(m, NonEmpty(SummaryOf(l)), NonEmpty(SkillsOf(l)), res.value.edits);
      if tex.None? then None else Some((tex.value, res.value.applied))
  }

  method LatexBranch(rx: Recognizers, raw: string, l: LlmResult) returns (r: Option<(string, seq<LatexBulletChange>)>)
    ensures r == LatexOutcome(rx, raw, l)
  {
    var m := ParseLatexResume(rx, raw);
    var res := ResolveBullets(m, l.bulletChanges);
    if res.None? {
      return None;
    }
    ParsedMapPlaced(rx, raw);
    var tex := AssembleOptimizedLatex(m, NonEmpty(SummaryOf(l)), NonEmpty(SkillsOf(l)), res.value.edits);
    if tex.None? {
      return None;
    }
    r := Some((tex.value, res.value.applied));
  }

  /** `optimize_resume`; `llm` stands for the optimisation call, and `None` for a raised exception. */
  function Optimize(rx: Recognizers, llm: OptimizeRequest -> Option<LlmResult>, resumeText: string, jdText: string,
                    analysis: Analysis, rawLatex: Option<string>): (r: Option<OptimizeResponse>)
  {
    Respond(rx, resumeText, analysis, rawLatex, llm(Request(resumeText, jdText, analysis, rawLatex)), LatexOf(rx, rawLatex.GetOr("")))
  }

  function LatexOf(rx: Recognizers, raw: string): LatexFn {
    l => LatexOutcome(rx, raw, l)
  }

  /** The outcome of the LaTeX branch for a given answer of the model. */
  type LatexFn = LlmResult -> Option<(string, seq<LatexBulletChange>)>

  /**
   * What `optimize_resume` makes of the model's answer `result`, with the
   * LaTeX branch (parse, resolve, assemble) given as `latexOf`.
   */
  function Respond(rx: Recognizers, resumeText: string, analysis: Analysis, rawLatex: Option<string>,
                   result: Option<LlmResult>, latexOf: LatexFn): (r: Option<OptimizeResponse>)
  {
    var isLatex := LatexInput(rawLatex);
    match result
    case None => Some(Failed(resumeText, analysis, isLatex))
    case Some(l) =>
      if isLatex && rawLatex.value != "" then
        match latexOf(l)
        case None => None
        case Some(out) =>
          Some(Response(rx, resumeText, analysis, rawLatex, l, isLatex, rx.latexToPlain(out.0), Some(out.0),
                        Some(ValidateLatexOutput(out.0)), [], Some(out.1)))
      else
        var bs := BulletsOf(l.bulletChanges);
        Some(Response(rx, resumeText, analysis, rawLatex, l, isLatex, PlainText(resumeText, SummaryOf(l), SkillsOf(l), bs),
                      None, None, bs, None))
  }

  method OptimizeResume(rx: Recognizers, llm: OptimizeRequest -> Option<LlmResult>, resumeText: string, jdText: string,
                        analysis: Analysis, rawLatex: Option<string>) returns (r: Option<OptimizeResponse>)
    ensures r == Optimize(rx, llm, resumeText, jdText, analysis, rawLatex)
  {
    var isLatex := LatexInput(rawLatex);
    var request := Request(resumeText, jdText, analysis, rawLatex);
    var result := llm(request);
    if result.None? {
      return Some(Failed(resumeText, analysis, isLatex));
    }
    var l := result.value;
    if isLatex && rawLatex.value != "" {
      var out := LatexBranch(rx, rawLatex.value, l);
      if out.None? {
        return None;
      }
      var tex := out.value.0;
      r := Some(Response(rx, resumeText, analysis, rawLatex, l, isLatex, rx.latexToPlain(tex), Some(tex),
                         Some(ValidateLatexOutput(tex)), [], Some(out.value.1)));
    } else {
      var bs := CollectBullets(l.bulletChanges);
      var text := PlainEdits(resumeText, SummaryOf(l), SkillsOf(l), bs);
      r := Some(Response(rx, resumeText, analysis, rawLatex, l, isLatex, text, None, None, bs, None));
    }
  }

  // ---------------------------------------------------------------- properties of optimize_resume

  /** A call that returns nothing: the text and the score are unchanged, and the result is flagged invalid. */
  lemma FailureKeepsOriginal(rx: Recognizers, llm: OptimizeRequest -> Option<LlmResult>, resumeText: string, jdText: string,
                             analysis: Analysis, rawLatex: Option<string>)
    requires llm(Request(resumeText, jdText, analysis, rawLatex)).None?
    ensures var r := Optimize(rx, llm, resumeText, jdText, analysis, rawLatex);
      && r.Some?
      && r.value.optimizedText == r.value.originalText == resumeText
      && r.value.optimizedScore == r.value.originalScore == analysis.overallScore
      && r.value.scoreDelta == 0
      && !r.value.validation.valid
      && r.value.changes == []
  {
  }

  /** The delta is the estimate minus the original score, and the estimate defaults to the original score plus 5. */
  lemma ScoreDelta(rx: Recognizers, llm: OptimizeRequest -> Option<LlmResult>, resumeText: string, jdText: string,
                   analysis: Analysis, rawLatex: Option<string>)
    requires Optimize(rx, llm, resumeText, jdText, analysis, rawLatex).Some?
    ensures var r := Optimize(rx, llm, resumeText, jdText, analysis, rawLatex).value;
      && r.originalScore == analysis.overallScore
      && r.scoreDelta == r.optimizedScore - r.originalScore
      && match llm(Request(resumeText, jdText, analysis, rawLatex))
         case None => r.optimizedScore == analysis.overallScore
         case Some(l) => r.optimizedScore == (if l.estimatedNewScore.Some? then l.estimatedNewScore.value else analysis.overallScore + 5)
  {
    RespondScore(rx, resumeText, analysis, rawLatex, llm(Request(resumeText, jdText, analysis, rawLatex)), LatexOf(rx, rawLatex.GetOr("")));
  }

  lemma RespondScore(rx: Recognizers, resumeText: string, analysis: Analysis, rawLatex: Option<string>,
                     res: Option<LlmResult>, latexOf: LatexFn)
    requires Respond(rx, resumeText, analysis, rawLatex, res, latexOf).Some?
    ensures var r := Respond(rx, resumeText, analysis, rawLatex, res, latexOf).value;
      && r.originalScore == analysis.overallScore
      && r.scoreDelta == r.optimizedScore - r.originalScore
      && match res
         case None => r.optimizedScore == analysis.overallScore
         case Some(l) => r.optimizedScore == (if l.estimatedNewScore.Some? then l.estimatedNewScore.value else analysis.overallScore + 5)
  {
  }

  /**
   * After a successful call the validation is the truthfulness check of the
   * optimised text against the lower-cased original skills, and the skills
   * it flags are reported as removed.
   */
  lemma ValidatesOptimizedText(rx: Recognizers, llm: OptimizeRequest -> Option<LlmResult>, resumeText: string, jdText: string,
                               analysis: Analysis, rawLatex: Option<string>)
    requires llm(Request(resumeText, jdText, analysis, rawLatex)).Some?
    requires Optimize(rx, llm, resumeText, jdText, analysis, rawLatex).Some?
    ensures var r := Optimize(rx, llm, resumeText, jdText, analysis, rawLatex).value;
      && r.validation == ValidateOptimization(rx, resumeText, r.optimizedText, OriginalSkills(analysis))
      && r.fabricatedSkillsRemoved == r.validation.fabricatedSkills
      && (r.validation.valid <==> r.fabricatedSkillsRemoved == {})
  {
    RespondValidates(rx, resumeText, analysis, rawLatex, llm(Request(resumeText, jdText, analysis, rawLatex)).value,
                     LatexOf(rx, rawLatex.GetOr("")));
  }

  lemma RespondValidates(rx: Recognizers, resumeText: string, analysis: Analysis, rawLatex: Option<string>,
                         l: LlmResult, latexOf: LatexFn)
    requires Respond(rx, resumeText, analysis, rawLatex, Some(l), latexOf).Some?
    ensures var r := Respond(rx, resumeText, analysis, rawLatex, Some(l), latexOf).value;
      && r.validation == ValidateOptimization(rx, resumeText, r.optimizedText, OriginalSkills(analysis))
      && r.fabricatedSkillsRemoved == r.validation.fabricatedSkills
      && (r.validation.valid <==> r.fabricatedSkillsRemoved == {})
  {
    var isLatex := LatexInput(rawLatex);
    var r := Respond(rx, resumeText, analysis, rawLatex, Some(l), latexOf).value;
    if isLatex && rawLatex.value != "" {
      var out := latexOf(l).value;
      assert r == Response(rx, resumeText, analysis, rawLatex, l, isLatex, rx.latexToPlain(out.0), Some(out.0),
                           Some(ValidateLatexOutput(out.0)), [], Some(out.1));
    } else {
      var bs := BulletsOf(l.bulletChanges);
      assert r == Response(rx, resumeText, analysis, rawLatex, l, isLatex, PlainText(resumeText, SummaryOf(l), SkillsOf(l), bs),
                           None, None, bs, None);
    }
  }

  /** A plain-text résumé is edited section by section and never raises; no LaTeX fields are set. */
  lemma PlainPath(rx: Recognizers, llm: OptimizeRequest -> Option<LlmResult>, resumeText: string, jdText: string,
                  analysis: Analysis, rawLatex: Option<string>)
    requires !LatexInput(rawLatex)
    requires llm(Request(resumeText, jdText, analysis, rawLatex)).Some?
    ensures var l := llm(Request(resumeText, jdText, analysis, rawLatex)).value;
      var r := Optimize(rx, llm, resumeText, jdText, analysis, rawLatex);
      && r.Some?
      && r.value.inputFormat == "plain"
      && r.value.optimizedText == PlainText(resumeText, SummaryOf(l), SkillsOf(l), BulletsOf(l.bulletChanges))
      && r.value.optimizedLatex.None? && r.value.latexValidation.None? && r.value.optimizedBulletsLatex.None?
  {
  }

  /** Nothing to rewrite: a plain-text résumé comes back as it was. */
  lemma NothingToRewrite(rx: Recognizers, llm: OptimizeRequest -> Option<LlmResult>, resumeText: string, jdText: string,
                         analysis: Analysis, rawLatex: Option<string>)
    requires !LatexInput(rawLatex)
    requires llm(Request(resumeText, jdText, analysis, rawLatex)).Some?
    requires var l := llm(Request(resumeText, jdText, analysis, rawLatex)).value;
      SummaryOf(l) == "" && SkillsOf(l) == "" && l.bulletChanges == []
    ensures Optimize(rx, llm, resumeText, jdText, analysis, rawLatex).Some?
    ensures Optimize(rx, llm, resumeText, jdText, analysis, rawLatex).value.optimizedText == resumeText
  {
  }

  /**
   * A LaTeX résumé whose call succeeded fails only where Python raises: a
   * bullet change with a negative index below the list's length, or an
   * assembler error.
   */
  lemma LatexFailure(rx: Recognizers, llm: OptimizeRequest -> Option<LlmResult>, resumeText: string, jdText: string,
                     analysis: Analysis, rawLatex: Option<string>)
    requires Optimize(rx, llm, resumeText, jdText, analysis, rawLatex).None?
    ensures LatexInput(rawLatex) && llm(Request(resumeText, jdText, analysis, rawLatex)).Some?
    ensures var l := llm(Request(resumeText, jdText, analysis, rawLatex)).value;
      var m := LatexMap(rx, rawLatex.value);
      Resolve(m, l.bulletChanges).None? || (ParsedMapPlaced(rx, rawLatex.value);
        Assembled(m, NonEmpty(SummaryOf(l)), NonEmpty(SkillsOf(l)), Resolve(m, l.bulletChanges).value.edits).None?)
  {
    var res := llm(Request(resumeText, jdText, analysis, rawLatex));
    RespondFails(rx, resumeText, analysis, rawLatex, res, LatexOf(rx, rawLatex.GetOr("")));
    OutcomeFails(rx, rawLatex.value, res.value);
  }

  /** Only the LaTeX branch can fail. */
  lemma RespondFails(rx: Recognizers, resumeText: string, analysis: Analysis, rawLatex: Option<string>,
                     res: Option<LlmResult>, latexOf: LatexFn)
    requires Respond(rx, resumeText, analysis, rawLatex, res, latexOf).None?
    ensures LatexInput(rawLatex) && res.Some? && latexOf(res.value).None?
  {
  }

  lemma OutcomeFails(rx: Recognizers, raw: string, l: LlmResult)
    requires LatexOutcome(rx, raw, l).None?
    ensures var m := LatexMap(rx, raw);
      Resolve(m, l.bulletChanges).None? || (ParsedMapPlaced(rx, raw);
        Assembled(m, NonEmpty(SummaryOf(l)), NonEmpty(SkillsOf(l)), Resolve(m, l.bulletChanges).value.edits).None?)
  {
  }

  /** On a LaTeX résumé the optimised source is the assembly of the parsed map with the resolved bullet map. */
  lemma LatexPath(rx: Recognizers, llm: OptimizeRequest -> Option<LlmResult>, resumeText: string, jdText: string,
                  analysis: Analysis, rawLatex: Option<string>)
    requires LatexInput(rawLatex)
    requires Optimize(rx, llm, resumeText, jdText, analysis, rawLatex).Some?
    requires llm(Request(resumeText, jdText, analysis, rawLatex)).Some?
    ensures var l := llm(Request(resumeText, jdText, analysis, rawLatex)).value;
      var m := LatexMap(rx, rawLatex.value);
      var r := Optimize(rx, llm, resumeText, jdText, analysis, rawLatex).value;
      && Resolve(m, l.bulletChanges).Some?
      && r.optimizedLatex.Some?
      && (ParsedMapPlaced(rx, rawLatex.value);
          r.optimizedLatex == Assembled(m, NonEmpty(SummaryOf(l)), NonEmpty(SkillsOf(l)), Resolve(m, l.bulletChanges).value.edits))
      && r.optimizedText == rx.latexToPlain(r.optimizedLatex.value)
      && r.latexValidation == Some(ValidateLatexOutput(r.optimizedLatex.value))
      && r.optimizedBulletsLatex == Some(Resolve(m, l.bulletChanges).value.applied)
      && r.inputFormat == "latex"
  {
    var l := llm(Request(resumeText, jdText, analysis, rawLatex)).value;
    RespondLatex(rx, resumeText, analysis, rawLatex, l, LatexOf(rx, rawLatex.value));
    OutcomeParts(rx, rawLatex.value, l);
  }

  /** The LaTeX branch: the response carries the branch's source, its plain form and its bullet list. */
  lemma RespondLatex(rx: Recognizers, resumeText: string, analysis: Analysis, rawLatex: Option<string>,
                     l: LlmResult, latexOf: LatexFn)
    requires LatexInput(rawLatex)
    requires Respond(rx, resumeText, analysis, rawLatex, Some(l), latexOf).Some?
    ensures latexOf(l).Some?
    ensures var r := Respond(rx, resumeText, analysis, rawLatex, Some(l), latexOf).value;
      && r.optimizedLatex == Some(latexOf(l).value.0)
      && r.optimizedText == rx.latexToPlain(latexOf(l).value.0)
      && r.latexValidation == Some(ValidateLatexOutput(latexOf(l).value.0))
      && r.optimizedBulletsLatex == Some(latexOf(l).value.1)
      && r.inputFormat == "latex"
  {
    ContainsNonEmpty(rawLatex.value);
  }

  lemma OutcomeParts(rx: Recognizers, raw: string, l: LlmResult)
    requires LatexOutcome(rx, raw, l).Some?
    ensures var m := LatexMap(rx, raw);
      && Resolve(m, l.bulletChanges).Some?
      && (ParsedMapPlaced(rx, raw);
          Assembled(m, NonEmpty(SummaryOf(l)), NonEmpty(SkillsOf(l)), Resolve(m, l.bulletChanges).value.edits)
            == Some(LatexOutcome(rx, raw, l).value.0))
      && LatexOutcome(rx, raw, l).value.1 == Resolve(m, l.bulletChanges).value.applied
  {
  }

  lemma ContainsNonEmpty(raw: string)
    requires ResumeParser.IsLatex(raw)
    ensures raw != ""
  {
  }
}
