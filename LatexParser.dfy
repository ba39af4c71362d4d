/**
 * `parse_latex_resume` and `validate_latex_syntax` of
 * backend/app/services/latex_parser.py: the structural map of a LaTeX
 * résumé (preamble, header, sections, postamble, entries, and the skills and
 * about sections) and the syntax check run on generated LaTeX.
 */
module LatexParser {
  import opened Wrappers
  import opened Strings
  import opened Seqs
  import opened Recognizers
  import opened LatexSections
  import opened LatexEntries

  /** `LatexResumeMap`; the entry lists are always present, so they are plain lists. */
  datatype LatexResumeMap = LatexResumeMap(
    rawLatex: string,
    preamble: string,
    header: string,
    sections: seq<LatexSection>,
    postamble: string,
    skillsBlock: Option<string>,
    aboutBlock: Option<string>,
    experienceEntries: seq<LatexEntry>,
    projectEntries: seq<LatexEntry>,
    skillsSection: Option<LatexSection>,
    aboutSection: Option<LatexSection>
  )

  // ---------------------------------------------------------------- skills and about sections

  predicate IsSkillsName(name: string) {
    Contains(Lower(name), "skill") || Contains(Lower(name), "technologies")
  }

  predicate IsAboutName(name: string) {
    Contains(Lower(name), "about") || Contains(Lower(name), "summary") || Contains(Lower(name), "objective")
  }

  /** The test of the `if` branch of the selection loop. */
  predicate IsSkillsSection(s: LatexSection) {
    IsSkillsName(s.name)
  }

  /** The test of its `elif` branch: an about-like name that is not also skills-like. */
  predicate IsAboutSection(s: LatexSection) {
    !IsSkillsName(s.name) && IsAboutName(s.name)
  }

  /**
   * The selection loop over the sections: every match reassigns, so the
   * last skills section and the last about section win, and a name that
   * matches both counts only as skills.
   */
  method FindSkillsAbout(sections: seq<LatexSection>) returns (skills: Option<LatexSection>, about: Option<LatexSection>)
    ensures skills == LastWhere(sections, IsSkillsSection)
    ensures about == LastWhere(sections, IsAboutSection)
  {
    skills := None;
    about := None;
    var i := 0;
    while i < |sections|
      invariant 0 <= i <= |sections|
      invariant skills == LastWhere(sections[..i], IsSkillsSection)
      invariant about == LastWhere(sections[..i], IsAboutSection)
    {
      ghost var skills0, about0 := skills, about;
      skills, about := Classify(sections[i], skills, about);
      LastWhereStep(sections, i, IsSkillsSection, skills0, skills);
      LastWhereStep(sections, i, IsAboutSection, about0, about);
      i := i + 1;
    }
    assert sections[..i] == sections;
  }

  /** One iteration of the selection loop: the `if` / `elif` on the lower-cased name. */
  method Classify(s: LatexSection, skills: Option<LatexSection>, about: Option<LatexSection>)
    returns (skills': Option<LatexSection>, about': Option<LatexSection>)
    ensures skills' == (if IsSkillsSection(s) then Some(s) else skills)
    ensures about' == (if IsAboutSection(s) then Some(s) else about)
  {
    skills', about' := skills, about;
    var nameLower := Lower(s.name);
    if Contains(nameLower, "skill") || Contains(nameLower, "technologies") {
      skills' := Some(s);
    } else if Contains(nameLower, "about") || Contains(nameLower, "summary") || Contains(nameLower, "objective") {
      about' := Some(s);
    }
  }

  /** A chosen about section is never skills-like, and a skills-like section is never the about section. */
  lemma SkillsTakePriority(sections: seq<LatexSection>)
    ensures LastWhere(sections, IsAboutSection).Some? ==> !IsSkillsName(LastWhere(sections, IsAboutSection).value.name)
    ensures forall k :: 0 <= k < |sections| && IsSkillsName(sections[k].name) && LastWhere(sections, IsAboutSection).Some? ==>
      LastWhere(sections, IsAboutSection).value != sections[k]
  {
    LastWhereSpec(sections, IsAboutSection);
  }

  function ContentOf(s: Option<LatexSection>): (b: Option<string>)
    ensures b.Some? <==> s.Some?
    ensures s.Some? ==> b.value == s.value.latexContent
  {
    match s
    case Some(sec) => Some(sec.latexContent)
    case None => None
  }

  // ---------------------------------------------------------------- the map

  /** `lines[doc_end:]`: from the `\end{document}` line (or the last line) on; empty when there are no lines. */
  function PostambleLines(lines: seq<string>): (r: seq<string>)
    ensures |lines| > 0 ==> r == lines[DocEnd(lines)..]
    ensures |lines| == 0 ==> r == []
  {
    if DocEnd(lines) >= 0 then lines[DocEnd(lines)..] else []
  }

  /** Every section of the map starts on a positive line. */
  lemma SectionsPositioned(rx: Recognizers, lines: seq<string>)
    ensures Positioned(Sections(rx, lines))
  {
    SectionsAddressLines(rx, SectionTitle, lines);
  }

  /** `parse_latex_resume(latex_source)` as a function of the source. */
  function LatexMap(rx: Recognizers, raw: string): (m: LatexResumeMap)
  {
    var lines := SplitLines(raw);
    var secs := Sections(rx, lines);
    SectionsPositioned(rx, lines);
    var skills := LastWhere(secs, IsSkillsSection);
    var about := LastWhere(secs, IsAboutSection);
    LatexResumeMap(
      raw, Join(lines[..DocStart(lines)], "\n"), Header(rx, lines), secs, Join(PostambleLines(lines), "\n"),
      ContentOf(skills), ContentOf(about),
      Entries(rx, ExperienceKind, lines, secs), Entries(rx, ProjectKind, lines, secs),
      skills, about)
  }

  /** `parse_latex_resume`. */
  method ParseLatexResume(rx: Recognizers, raw: string) returns (m: LatexResumeMap)
    ensures m == LatexMap(rx, raw)
  {
    var lines := SplitLines(raw);
    var docStart := DocStart(lines);
    var preamble := Join(lines[..docStart], "\n");
    var postamble := Join(PostambleLines(lines), "\n");
    var sections, headerLines := ScanSections(rx, SectionTitle, lines);
    SectionsPositioned(rx, lines);
    var experience := ExtractEntries(rx, ExperienceKind, lines, sections);
    var projects := ExtractEntries(rx, ProjectKind, lines, sections);
    var skills, about := FindSkillsAbout(sections);
    m := LatexResumeMap(raw, preamble, Join(headerLines, "\n"), sections, postamble,
      ContentOf(skills), ContentOf(about), experience, projects, skills, about);
  }

  /**
   * The skills and about blocks are the LaTeX of the last skills-like and
   * the last about-like (and not skills-like) section of the map, and are
   * absent exactly when no section qualifies.
   */
  lemma MapBlocks(rx: Recognizers, raw: string)
    ensures var m := LatexMap(rx, raw);
      && (m.skillsSection.Some? ==> (m.skillsSection.value in m.sections && IsSkillsSection(m.skillsSection.value)
        && m.skillsBlock == Some(m.skillsSection.value.latexContent)))
      && (m.skillsSection.None? <==> forall k :: 0 <= k < |m.sections| ==> !IsSkillsSection(m.sections[k]))
      && (m.aboutSection.Some? ==> (m.aboutSection.value in m.sections && IsAboutSection(m.aboutSection.value)
        && m.aboutBlock == Some(m.aboutSection.value.latexContent)))
      && (m.aboutSection.None? <==> forall k :: 0 <= k < |m.sections| ==> !IsAboutSection(m.sections[k]))
  {
    var secs := Sections(rx, SplitLines(raw));
    LastWhereIn(secs, IsSkillsSection);
    LastWhereIn(secs, IsAboutSection);
  }

  // ---------------------------------------------------------------- syntax check

  /** `s.count(c)`. */
  function CountChar(s: string, c: char): (n: nat)
    ensures n <= |s|
    ensures n == 0 <==> !HasChar(s, c)
  {
    if |s| == 0 then 0 else CountChar(s[..|s| - 1], c) + (if s[|s| - 1] == c then 1 else 0)
  }

  lemma {:induction false} CountCharAppend(a: string, b: string, c: char)
    ensures CountChar(a + b, c) == CountChar(a, c) + CountChar(b, c)
    decreases |b|
  {
    if |b| == 0 {
      assert a + b == a;
    } else {
      assert (a + b)[..|a + b| - 1] == a + b[..|b| - 1];
      CountCharAppend(a, b[..|b| - 1], c);
    }
  }

  /** Length of the run of word characters (`\w`, ASCII) starting at `q`. */
  function WordRun(s: string, q: nat): (k: nat)
    requires q <= |s|
    ensures q + k <= |s|
    ensures forall j :: q <= j < q + k ==> IsWordChar(s[j])
    ensures q + k < |s| ==> !IsWordChar(s[q + k])
    decreases |s| - q
  {
    if q < |s| && IsWordChar(s[q]) then 1 + WordRun(s, q + 1) else 0
  }

  /**
   * A match of `\\begin\{(\w+)\}` (or `\\end...`, with `open` the macro and
   * its brace) at position `p`: the name and the position just past the match.
   */
  function EnvAt(s: string, open: string, p: nat): (r: Option<(string, nat)>)
    requires p <= |s|
    ensures r.Some? ==> (p < r.value.1 <= |s| && |r.value.0| > 0
      && forall j :: 0 <= j < |r.value.0| ==> IsWordChar(r.value.0[j]))
  {
    if !OccursAt(s, open, p) then None
    else
      var q := p + |open|;
      var k := WordRun(s, q);
      if k > 0 && q + k < |s| && s[q + k] == '}' then Some((s[q..q + k], q + k + 1)) else None
  }

  /** `re.findall` of that pattern from position `p`: matches are taken left to right without overlap. */
  function FindEnvs(s: string, open: string, p: nat): (names: seq<string>)
    requires p <= |s|
    ensures forall i :: 0 <= i < |names| ==> |names[i]| > 0
    decreases |s| - p
  {
    if p == |s| then []
    else match EnvAt(s, open, p)
      case Some(m) => [m.0] + FindEnvs(s, open, m.1)
      case None => FindEnvs(s, open, p + 1)
  }

  const BeginMacro := "\\begin{"
  const EndMacro := "\\end{"

  function Begins(tex: string): seq<string> { FindEnvs(tex, BeginMacro, 0) }

  function Ends(tex: string): seq<string> { FindEnvs(tex, EndMacro, 0) }

  /** The four error messages, as data. */
  datatype LatexError =
    | UnbalancedBraces(open: nat, close: nat)
    | MismatchedEnvironments(begins: seq<string>, ends: seq<string>)
    | MissingBeginDocument
    | MissingEndDocument

  datatype SyntaxCheck = SyntaxCheck(valid: bool, errors: seq<LatexError>)

  /** The error list for the outcomes of the four tests, in test order. */
  function ErrorList(open: nat, close: nat, begins: seq<string>, ends: seq<string>, hasBegin: bool, hasEnd: bool): (es: seq<LatexError>)
  {
    (if open != close then [UnbalancedBraces(open, close)] else [])
    + (if multiset(begins) != multiset(ends) then [MismatchedEnvironments(begins, ends)] else [])
    + (if !hasBegin then [MissingBeginDocument] else [])
    + (if !hasEnd then [MissingEndDocument] else [])
  }

  /**
   * `validate_latex_syntax`: valid exactly when the braces balance, the
   * `\begin` and `\end` names agree as multisets (the sorted lists are
   * equal), and both document markers occur.
   */
  function ValidateLatexSyntax(tex: string): (r: SyntaxCheck)
    ensures r.valid <==> r.errors == []
    ensures r.valid <==> (CountChar(tex, '{') == CountChar(tex, '}') && multiset(Begins(tex)) == multiset(Ends(tex))
      && Contains(tex, "\\begin{document}") && Contains(tex, "\\end{document}"))
  {
    var errors := ErrorList(CountChar(tex, '{'), CountChar(tex, '}'), Begins(tex), Ends(tex),
      Contains(tex, "\\begin{document}"), Contains(tex, "\\end{document}"));
    SyntaxCheck(|errors| == 0, errors)
  }

  /** The rank of an error in the order the tests run. */
  function Rank(e: LatexError): nat {
    match e
    case UnbalancedBraces(_, _) => 0
    case MismatchedEnvironments(_, _) => 1
    case MissingBeginDocument => 2
    case MissingEndDocument => 3
  }

  /** The error list holds an error of rank `k`. */
  predicate HasRank(es: seq<LatexError>, k: nat) {
    exists i :: 0 <= i < |es| && Rank(es[i]) == k
  }

  /**
   * Each test contributes exactly one error when it fails and none when it
   * passes, in test order, and the brace error carries both counts.
   */
  lemma ErrorListPerTest(open: nat, close: nat, begins: seq<string>, ends: seq<string>, hasBegin: bool, hasEnd: bool)
    ensures var es := ErrorList(open, close, begins, ends, hasBegin, hasEnd);
      && (forall i, j :: 0 <= i < j < |es| ==> Rank(es[i]) < Rank(es[j]))
      && (HasRank(es, 0) <==> open != close)
      && (HasRank(es, 1) <==> multiset(begins) != multiset(ends))
      && (HasRank(es, 2) <==> !hasBegin)
      && (HasRank(es, 3) <==> !hasEnd)
      && (forall i :: 0 <= i < |es| && Rank(es[i]) == 0 ==> es[i] == UnbalancedBraces(open, close))
  {
    var a := if open != close then [UnbalancedBraces(open, close)] else [];
    var b := if multiset(begins) != multiset(ends) then [MismatchedEnvironments(begins, ends)] else [];
    var c := if !hasBegin then [MissingBeginDocument] else [];
    var d := if !hasEnd then [MissingEndDocument] else [];
    assert ErrorList(open, close, begins, ends, hasBegin, hasEnd) == a + b + c + d;
    PieceRanks(a, b, c, d);
  }

  /** At most one error of each rank, pieces in rank order: the concatenation is ordered by rank and holds a rank exactly when its piece is not empty. */
  lemma PieceRanks(a: seq<LatexError>, b: seq<LatexError>, c: seq<LatexError>, d: seq<LatexError>)
    requires a == [] || (|a| == 1 && Rank(a[0]) == 0)
    requires b == [] || (|b| == 1 && Rank(b[0]) == 1)
    requires c == [] || (|c| == 1 && Rank(c[0]) == 2)
    requires d == [] || (|d| == 1 && Rank(d[0]) == 3)
    ensures var es := a + b + c + d;
      && (forall i, j :: 0 <= i < j < |es| ==> Rank(es[i]) < Rank(es[j]))
      && (HasRank(es, 0) <==> a != []) && (HasRank(es, 1) <==> b != [])
      && (HasRank(es, 2) <==> c != []) && (HasRank(es, 3) <==> d != [])
      && (forall i :: 0 <= i < |es| && Rank(es[i]) == 0 ==> es[i] == a[0])
  {
    var es := a + b + c + d;
    forall i | 0 <= i < |es|
      ensures Rank(es[i]) == (if i < |a| then 0 else if i < |a| + |b| then 1 else if i < |a| + |b| + |c| then 2 else 3)
      ensures i < |a| ==> es[i] == a[0]
    {
    }
    if a != [] { assert Rank(es[0]) == 0; }
    if b != [] { assert Rank(es[|a|]) == 1; }
    if c != [] { assert Rank(es[|a| + |b|]) == 2; }
    if d != [] { assert Rank(es[|a| + |b| + |c|]) == 3; }
  }

  /** The same, for the text's own tests. */
  lemma ErrorsPerTest(tex: string)
    ensures var es := ValidateLatexSyntax(tex).errors;
      && (forall i, j :: 0 <= i < j < |es| ==> Rank(es[i]) < Rank(es[j]))
      && (HasRank(es, 0) <==> CountChar(tex, '{') != CountChar(tex, '}'))
      && (HasRank(es, 1) <==> multiset(Begins(tex)) != multiset(Ends(tex)))
      && (HasRank(es, 2) <==> !Contains(tex, "\\begin{document}"))
      && (HasRank(es, 3) <==> !Contains(tex, "\\end{document}"))
  {
    ErrorListPerTest(CountChar(tex, '{'), CountChar(tex, '}'), Begins(tex), Ends(tex),
      Contains(tex, "\\begin{document}"), Contains(tex, "\\end{document}"));
  }

  /** A `\begin{name}` found at a position is reported, ahead of the names found after it. */
  lemma FindEnvsAt(s: string, open: string, p: nat, name: string)
    requires p + |open| + |name| < |s|
    requires OccursAt(s, open, p) && |name| > 0 && s[p + |open|..p + |open| + |name|] == name
    requires forall j :: 0 <= j < |name| ==> IsWordChar(name[j])
    requires s[p + |open| + |name|] == '}'
    ensures FindEnvs(s, open, p) == [name] + FindEnvs(s, open, p + |open| + |name| + 1)
  {
    var q := p + |open|;
    var k := |name|;
    forall j | q <= j < q + k ensures IsWordChar(s[j]) {
      assert s[j] == s[q..q + k][j - q];
    }
    WordRunOf(s, q, k);
    assert EnvAt(s, open, p) == Some((name, q + k + 1));
  }

  lemma {:induction false} WordRunOf(s: string, q: nat, k: nat)
    requires q + k < |s|
    requires forall j :: q <= j < q + k ==> IsWordChar(s[j])
    requires !IsWordChar(s[q + k])
    ensures WordRun(s, q) == k
    decreases k
  {
    if k > 0 {
      WordRunOf(s, q + 1, k - 1);
    }
  }
}
