/**
 * The job-description parser of backend/app/services/jd_parser.py: the
 * section segmenter, the experience-level detector, the keyword
 * classifier, list-item and title extraction, the frequency fallback of the
 * keyword extractor and the required/preferred partition of `parse_jd`.
 */
module JdParser {
  import opened Wrappers
  import opened Strings
  import opened Dicts
  import opened Seqs
  import opened Numeric
  import opened Sorting
  import opened Recognizers
  import opened Vocabulary
  import opened TextProcessing
  import opened ResumeFields

  // ---------------------------------------------------------------- section header patterns

  /** One element of a header pattern: a literal, `.` (any character but a newline), or `\s*`. */
  datatype Piece = Lit(text: string) | AnyChar | Spaces

  /** The pattern `ps` matches `s` starting at position `i` (regex semantics: some way of consuming `\s*` works). */
  predicate MatchesAt(s: string, i: nat, ps: seq<Piece>)
    requires i <= |s|
    decreases |ps|, 1
  {
    if |ps| == 0 then true
    else match ps[0]
      case Lit(t) => OccursAt(s, t, i) && MatchesAt(s, i + |t|, ps[1..])
      case AnyChar => i < |s| && s[i] != '\n' && MatchesAt(s, i + 1, ps[1..])
      case Spaces => exists k | 0 <= k <= |s| - i :: SpacesThen(s, i, k, ps[1..])
  }

  /** `\s*` consumes the `k` characters from `i`, all whitespace, and `rest` matches after them. */
  predicate SpacesThen(s: string, i: nat, k: nat, rest: seq<Piece>)
    requires i + k <= |s|
    decreases |rest|, 2
  {
    (forall j | i <= j < i + k :: IsSpace(s[j])) && MatchesAt(s, i + k, rest)
  }

  /** `re.search` of an alternation: some alternative matches at some position. */
  predicate Search(s: string, alts: seq<seq<Piece>>) {
    exists i, a | 0 <= i <= |s| && a in alts :: MatchesAt(s, i, a)
  }

  /** `(?:a1|a2|...)\s*(?:b1|b2|...)`. */
  function Cross(firsts: seq<string>, seconds: seq<string>): (r: seq<seq<Piece>>)
  {
    if |firsts| == 0 then []
    else seq(|seconds|, k requires 0 <= k < |seconds| => [Lit(firsts[0]), Spaces, Lit(seconds[k])]) + Cross(firsts[1..], seconds)
  }

  /** `(?:w1|w2|...)` over plain words. */
  function Words1(words: seq<string>): (r: seq<seq<Piece>>)
    ensures |r| == |words|
    ensures forall k :: 0 <= k < |words| ==> r[k] == [Lit(words[k])]
  {
    seq(|words|, k requires 0 <= k < |words| => [Lit(words[k])])
  }

  /** The section names, in the order their patterns are tried. */
  const JdSectionNames: seq<string> := ["required", "preferred", "responsibilities", "qualifications", "description", "benefits"]

  function RequiredPattern(): seq<seq<Piece>> {
    Cross(["required", "must have", "minimum", "essential"], ["skills", "qualifications", "requirements"])
  }

  function PreferredPattern(): seq<seq<Piece>> {
    Cross(["preferred", "nice to have", "bonus", "desired", "ideal"], ["skills", "qualifications"])
  }

  function ResponsibilitiesPattern(): seq<seq<Piece>> {
    Words1(["responsibilities", "role", "duties", "key responsibilities"]) + [[Lit("what you"), AnyChar, Lit("ll do")]]
  }

  function QualificationsPattern(): seq<seq<Piece>> {
    Words1(["qualifications", "requirements", "who you are"]) + [[Lit("what we"), AnyChar, Lit("re looking for")]]
  }

  function DescriptionPattern(): seq<seq<Piece>> {
    Words1(["about the role", "overview", "description", "summary"])
  }

  function BenefitsPattern(): seq<seq<Piece>> {
    Words1(["benefits", "perks", "what we offer"])
  }

  /** The six header patterns, in the order of the section names. */
  function JdPatterns(): (ps: seq<seq<seq<Piece>>>)
    ensures |ps| == |JdSectionNames|
  {
    [RequiredPattern(), PreferredPattern(), ResponsibilitiesPattern(), QualificationsPattern(), DescriptionPattern(), BenefitsPattern()]
  }

  /**
   * The section a line announces: the first pattern, in order, that the
   * stripped lower-cased line matches.
   */
  function JdHeader(line: string): (r: Option<string>)
  {
    FirstMatch(JdPatterns(), JdSectionNames, Lower(Strip(line)))
  }

  /** The name of the first pattern of `pats` that `lower` matches. */
  function FirstMatch(pats: seq<seq<seq<Piece>>>, names: seq<string>, lower: string): (r: Option<string>)
    requires |pats| == |names|
    ensures r.Some? ==> r.value in names
    ensures r.Some? ==> (exists k :: (0 <= k < |names| && r.value == names[k]
      && Search(lower, pats[k]) && forall j :: 0 <= j < k ==> !Search(lower, pats[j])))
    ensures r.None? ==> forall k :: 0 <= k < |names| ==> !Search(lower, pats[k])
  {
    match FirstIndexWhere(pats, alts => Search(lower, alts))
    case Some(k) => Some(names[k])
    case None => None
  }

  /** The header recogniser the scan is run with. */
  type HeaderFn = string -> Option<string>

  /** A header recogniser that only ever names one of the section names. */
  ghost predicate NamesOk(hd: HeaderFn) {
    forall line :: hd(line).Some? ==> hd(line).value in JdSectionNames
  }

  lemma JdHeaderNamesOk()
    ensures NamesOk(JdHeader)
  {
    forall line ensures JdHeader(line).Some? ==> JdHeader(line).value in JdSectionNames {
      var r := FirstMatch(JdPatterns(), JdSectionNames, Lower(Strip(line)));
    }
  }

  // ---------------------------------------------------------------- extract_jd_sections

  /** Scanner state: `sections`, `current_section` and `current_content`. */
  datatype JdScan = JdScan(sections: Dict<string>, current: string, content: seq<string>)

  const JdStart := JdScan([], "description", [])

  function JdFlush(st: JdScan): (d: Dict<string>)
  {
    if |st.content| > 0 then Put(st.sections, st.current, Strip(Join(st.content, "\n"))) else st.sections
  }

  function JdStep(hd: HeaderFn, st: JdScan, line: string): (st': JdScan)
  {
    match hd(line)
    case Some(name) => JdScan(JdFlush(st), name, [])
    case None => if Strip(line) != "" then st.(content := st.content + [Strip(line)]) else st
  }

  function JdRun(hd: HeaderFn, lines: seq<string>): (st: JdScan)
  {
    if |lines| == 0 then JdStart else JdStep(hd, JdRun(hd, lines[..|lines| - 1]), lines[|lines| - 1])
  }

  /** `extract_jd_sections(text)` as a function of the text. */
  function JdSections(text: string): (d: Dict<string>)
  {
    JdFlush(JdRun(JdHeader, Split(text, '\n')))
  }

  /** `extract_jd_sections`. */
  method ExtractJdSections(text: string) returns (sections: Dict<string>)
    ensures sections == JdSections(text)
  {
    sections := ScanJdLines(JdHeader, Split(text, '\n'));
  }

  /** One iteration of the line loop of `extract_jd_sections`. */
  method ScanJdLine(hd: HeaderFn, sections: Dict<string>, current: string, content: seq<string>, line: string)
    returns (sections': Dict<string>, current': string, content': seq<string>)
    ensures JdScan(sections', current', content') == JdStep(hd, JdScan(sections, current, content), line)
  {
    sections', current', content' := sections, current, content;
    var stripped := Strip(line);
    var header := hd(line);
    if header.Some? {
      if |content| > 0 {
        sections' := Put(sections, current, Strip(Join(content, "\n")));
      }
      current' := header.value;
      content' := [];
    } else if stripped != "" {
      content' := content + [stripped];
    }
  }

  /** The line loop of `extract_jd_sections`, with the final flush. */
  method ScanJdLines(hd: HeaderFn, lines: seq<string>) returns (sections: Dict<string>)
    ensures sections == JdFlush(JdRun(hd, lines))
  {
    sections := [];
    var current := "description";
    var content: seq<string> := [];
    var i := 0;
    while i < |lines|
      invariant 0 <= i <= |lines|
      invariant JdScan(sections, current, content) == JdRun(hd, lines[..i])
    {
      assert lines[..i + 1][..i] == lines[..i];
      sections, current, content := ScanJdLine(hd, sections, current, content, lines[i]);
      i := i + 1;
    }
    assert lines[..i] == lines;
    if |content| > 0 {
      sections := Put(sections, current, Strip(Join(content, "\n")));
    }
  }

  /** Keys and the current section are section names, keys distinct, collected lines non-blank and stripped. */
  predicate JdGood(st: JdScan) {
    st.current in JdSectionNames
    && DistinctKeys(st.sections)
    && (forall i :: 0 <= i < |st.sections| ==> st.sections[i].0 in JdSectionNames)
    && (forall i :: 0 <= i < |st.content| ==> st.content[i] != "" && IsStripped(st.content[i]))
  }

  lemma JdFlushGood(st: JdScan)
    requires JdGood(st)
    ensures DistinctKeys(JdFlush(st))
    ensures forall i :: 0 <= i < |JdFlush(st)| ==> JdFlush(st)[i].0 in JdSectionNames
  {
    if |st.content| > 0 {
      PutKeys(st.sections, st.current, Strip(Join(st.content, "\n")));
    }
  }

  lemma {:induction false} JdRunGood(hd: HeaderFn, lines: seq<string>)
    requires NamesOk(hd)
    ensures JdGood(JdRun(hd, lines))
  {
    if |lines| > 0 {
      JdRunGood(hd, lines[..|lines| - 1]);
      JdFlushGood(JdRun(hd, lines[..|lines| - 1]));
    }
  }

  /** Every key is one of the six section names, and no key occurs twice. */
  lemma JdSectionKeys(text: string)
    ensures DistinctKeys(JdSections(text))
    ensures forall i :: 0 <= i < |JdSections(text)| ==> JdSections(text)[i].0 in JdSectionNames
  {
    JdHeaderNamesOk();
    JdRunGood(JdHeader, Split(text, '\n'));
    JdFlushGood(JdRun(JdHeader, Split(text, '\n')));
  }

  /** Before the first header line, the non-blank lines are collected, stripped, under "description". */
  lemma {:induction false} JdRunPreamble(hd: HeaderFn, lines: seq<string>)
    requires forall k :: 0 <= k < |lines| ==> hd(lines[k]).None?
    ensures JdRun(hd, lines) == JdScan([], "description", NonBlankStripped(lines))
  {
    if |lines| > 0 {
      JdRunPreamble(hd, lines[..|lines| - 1]);
    }
  }

  /** A text without header lines is stored entirely as "description" (or not at all when blank). */
  lemma NoHeaderIsDescription(text: string)
    requires forall k :: 0 <= k < |Split(text, '\n')| ==> JdHeader(Split(text, '\n')[k]).None?
    ensures var body := NonBlankStripped(Split(text, '\n'));
      JdSections(text) == if |body| > 0 then [("description", Strip(Join(body, "\n")))] else []
  {
    JdRunPreamble(JdHeader, Split(text, '\n'));
  }

  /**
   * A header line is never content: it closes the current section (storing
   * its text, which replaces any earlier text under that name, when
   * something was collected) and opens an empty one under its own name.
   */
  lemma JdHeaderLine(hd: HeaderFn, st: JdScan, line: string)
    requires JdGood(st)
    requires hd(line).Some?
    ensures JdStep(hd, st, line).current == hd(line).value && JdStep(hd, st, line).content == []
    ensures |st.content| > 0 ==> Get(JdStep(hd, st, line).sections, st.current) == Some(Strip(Join(st.content, "\n")))
    ensures forall k :: k != st.current ==> Get(JdStep(hd, st, line).sections, k) == Get(st.sections, k)
    ensures |st.content| == 0 ==> JdStep(hd, st, line).sections == st.sections
  {
    if |st.content| > 0 {
      PutGet(st.sections, st.current, Strip(Join(st.content, "\n")));
    }
  }

  /** A blank line changes nothing, and any other non-header line is collected stripped. */
  lemma JdContentLine(hd: HeaderFn, st: JdScan, line: string)
    requires hd(line).None?
    ensures Strip(line) == "" ==> JdStep(hd, st, line) == st
    ensures Strip(line) != "" ==> JdStep(hd, st, line) == st.(content := st.content + [Strip(line)])
  {
  }

  /**
   * Patterns are tried in order, so a line mentioning "role" (as "About the
   * Role" does) opens "responsibilities" even though the description pattern
   * lists "about the role" too, unless a required or preferred pattern matches.
   */
  lemma RoleIsResponsibilities(line: string)
    requires Contains(Lower(Strip(line)), "role")
    requires !Search(Lower(Strip(line)), RequiredPattern()) && !Search(Lower(Strip(line)), PreferredPattern())
    ensures JdHeader(line) == Some("responsibilities")
  {
    RoleMatch(Lower(Strip(line)));
  }

  lemma RoleMatch(lower: string)
    requires Contains(lower, "role")
    requires !Search(lower, RequiredPattern()) && !Search(lower, PreferredPattern())
    ensures FirstMatch(JdPatterns(), JdSectionNames, lower) == Some("responsibilities")
  {
    RoleSearch(lower);
    JdPatternsShape();
    ThirdMatch(JdPatterns(), JdSectionNames, lower, RequiredPattern(), PreferredPattern(), ResponsibilitiesPattern(), "responsibilities");
  }

  lemma JdPatternsShape()
    ensures JdPatterns()[0] == RequiredPattern() && JdPatterns()[1] == PreferredPattern() && JdPatterns()[2] == ResponsibilitiesPattern()
    ensures |JdSectionNames| == 6 && JdSectionNames[2] == "responsibilities"
  {
  }

  /** The alternative `role` of the responsibilities pattern matches wherever "role" occurs. */
  lemma RoleSearch(lower: string)
    requires Contains(lower, "role")
    ensures Search(lower, ResponsibilitiesPattern())
  {
    var i :| 0 <= i <= |lower| - |"role"| && OccursAt(lower, "role", i);
    assert Words1(["responsibilities", "role", "duties", "key responsibilities"])[1] == [Lit("role")];
    assert [Lit("role")] in ResponsibilitiesPattern();
    assert MatchesAt(lower, i, [Lit("role")]) by {
      assert [Lit("role")][1..] == [];
    }
  }

  lemma ThirdMatch(pats: seq<seq<seq<Piece>>>, names: seq<string>, lower: string,
                   p0: seq<seq<Piece>>, p1: seq<seq<Piece>>, p2: seq<seq<Piece>>, n2: string)
    requires |pats| == |names| && 2 < |pats|
    requires pats[0] == p0 && pats[1] == p1 && pats[2] == p2 && names[2] == n2
    requires !Search(lower, p0) && !Search(lower, p1) && Search(lower, p2)
    ensures FirstMatch(pats, names, lower) == Some(n2)
  {
    FirstMatchAt(pats, names, lower, 2);
  }

  /** The header recogniser picks pattern `k` when it matches and no earlier one does. */
  lemma FirstMatchAt(pats: seq<seq<seq<Piece>>>, names: seq<string>, lower: string, k: nat)
    requires |pats| == |names| && k < |pats|
    requires Search(lower, pats[k]) && forall j :: 0 <= j < k ==> !Search(lower, pats[j])
    ensures FirstMatch(pats, names, lower) == Some(names[k])
  {
    var r := FirstMatch(pats, names, lower);
    var k' :| 0 <= k' < |names| && r.value == names[k'] && Search(lower, pats[k']) && forall j :: 0 <= j < k' ==> !Search(lower, pats[j]);
    assert k' == k;
  }

  // ---------------------------------------------------------------- detect_experience_level

  const Levels: seq<string> := ["entry", "mid", "senior", "lead"]

  /** A level's phrase list hits the lower-cased text. */
  predicate PhraseHit(lower: string, entry: (string, seq<string>)) {
    exists p :: p in entry.1 && Contains(lower, p)
  }

  /**
   * `(\d+)\+?\s*years` tried at `i`: the longest digit run from `i`, an
   * optional `+`, the longest space run and "years". Backtracking never
   * helps: a shorter digit run is followed by a digit, and fewer spaces by
   * a space, neither of which can start the rest.
   */
  function YearsAt(s: string, i: nat): (r: Option<nat>)
    requires i <= |s|
  {
    var k := RunLen(s[i..], IsDigit);
    if k == 0 then None
    else
      var j := i + k;
      var j1 := if j < |s| && s[j] == '+' then j + 1 else j;
      var m := RunLen(s[j1..], IsSpace);
      assert forall t :: 0 <= t < k ==> IsDigit(s[i..][t]);
      assert forall t :: i <= t < j ==> s[t] == s[i..][t - i];
      if StartsWith(s[j1 + m..], "years") then Some(DigitsValue(s[i..j])) else None
  }

  /** `re.search`: the leftmost position from `i` on where the pattern matches. */
  function FirstYears(s: string, i: nat): (r: Option<nat>)
    requires i <= |s|
    ensures r.None? ==> forall j :: i <= j <= |s| ==> YearsAt(s, j).None?
    ensures r.Some? ==> exists j :: i <= j <= |s| && YearsAt(s, j) == r && forall t :: i <= t < j ==> YearsAt(s, t).None?
    decreases |s| - i
  {
    if YearsAt(s, i).Some? then YearsAt(s, i)
    else if i == |s| then None
    else FirstYears(s, i + 1)
  }

  /** The level a number of years maps to. */
  function LevelOfYears(years: nat): (level: string)
    ensures level in Levels
  {
    if years <= 2 then "entry" else if years <= 5 then "mid" else if years <= 10 then "senior" else "lead"
  }

  /** `detect_experience_level`. */
  function DetectExperienceLevel(text: string): (level: string)
    ensures level in Levels
  {
    var lower := Lower(text);
    match FirstWhere(ExperienceLevels, e => PhraseHit(lower, e))
    case Some(e) =>
      assert e in ExperienceLevels;
      e.0
    case None =>
      match FirstYears(lower, 0)
      case Some(n) => LevelOfYears(n)
      case None => "mid"
  }

  /**
   * The phrase table is read in order entry, mid, senior, lead, so "lead"
   * is caught by the senior list: a text with "lead" and no entry or mid
   * phrase is "senior".
   */
  lemma LeadReadsAsSenior(text: string)
    requires Contains(Lower(text), "lead")
    requires !PhraseHit(Lower(text), ExperienceLevels[0]) && !PhraseHit(Lower(text), ExperienceLevels[1])
    ensures DetectExperienceLevel(text) == "senior"
  {
    var lower := Lower(text);
    assert "lead" in ExperienceLevels[2].1;
    assert PhraseHit(lower, ExperienceLevels[2]);
    var r := FirstWhere(ExperienceLevels, e => PhraseHit(lower, e));
    assert r.Some?;
    var i :| 0 <= i < |ExperienceLevels| && ExperienceLevels[i] == r.value && PhraseHit(lower, ExperienceLevels[i])
      && forall j :: 0 <= j < i ==> !PhraseHit(lower, ExperienceLevels[j]);
    assert i == 2;
  }

  /** With no phrase hit, the first "N years" decides, and without one the level is "mid". */
  lemma YearsFallback(text: string)
    requires forall k :: 0 <= k < |ExperienceLevels| ==> !PhraseHit(Lower(text), ExperienceLevels[k])
    ensures FirstYears(Lower(text), 0).Some? ==> DetectExperienceLevel(text) == LevelOfYears(FirstYears(Lower(text), 0).value)
    ensures FirstYears(Lower(text), 0).None? ==> DetectExperienceLevel(text) == "mid"
  {
    var lower := Lower(text);
    var r := FirstWhere(ExperienceLevels, e => PhraseHit(lower, e));
    if r.Some? {
      assert false;
    }
  }

  // ---------------------------------------------------------------- keywords

  /** `KeywordWithWeight`. */
  datatype Keyword = Keyword(keyword: string, weight: real, category: string)

  /** `jd_sections.get("required", "").lower() + " " + jd_sections.get("qualifications", "").lower()`. */
  function RequiredText(sections: Dict<string>): string {
    Lower(GetOr(sections, "required", "")) + " " + Lower(GetOr(sections, "qualifications", ""))
  }

  function PreferredText(sections: Dict<string>): string {
    Lower(GetOr(sections, "preferred", ""))
  }

  /**
   * One keyword classified: found in the required text it becomes
   * "required" with its weight raised by half, capped at 1; otherwise found
   * in the preferred text it becomes "preferred"; otherwise it is unchanged.
   * The keyword text never changes.
   */
  function Classify(kw: Keyword, requiredText: string, preferredText: string): (r: Keyword)
    ensures r.keyword == kw.keyword
    ensures r.category == "required" <==> Contains(requiredText, Lower(kw.keyword)) || (kw.category == "required" && !Contains(preferredText, Lower(kw.keyword)))
    ensures Contains(requiredText, Lower(kw.keyword)) ==> r.weight == MinReal(1.0, kw.weight * 1.5)
    ensures !Contains(requiredText, Lower(kw.keyword)) ==> r.weight == kw.weight
    ensures !Contains(requiredText, Lower(kw.keyword)) && !Contains(preferredText, Lower(kw.keyword)) ==> r == kw
  {
    var lower := Lower(kw.keyword);
    if Contains(requiredText, lower) then kw.(category := "required", weight := MinReal(1.0, kw.weight * 1.5))
    else if Contains(preferredText, lower) then kw.(category := "preferred")
    else kw
  }

  /** `classify_keywords`: each keyword object updated in place, in list order. */
  method ClassifyKeywords(keywords: array<Keyword>, sections: Dict<string>)
    modifies keywords
    ensures forall i :: 0 <= i < keywords.Length ==> keywords[i] == Classify(old(keywords[i]), RequiredText(sections), PreferredText(sections))
  {
    var requiredText := RequiredText(sections);
    var preferredText := PreferredText(sections);
    var i := 0;
    while i < keywords.Length
      invariant 0 <= i <= keywords.Length
      invariant forall j :: 0 <= j < i ==> keywords[j] == Classify(old(keywords[j]), requiredText, preferredText)
      invariant forall j :: i <= j < keywords.Length ==> keywords[j] == old(keywords[j])
    {
      var kw := keywords[i];
      var kwLower := Lower(kw.keyword);
      if Contains(requiredText, kwLower) {
        keywords[i] := kw.(category := "required", weight := MinReal(1.0, kw.weight * 1.5));
      } else if Contains(preferredText, kwLower) {
        keywords[i] := kw.(category := "preferred");
      }
      i := i + 1;
    }
  }

  /** The keyword list of `parse_jd`, classified in place in a fresh array. */
  method ClassifyList(kws: seq<Keyword>, sections: Dict<string>) returns (r: seq<Keyword>)
    ensures r == Classified(kws, sections)
  {
    var a := new Keyword[|kws|](i requires 0 <= i < |kws| => kws[i]);
    ClassifyKeywords(a, sections);
    r := a[..];
  }

  /** The classified list, as a value. */
  function Classified(kws: seq<Keyword>, sections: Dict<string>): (r: seq<Keyword>)
    ensures |r| == |kws|
    ensures forall i :: 0 <= i < |kws| ==> r[i] == Classify(kws[i], RequiredText(sections), PreferredText(sections))
  {
    seq(|kws|, i requires 0 <= i < |kws| => Classify(kws[i], RequiredText(sections), PreferredText(sections)))
  }

  /** Classification keeps the length, the order and the texts of the keywords. */
  lemma ClassifiedKeepsTexts(kws: seq<Keyword>, sections: Dict<string>)
    ensures |Classified(kws, sections)| == |kws|
    ensures forall i :: 0 <= i < |kws| ==> Classified(kws, sections)[i].keyword == kws[i].keyword
    ensures forall i :: 0 <= i < |kws| && Contains(RequiredText(sections), Lower(kws[i].keyword)) ==>
      Classified(kws, sections)[i].category == "required" && Classified(kws, sections)[i].weight <= 1.0
  {
  }

  // ---------------------------------------------------------------- extract_list_items

  /** The characters of `[-•·*▪\d.)\]]`. */
  predicate IsBulletChar(c: char) {
    c == '-' || c == '•' || c == '·' || c == '*' || c == '▪' || IsDigit(c) || c == '.' || c == ')' || c == ']'
  }

  /** `re.sub(r"^[-•·*▪\d.)\]]+\s*", "", line)`: a leading bullet run and the spaces after it removed. */
  function DropBullet(line: string): (r: string)
    ensures |r| <= |line| && r == line[|line| - |r|..]
    ensures RunLen(line, IsBulletChar) == 0 ==> r == line
    ensures RunLen(line, IsBulletChar) > 0 ==> |r| == 0 || !IsSpace(r[0])
    ensures RunLen(line, IsBulletChar) > 0 ==>
      RunLen(line, IsBulletChar) <= |line| - |r| &&
      forall i :: RunLen(line, IsBulletChar) <= i < |line| - |r| ==> IsSpace(line[i])
  {
    var k := RunLen(line, IsBulletChar);
    if k == 0 then line
    else
      var rest := line[k..];
      rest[RunLen(rest, IsSpace)..]
  }

  /** The item a line yields, if it is long enough. */
  function ItemOf(line: string): (r: Option<string>)
    ensures r.Some? ==> |r.value| > 10
    ensures r.Some? <==> |DropBullet(Strip(line))| > 10
    ensures r.Some? ==> r.value == DropBullet(Strip(line))
  {
    var item := DropBullet(Strip(line));
    if item != "" && |item| > 10 then Some(item) else None
  }

  /** The values `f` yields on the lines, in line order. */
  function Kept(f: string -> Option<string>, lines: seq<string>): (r: seq<string>)
  {
    if |lines| == 0 then []
    else Kept(f, lines[..|lines| - 1]) + (match f(lines[|lines| - 1]) case Some(t) => [t] case None => [])
  }

  lemma KeptStep(f: string -> Option<string>, lines: seq<string>, i: nat)
    requires i < |lines|
    ensures Kept(f, lines[..i + 1]) == Kept(f, lines[..i]) + (match f(lines[i]) case Some(t) => [t] case None => [])
  {
    assert lines[..i + 1][..i] == lines[..i];
  }

  /** Every kept value is what `f` yields on some line. */
  lemma {:induction false} KeptFrom(f: string -> Option<string>, lines: seq<string>)
    ensures forall x :: x in Kept(f, lines) ==> exists j :: 0 <= j < |lines| && f(lines[j]) == Some(x)
  {
    if |lines| > 0 {
      var init := lines[..|lines| - 1];
      KeptFrom(f, init);
      forall x | x in Kept(f, lines) ensures exists j :: 0 <= j < |lines| && f(lines[j]) == Some(x) {
        if x in Kept(f, init) {
          var j :| 0 <= j < |init| && f(init[j]) == Some(x);
          assert init[j] == lines[j];
        } else {
          assert f(lines[|lines| - 1]) == Some(x);
        }
      }
    }
  }

  /** The items of `extract_list_items` for the given lines. */
  function ListItems(lines: seq<string>): (r: seq<string>)
  {
    Kept(ItemOf, lines)
  }

  /** `extract_list_items`. */
  method ExtractListItems(text: string) returns (items: seq<string>)
    ensures items == ListItems(Split(text, '\n'))
  {
    items := ListItemsOfLines(Split(text, '\n'));
  }

  /** The line loop of `extract_list_items`, for any per-line rule `f`. */
  method KeepEach(f: string -> Option<string>, lines: seq<string>) returns (items: seq<string>)
    ensures items == Kept(f, lines)
  {
    items := [];
    var i := 0;
    while i < |lines|
      invariant 0 <= i <= |lines|
      invariant items == Kept(f, lines[..i])
    {
      KeptStep(f, lines, i);
      var item := f(lines[i]);
      if item.Some? {
        items := items + [item.value];
      }
      i := i + 1;
    }
    assert lines[..i] == lines;
  }

  /** The line loop of `extract_list_items`. */
  method ListItemsOfLines(lines: seq<string>) returns (items: seq<string>)
    ensures items == ListItems(lines)
  {
    items := KeepEach(ItemOf, lines);
  }

  /**
   * Every item is what its stripped line leaves after the bullet marker, is
   * longer than ten characters and does not start with a space.
   */
  lemma ListItemsShape(lines: seq<string>)
    ensures forall x :: x in ListItems(lines) ==>
      |x| > 10 && !IsSpace(x[0]) && exists j :: 0 <= j < |lines| && DropBullet(Strip(lines[j])) == x
  {
    KeptFrom(ItemOf, lines);
    forall x | x in ListItems(lines) ensures |x| > 10 && !IsSpace(x[0]) && exists j :: 0 <= j < |lines| && DropBullet(Strip(lines[j])) == x {
      var j :| 0 <= j < |lines| && ItemOf(lines[j]) == Some(x);
      ItemNoLeadingSpace(lines[j]);
    }
  }

  /** An item never starts with a space. */
  lemma ItemNoLeadingSpace(line: string)
    requires ItemOf(line).Some?
    ensures !IsSpace(ItemOf(line).value[0])
  {
    var s := Strip(line);
    if RunLen(s, IsBulletChar) == 0 {
      assert IsStripped(s);
    }
  }

  // ---------------------------------------------------------------- extract_title

  const TitleStopWords: seq<string> := ["about", "description", "overview", "company"]

  predicate TitleLike(line: string) {
    line != "" && |line| < 100 && forall w :: w in TitleStopWords ==> !Contains(Lower(line), w)
  }

  /** The first five lines of the stripped text, each stripped. */
  function TitleCandidates(text: string): (c: seq<string>)
    ensures |c| <= 5 && |c| <= |Split(Strip(text), '\n')|
    ensures forall k :: 0 <= k < |c| ==> c[k] == Strip(Split(Strip(text), '\n')[k])
  {
    var lines := Split(Strip(text), '\n');
    StripAll(if |lines| <= 5 then lines else lines[..5])
  }

  /** `extract_title`: the first title-like candidate, or "" when there is none. */
  function ExtractTitle(text: string): (title: string)
    ensures title != "" ==> (exists k :: (0 <= k < |TitleCandidates(text)| && TitleCandidates(text)[k] == title
      && TitleLike(title) && forall j :: 0 <= j < k ==> !TitleLike(TitleCandidates(text)[j])))
    ensures title == "" <==> forall k :: 0 <= k < |TitleCandidates(text)| ==> !TitleLike(TitleCandidates(text)[k])
  {
    match FirstWhere(TitleCandidates(text), TitleLike)
    case Some(t) => t
    case None => ""
  }

  /** A title is shorter than 100 characters, stripped, and free of the stop words. */
  lemma TitleShape(text: string)
    ensures var t := ExtractTitle(text);
      t != "" ==> |t| < 100 && IsStripped(t) && forall w :: w in TitleStopWords ==> !Contains(Lower(t), w)
  {
    var t := ExtractTitle(text);
    if t != "" {
      var k :| 0 <= k < |TitleCandidates(text)| && TitleCandidates(text)[k] == t && TitleLike(t);
      assert t == Strip(Split(Strip(text), '\n')[k]);
    }
  }

  // ---------------------------------------------------------------- frequency fallback

  /** Every counted word was seen at least once, keys are distinct and longer than two characters. */
  predicate CountsOk(d: Dict<int>) {
    DistinctKeys(d) && forall i :: 0 <= i < |d| ==> d[i].1 >= 1 && |d[i].0| > 2
  }

  /** `word_freq` after the counting loop. */
  function Frequencies(words: seq<string>): (d: Dict<int>)
    ensures CountsOk(d)
  {
    if |words| == 0 then []
    else
      CountStep(Frequencies(words[..|words| - 1]), words[|words| - 1])
  }

  /** One word read by the count loop: only words longer than two characters are counted. */
  function CountStep(d: Dict<int>, w: string): (d': Dict<int>)
    requires CountsOk(d)
    ensures CountsOk(d')
  {
    if |Lower(w)| > 2 then CountOneMore(d, w); Put(d, w, GetOr(d, w, 0) + 1) else d
  }

  /** Counting one more occurrence of a long enough word keeps the counts well formed. */
  lemma CountOneMore(d: Dict<int>, w: string)
    requires CountsOk(d) && |w| > 2
    ensures CountsOk(Put(d, w, GetOr(d, w, 0) + 1))
  {
    PutKeys(d, w, GetOr(d, w, 0) + 1);
    var g := Get(d, w);
    if g.Some? {
      var i :| 0 <= i < |d| && d[i] == (w, g.value);
    }
  }

  /** One more word read by the count loop. */
  lemma FrequenciesStep(words: seq<string>, i: nat, d: Dict<int>, d': Dict<int>)
    requires i < |words| && d == Frequencies(words[..i])
    requires d' == CountStep(d, words[i])
    ensures d' == Frequencies(words[..i + 1])
  {
    assert words[..i + 1][..i] == words[..i];
  }

  /** The count loop of the fallback. */
  method CountWordsFreq(words: seq<string>) returns (freq: Dict<int>)
    ensures freq == Frequencies(words)
  {
    freq := [];
    var i := 0;
    while i < |words|
      invariant 0 <= i <= |words|
      invariant freq == Frequencies(words[..i])
    {
      freq := CountWord(words, i, freq);
      i := i + 1;
    }
    assert words[..i] == words;
  }

  /** One iteration of the count loop: only words longer than two characters are counted. */
  method CountWord(words: seq<string>, i: nat, freq: Dict<int>) returns (freq': Dict<int>)
    requires i < |words| && freq == Frequencies(words[..i])
    ensures freq' == Frequencies(words[..i + 1])
  {
    var w := words[i];
    freq' := freq;
    var wLower := Lower(w);
    if |wLower| > 2 {
      freq' := Put(freq, w, GetOr(freq, w, 0) + 1);
    }
    FrequenciesStep(words, i, freq, freq');
  }

  function Count(e: (string, int)): int { e.1 }

  /** `sorted(word_freq.items(), key=count, reverse=True)[:30]`. */
  function TopWords(freq: Dict<int>): (r: seq<(string, int)>)
    ensures |r| <= 30
  {
    var sorted := SortDesc(freq, Count);
    if |sorted| <= 30 then sorted else sorted[..30]
  }

  /** The keyword built from a counted word, relative to the top count. */
  function WeightedKeyword(e: (string, int), top: int): (k: Keyword)
  {
    Keyword(e.0, Round3(e.1 as real / (if top >= 1 then top else 1) as real), "preferred")
  }

  /** The fallback branch of `extract_keywords_from_jd`. */
  function FallbackKeywords(rx: Recognizers, text: string): (r: seq<Keyword>)
    ensures |r| <= 30
    ensures forall i :: 0 <= i < |r| ==> r[i].category == "preferred"
  {
    KeywordsOf(TopWords(Frequencies(rx.capitalizedPhrases(text))))
  }

  /** The keywords built from the top counts, each weighted relative to the first. */
  function KeywordsOf(top: seq<(string, int)>): (r: seq<Keyword>)
    ensures |r| == |top|
    ensures forall i :: 0 <= i < |r| ==> r[i].keyword == top[i].0 && r[i].category == "preferred"
  {
    if |top| == 0 then [] else seq(|top|, i requires 0 <= i < |top| => WeightedKeyword(top[i], top[0].1))
  }

  /** Counts sorted descending give weights in non-increasing order. */
  lemma KeywordsOfOrdered(top: seq<(string, int)>)
    requires Descending(top, Count) && (|top| > 0 ==> top[0].1 >= 1)
    ensures forall i, j :: 0 <= i < j < |KeywordsOf(top)| ==> KeywordsOf(top)[i].weight >= KeywordsOf(top)[j].weight
  {
    var r := KeywordsOf(top);
    forall i, j | 0 <= i < j < |r| ensures r[i].weight >= r[j].weight {
      var c0 := top[0].1;
      assert Count(top[i]) >= Count(top[j]);
      DivMonotone(top[j].1, top[i].1, c0);
      RoundMonotone(top[j].1 as real / c0 as real * 1000.0, top[i].1 as real / c0 as real * 1000.0);
    }
  }

  lemma DivMonotone(a: int, b: int, c: int)
    requires a <= b && c >= 1
    ensures a as real / c as real <= b as real / c as real
  {
    var q := c as real;
    assert a as real / q * q == a as real;
    assert b as real / q * q == b as real;
    if a as real / q > b as real / q {
      assert (a as real / q - b as real / q) * q > 0.0;
    }
  }

  /** The first keyword, holding the top count, has weight 1.0. */
  lemma KeywordsOfFirst(top: seq<(string, int)>)
    requires |top| > 0 && top[0].1 >= 1
    ensures KeywordsOf(top)[0].weight == 1.0
  {
    var c0 := top[0].1;
    assert c0 as real / c0 as real == 1.0;
    Round3OfOne();
  }

  lemma TopWordsSorted(freq: Dict<int>)
    ensures Descending(TopWords(freq), Count)
    ensures multiset(TopWords(freq)) <= multiset(freq)
  {
    SortDescSorted(freq, Count);
    var sorted := SortDesc(freq, Count);
    if |sorted| > 30 {
      assert sorted == sorted[..30] + sorted[30..];
      assert multiset(sorted) == multiset(sorted[..30]) + multiset(sorted[30..]);
    }
  }

  /**
   * The fallback keywords come in non-increasing weight (the counts are
   * sorted descending), and the first has weight 1.0 (its count is the top
   * count, and at least 1).
   */
  lemma FallbackWeights(rx: Recognizers, text: string)
    ensures var r := FallbackKeywords(rx, text);
      && (forall i, j :: 0 <= i < j < |r| ==> r[i].weight >= r[j].weight)
      && (|r| > 0 ==> r[0].weight == 1.0)
  {
    var freq := Frequencies(rx.capitalizedPhrases(text));
    var top := TopWords(freq);
    TopWordsSorted(freq);
    if |top| > 0 {
      assert top[0] in multiset(freq);
      var z :| 0 <= z < |freq| && freq[z] == top[0];
      KeywordsOfFirst(top);
    }
    KeywordsOfOrdered(top);
  }

  // ---------------------------------------------------------------- parse_jd

  /** `ParsedJD`. */
  datatype ParsedJd = ParsedJd(
    rawText: string,
    title: string,
    company: Option<string>,
    requiredSkills: seq<string>,
    preferredSkills: seq<string>,
    responsibilities: seq<string>,
    qualifications: seq<string>,
    experienceLevel: string,
    keywords: seq<Keyword>
  )

  /** The texts of the keywords whose category test equals `required`, in order. */
  function SkillsWhere(kws: seq<Keyword>, required: bool): (r: seq<string>)
    ensures |r| <= |kws|
  {
    if |kws| == 0 then []
    else SkillsWhere(kws[..|kws| - 1], required) + (if (kws[|kws| - 1].category == "required") == required then [kws[|kws| - 1].keyword] else [])
  }

  /** The texts of the keywords, in order. */
  function KeywordTexts(kws: seq<Keyword>): (ts: seq<string>) {
    seq(|kws|, i requires 0 <= i < |kws| => kws[i].keyword)
  }

  lemma KeywordTextsSnoc(kws: seq<Keyword>)
    requires |kws| > 0
    ensures KeywordTexts(kws) == KeywordTexts(kws[..|kws| - 1]) + [kws[|kws| - 1].keyword]
  {
  }

  /** Every keyword lands in exactly one of the two lists: together they hold each text as often as the keywords do. */
  lemma {:induction false} SkillsPartition(kws: seq<Keyword>)
    ensures multiset(SkillsWhere(kws, true)) + multiset(SkillsWhere(kws, false)) == multiset(KeywordTexts(kws))
    ensures |SkillsWhere(kws, true)| + |SkillsWhere(kws, false)| == |kws|
  {
    if |kws| > 0 {
      var init := kws[..|kws| - 1];
      var k := kws[|kws| - 1];
      SkillsPartition(init);
      KeywordTextsSnoc(kws);
      PartitionStep(SkillsWhere(init, true), SkillsWhere(init, false), KeywordTexts(init), k.keyword, k.category == "required",
        SkillsWhere(kws, true), SkillsWhere(kws, false), KeywordTexts(kws));
    }
  }

  /** The partition loop of `parse_jd`. */
  method PartitionSkills(kws: seq<Keyword>) returns (required: seq<string>, preferred: seq<string>)
    ensures required == SkillsWhere(kws, true) && preferred == SkillsWhere(kws, false)
  {
    required := [];
    preferred := [];
    var i := 0;
    while i < |kws|
      invariant 0 <= i <= |kws|
      invariant required == SkillsWhere(kws[..i], true) && preferred == SkillsWhere(kws[..i], false)
    {
      assert kws[..i + 1][..i] == kws[..i];
      if kws[i].category == "required" {
        required := required + [kws[i].keyword];
      } else {
        preferred := preferred + [kws[i].keyword];
      }
      i := i + 1;
    }
    assert kws[..i] == kws;
  }

  /**
   * `parse_jd`. The keyword extractor is a parameter: the KeyBERT branch is
   * a foreign model, and `FallbackKeywords` is the branch taken without it.
   */
  method ParseJd(rx: Recognizers, text: string, extracted: seq<Keyword>) returns (jd: ParsedJd)
    ensures jd.rawText == CleanText(text)
    ensures jd.keywords == Classified(extracted, JdSections(jd.rawText))
    ensures jd.requiredSkills == SkillsWhere(jd.keywords, true) && jd.preferredSkills == SkillsWhere(jd.keywords, false)
    ensures jd.experienceLevel == DetectExperienceLevel(jd.rawText) && jd.title == ExtractTitle(jd.rawText)
    ensures jd.responsibilities == ListItems(Split(GetOr(JdSections(jd.rawText), "responsibilities", ""), '\n'))
    ensures jd.qualifications == ListItems(Split(GetOr(JdSections(jd.rawText), "qualifications", "") + "\n" + GetOr(JdSections(jd.rawText), "required", ""), '\n'))
    ensures jd.company == rx.companyName(jd.rawText)
  {
    var cleaned := CleanText(text);
    var sections := ExtractJdSections(cleaned);
    var keywords := ClassifyList(extracted, sections);
    var level := DetectExperienceLevel(cleaned);
    var title := ExtractTitle(cleaned);
    var required, preferred := PartitionSkills(keywords);
    var responsibilities := ExtractListItems(GetOr(sections, "responsibilities", ""));
    var qualifications := ExtractListItems(GetOr(sections, "qualifications", "") + "\n" + GetOr(sections, "required", ""));
    jd := ParsedJd(cleaned, title, rx.companyName(cleaned), required, preferred, responsibilities, qualifications, level, keywords);
  }

  /** Classifying the fallback keywords: their texts stay, a keyword is required exactly when found in the required text, and the first still weighs 1. */
  lemma ClassifiedFallback(rx: Recognizers, text: string, sections: Dict<string>)
    ensures var fb := FallbackKeywords(rx, text);
      var r := Classified(fb, sections);
      && |r| <= 30
      && (forall i :: 0 <= i < |r| ==> r[i].keyword == fb[i].keyword)
      && (forall i :: 0 <= i < |r| ==> (r[i].category == "required" <==> Contains(RequiredText(sections), Lower(r[i].keyword))))
      && (|r| > 0 ==> r[0].weight == 1.0)
  {
    FallbackWeights(rx, text);
  }

  /**
   * `parse_jd` on the branch taken without the embedding model: the keywords
   * handed to `ParseJd` are the frequency fallback of the cleaned text.
   */
  method ParseJdFallback(rx: Recognizers, text: string) returns (jd: ParsedJd)
    ensures jd.rawText == CleanText(text)
    ensures jd.keywords == Classified(FallbackKeywords(rx, jd.rawText), JdSections(jd.rawText))
    ensures |jd.keywords| <= 30 && |jd.requiredSkills| + |jd.preferredSkills| == |jd.keywords|
    ensures forall i :: 0 <= i < |jd.keywords| ==> jd.keywords[i].keyword == FallbackKeywords(rx, jd.rawText)[i].keyword
    ensures forall i :: 0 <= i < |jd.keywords| ==>
      (jd.keywords[i].category == "required" <==> Contains(RequiredText(JdSections(jd.rawText)), Lower(jd.keywords[i].keyword)))
    ensures |jd.keywords| > 0 ==> jd.keywords[0].weight == 1.0
    ensures jd.experienceLevel == DetectExperienceLevel(jd.rawText) && jd.title == ExtractTitle(jd.rawText)
    ensures jd.responsibilities == ListItems(Split(GetOr(JdSections(jd.rawText), "responsibilities", ""), '\n'))
    ensures jd.qualifications == ListItems(Split(GetOr(JdSections(jd.rawText), "qualifications", "") + "\n" + GetOr(JdSections(jd.rawText), "required", ""), '\n'))
    ensures jd.company == rx.companyName(jd.rawText)
  {
    var cleaned := CleanText(text);
    ClassifiedFallback(rx, cleaned, JdSections(cleaned));
    jd := ParseJd(rx, text, FallbackKeywords(rx, cleaned));
    SkillsPartition(jd.keywords);
  }
}
