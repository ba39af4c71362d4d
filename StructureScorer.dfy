/**
 * The structural rubric of backend/app/services/structure_scorer.py:
 * contact (25), section presence (25), length (25) and formatting (25)
 * points, the details record and the ordered list of formatting issues.
 */
module StructureScorer {
  import opened Strings
  import opened Dicts
  import opened Numeric
  import opened Vocabulary
  import opened ResumeFields
  import ResumeParser

  /** `StructureDetails`; fields the scorer does not set keep the defaults false, 0 and []. */
  datatype StructureDetails = StructureDetails(
    hasName: bool,
    hasEmail: bool,
    hasPhone: bool,
    hasLinkedin: bool,
    hasGithub: bool,
    hasSummary: bool,
    hasExperience: bool,
    hasEducation: bool,
    hasSkills: bool,
    hasProjects: bool,
    wordCount: nat,
    estimatedPages: int,
    hasStandardHeaders: bool,
    hasConsistentDates: bool,
    formattingIssues: seq<string>
  )

  /** `StructureResult`. */
  datatype StructureResult = StructureResult(
    contactScore: int,
    sectionsScore: int,
    lengthScore: int,
    formattingScore: int,
    totalScore: int,
    details: StructureDetails
  )

  // ---------------------------------------------------------------- rule tables

  /** The number of present items among the first `n`. */
  function Present(flags: seq<bool>, n: nat := |flags|): (k: nat)
    requires n <= |flags|
    ensures k <= n
  {
    if n == 0 then 0 else Present(flags, n - 1) + (if flags[n - 1] then 1 else 0)
  }

  /** The points of the present items among the first `n`, item `j` being worth `points[j]`. */
  function Points(flags: seq<bool>, points: seq<int>, n: nat := |flags|): (p: int)
    requires n <= |flags| == |points|
  {
    if n == 0 then 0 else Points(flags, points, n - 1) + (if flags[n - 1] then points[n - 1] else 0)
  }

  /** The issue of one item: none when present, else its message. */
  function Issue(present: bool, msg: string): (r: seq<string>)
  {
    if present then [] else [msg]
  }

  /** The message of every absent item among the first `n`, in item order. */
  function Missing(flags: seq<bool>, msgs: seq<string>, n: nat := |flags|): (r: seq<string>)
    requires n <= |flags| == |msgs|
  {
    if n == 0 then [] else Missing(flags, msgs, n - 1) + Issue(flags[n - 1], msgs[n - 1])
  }

  /** One message per absent item: their number is the number of items minus the present ones. */
  lemma {:induction false} MissingCount(flags: seq<bool>, msgs: seq<string>, n: nat := |flags|)
    requires n <= |flags| == |msgs|
    ensures |Missing(flags, msgs, n)| == n - Present(flags, n)
    ensures forall m :: m in Missing(flags, msgs, n) ==> m in msgs
  {
    if n > 0 {
      MissingCount(flags, msgs, n - 1);
    }
  }

  /** Equal points per item: the points are that value times the number present. */
  lemma {:induction false} PointsUniform(flags: seq<bool>, points: seq<int>, w: int, n: nat := |flags|)
    requires n <= |flags| == |points|
    requires forall j :: 0 <= j < |points| ==> points[j] == w
    ensures Points(flags, points, n) == w * Present(flags, n)
  {
    if n > 0 {
      PointsUniform(flags, points, w, n - 1);
    }
  }

  /** The points of five items, written out. */
  lemma Points5(f: seq<bool>, p: seq<int>)
    requires |f| == |p| == 5
    ensures Points(f, p) == (if f[0] then p[0] else 0) + (if f[1] then p[1] else 0) + (if f[2] then p[2] else 0)
                            + (if f[3] then p[3] else 0) + (if f[4] then p[4] else 0)
  {
    assert Points(f, p, 1) == (if f[0] then p[0] else 0);
    assert Points(f, p, 3) == Points(f, p, 1) + (if f[1] then p[1] else 0) + (if f[2] then p[2] else 0);
  }

  /** Rubric item `n`: its points when present, else its issue. */
  method ScoreItem(score: int, issues: seq<string>, flags: seq<bool>, points: seq<int>, msgs: seq<string>, n: nat)
    returns (score': int, issues': seq<string>)
    requires n < |flags| == |points| == |msgs|
    requires score == Points(flags, points, n) && issues == Missing(flags, msgs, n)
    ensures score' == Points(flags, points, n + 1)
    ensures issues' == Missing(flags, msgs, n + 1)
  {
    score', issues' := score, issues;
    if flags[n] {
      score' := score' + points[n];
    } else {
      issues' := issues' + [msgs[n]];
    }
  }

  // ---------------------------------------------------------------- contact (25 points)

  /** name, email, phone, linkedin, and github or portfolio. */
  function ContactFlags(c: Contact): (flags: seq<bool>)
    ensures |flags| == 5
  {
    [c.name != "", c.email != "", c.phone != "", c.linkedin != "", c.github != "" || c.portfolio != ""]
  }

  const ContactPoints: seq<int> := [5, 5, 5, 5, 5]

  const ContactMessages: seq<string> := [
    "No name detected at the top of resume",
    "No email address found",
    "No phone number found",
    "No LinkedIn URL found",
    "No GitHub/Portfolio URL found"
  ]

  /** The contact block: 5 points and no issue per present item, else an issue. */
  method ScoreContact(c: Contact) returns (score: int, issues: seq<string>)
    ensures score == 5 * Present(ContactFlags(c))
    ensures issues == Missing(ContactFlags(c), ContactMessages)
  {
    var f := ContactFlags(c);
    score, issues := ScoreItem(0, [], f, ContactPoints, ContactMessages, 0);
    score, issues := ScoreItem(score, issues, f, ContactPoints, ContactMessages, 1);
    score, issues := ScoreItem(score, issues, f, ContactPoints, ContactMessages, 2);
    score, issues := ScoreItem(score, issues, f, ContactPoints, ContactMessages, 3);
    score, issues := ScoreItem(score, issues, f, ContactPoints, ContactMessages, 4);
    PointsUniform(f, ContactPoints, 5);
  }

  // ---------------------------------------------------------------- section presence (25 points)

  /** `any(k in section_keys for k in aliases)`. */
  predicate HasAny(keys: seq<string>, aliases: seq<string>) {
    exists a :: a in aliases && a in keys
  }

  /** summary, experience, education, skills, projects, matched against their alias lists. */
  function SectionFlags(keys: seq<string>): (flags: seq<bool>)
    ensures |flags| == 5
  {
    [HasAny(keys, SummaryAliases), HasAny(keys, ExperienceAliases), HasAny(keys, EducationAliases),
     HasAny(keys, SkillsAliases), HasAny(keys, ProjectAliases)]
  }

  const SectionPoints: seq<int> := [4, 6, 5, 5, 5]

  const SectionMessages: seq<string> := [
    "Missing Summary/About section",
    "Missing Experience section",
    "Missing Education section",
    "Missing Skills section",
    "Missing Projects section"
  ]

  /** The section block: the item's points when one of its aliases is a key, else an issue. */
  method ScoreSections(keys: seq<string>) returns (score: int, issues: seq<string>)
    ensures score == Points(SectionFlags(keys), SectionPoints)
    ensures issues == Missing(SectionFlags(keys), SectionMessages)
  {
    var f := SectionFlags(keys);
    score, issues := ScoreItem(0, [], f, SectionPoints, SectionMessages, 0);
    score, issues := ScoreItem(score, issues, f, SectionPoints, SectionMessages, 1);
    score, issues := ScoreItem(score, issues, f, SectionPoints, SectionMessages, 2);
    score, issues := ScoreItem(score, issues, f, SectionPoints, SectionMessages, 3);
    score, issues := ScoreItem(score, issues, f, SectionPoints, SectionMessages, 4);
  }

  /** Section points are `4·summary + 6·experience + 5·(education + skills + projects)`, at most 25. */
  lemma SectionsBounds(keys: seq<string>)
    ensures var f := SectionFlags(keys);
      Points(f, SectionPoints)
        == (if f[0] then 4 else 0) + (if f[1] then 6 else 0) + (if f[2] then 5 else 0) + (if f[3] then 5 else 0) + (if f[4] then 5 else 0)
    ensures 0 <= Points(SectionFlags(keys), SectionPoints) <= 25
  {
    Points5(SectionFlags(keys), SectionPoints);
  }

  // ---------------------------------------------------------------- length (25 points)

  /** The length band's points. */
  function LengthScore(wc: nat): (p: int)
  {
    if 300 <= wc <= 800 then 25
    else if (200 <= wc < 300) || (800 < wc <= 1000) then 15
    else 5
  }

  /** The length issue, if any. */
  function LengthIssues(wc: nat): (r: seq<string>)
  {
    if 300 <= wc <= 800 then []
    else if (200 <= wc < 300) || (800 < wc <= 1000) then
      ["Resume length (" + NatToString(wc) + " words) is " + (if wc < 300 then "short" else "long") + " for optimal ATS parsing"]
    else
      ["Resume length (" + NatToString(wc) + " words) is " + (if wc < 200 then "too short" else "too long") + " for ATS"]
  }

  method ScoreLength(wc: nat) returns (score: int, issues: seq<string>)
    ensures score == LengthScore(wc) && issues == LengthIssues(wc)
  {
    issues := [];
    if 300 <= wc && wc <= 800 {
      score := 25;
    } else if (200 <= wc && wc < 300) || (800 < wc && wc <= 1000) {
      score := 15;
      issues := issues + ["Resume length (" + NatToString(wc) + " words) is " + (if wc < 300 then "short" else "long") + " for optimal ATS parsing"];
    } else {
      score := 5;
      issues := issues + ["Resume length (" + NatToString(wc) + " words) is " + (if wc < 200 then "too short" else "too long") + " for ATS"];
    }
  }

  /**
   * The bands: 25 exactly on 300..800, 15 exactly on 200..299 and
   * 801..1000, 5 elsewhere; one issue exactly outside 300..800.
   */
  lemma LengthBands(wc: nat)
    ensures LengthScore(wc) == 25 <==> 300 <= wc <= 800
    ensures LengthScore(wc) == 15 <==> (200 <= wc < 300) || (800 < wc <= 1000)
    ensures LengthScore(wc) == 5 <==> wc < 200 || wc > 1000
    ensures |LengthIssues(wc)| == (if 300 <= wc <= 800 then 0 else 1)
  {
  }

  // ---------------------------------------------------------------- formatting (25 points)

  /** The number of keys whose lower-case form is not a standard header. */
  function NonStandard(keys: seq<string>): (n: nat)
    ensures n <= |keys|
  {
    if |keys| == 0 then 0
    else NonStandard(keys[..|keys| - 1]) + (if Lower(keys[|keys| - 1]) in SectionHeaders then 0 else 1)
  }

  /** No non-standard key exactly when every key's lower-case form is a standard header. */
  lemma {:induction false} NonStandardZero(keys: seq<string>)
    ensures NonStandard(keys) == 0 <==> forall i :: 0 <= i < |keys| ==> Lower(keys[i]) in SectionHeaders
  {
    if |keys| > 0 {
      NonStandardZero(keys[..|keys| - 1]);
      assert forall i :: 0 <= i < |keys| - 1 ==> keys[..|keys| - 1][i] == keys[i];
    }
  }

  /** The header-count loop. */
  method CountNonStandard(keys: seq<string>) returns (n: nat)
    ensures n == NonStandard(keys)
  {
    n := 0;
    var i := 0;
    while i < |keys|
      invariant 0 <= i <= |keys|
      invariant n == NonStandard(keys[..i])
    {
      assert keys[..i + 1][..i] == keys[..i];
      if Lower(keys[i]) !in SectionHeaders {
        n := n + 1;
      }
      i := i + 1;
    }
    assert keys[..i] == keys;
  }

  /** The header points: 10 for none non-standard, 5 for one or two, else 0. */
  function HeaderPoints(n: nat): (p: int)
  {
    if n == 0 then 10 else if n <= 2 then 5 else 0
  }

  function HeaderIssues(n: nat): (r: seq<string>)
  {
    if n == 0 then [] else if n <= 2 then ["Some non-standard section headers detected"]
    else ["Multiple non-standard section headers may confuse ATS"]
  }

  // The date pattern `(\w+\s+\d{4}|\d{1,2}/\d{4}|\d{4})`, on ASCII classes.

  predicate FourDigitsAt(s: string, i: nat) {
    i + 4 <= |s| && IsDigit(s[i]) && IsDigit(s[i + 1]) && IsDigit(s[i + 2]) && IsDigit(s[i + 3])
  }

  predicate AllWord(s: string, i: nat, j: nat)
    requires i <= j <= |s|
  {
    forall t :: i <= t < j ==> IsWordChar(s[t])
  }

  predicate AllSpace(s: string, i: nat, j: nat)
    requires i <= j <= |s|
  {
    forall t :: i <= t < j ==> IsSpace(s[t])
  }

  /** `\w+\s+\d{4}` spanning `s[i..k+4]`, the spaces starting at `j`. */
  predicate WordSpaceYear(s: string, i: nat, j: nat, k: nat) {
    i < j < k && k + 4 <= |s| && AllWord(s, i, j) && AllSpace(s, j, k) && FourDigitsAt(s, k)
  }

  /** `\d{n}/\d{4}` at `i`, for `n` of 1 or 2. */
  predicate SlashYear(s: string, i: nat, n: nat) {
    1 <= n <= 2 && i + n + 5 <= |s| && IsDigit(s[i]) && (n == 2 ==> IsDigit(s[i + 1])) && s[i + n] == '/'
    && FourDigitsAt(s, i + n + 1)
  }

  /** One of the three alternatives matches at `i`. */
  predicate DateAt(s: string, i: nat) {
    (exists j: nat, k: nat | j <= k <= |s| :: WordSpaceYear(s, i, j, k))
    || SlashYear(s, i, 1) || SlashYear(s, i, 2) || FourDigitsAt(s, i)
  }

  /** `re.findall(...)` of the date pattern is non-empty. */
  predicate HasDates(s: string) {
    exists i: nat | i < |s| :: DateAt(s, i)
  }

  /** Every alternative contains `\d{4}`: dates are found exactly when four digits stand together. */
  lemma DatesIffYear(s: string)
    ensures HasDates(s) <==> exists i: nat | i < |s| :: FourDigitsAt(s, i)
  {
    if HasDates(s) {
      var i: nat :| i < |s| && DateAt(s, i);
      if exists j: nat, k: nat | j <= k <= |s| :: WordSpaceYear(s, i, j, k) {
        var j: nat, k: nat :| j <= k <= |s| && WordSpaceYear(s, i, j, k);
        assert FourDigitsAt(s, k) && k < |s|;
      } else if SlashYear(s, i, 1) {
        assert FourDigitsAt(s, i + 2) && i + 2 < |s|;
      } else if SlashYear(s, i, 2) {
        assert FourDigitsAt(s, i + 3) && i + 3 < |s|;
      }
    }
    if exists i: nat | i < |s| :: FourDigitsAt(s, i) {
      var i: nat :| i < |s| && FourDigitsAt(s, i);
      assert DateAt(s, i);
    }
  }

  /** The formatting block: 10, the header points, and 5 when a date is found. */
  method ScoreFormatting(keys: seq<string>, rawText: string) returns (score: int, issues: seq<string>, standard: bool, dates: bool)
    ensures score == 10 + HeaderPoints(NonStandard(keys)) + (if HasDates(rawText) then 5 else 0)
    ensures issues == HeaderIssues(NonStandard(keys))
    ensures standard == (NonStandard(keys) == 0) && dates == HasDates(rawText)
  {
    score := 0;
    issues := [];
    score := score + 10;
    var nonStandard := CountNonStandard(keys);
    if nonStandard == 0 {
      score := score + 10;
      standard := true;
    } else if nonStandard <= 2 {
      score := score + 5;
      standard := false;
      issues := issues + ["Some non-standard section headers detected"];
    } else {
      standard := false;
      issues := issues + ["Multiple non-standard section headers may confuse ATS"];
    }
    dates := false;
    if HasDates(rawText) {
      score := score + 5;
      dates := true;
    }
  }

  // ---------------------------------------------------------------- compute_structure_score

  /** The issues in rule order: contact, sections, length, headers. */
  function Issues(r: ResumeParser.ParsedResume): (issues: seq<string>)
  {
    Missing(ContactFlags(r.contact), ContactMessages) + Missing(SectionFlags(Keys(r.sections)), SectionMessages)
    + LengthIssues(r.wordCount) + HeaderIssues(NonStandard(Keys(r.sections)))
  }

  /** `compute_structure_score`. */
  method ComputeStructureScore(r: ResumeParser.ParsedResume) returns (total: int, result: StructureResult)
    ensures result.contactScore == 5 * Present(ContactFlags(r.contact))
    ensures result.sectionsScore == Points(SectionFlags(Keys(r.sections)), SectionPoints)
    ensures result.lengthScore == LengthScore(r.wordCount)
    ensures result.formattingScore == 10 + HeaderPoints(NonStandard(Keys(r.sections))) + (if HasDates(r.rawText) then 5 else 0)
    ensures total == result.totalScore
      == result.contactScore + result.sectionsScore + result.lengthScore + result.formattingScore
    ensures var d := result.details;
      && [d.hasName, d.hasEmail, d.hasPhone, d.hasLinkedin, d.hasGithub] == ContactFlags(r.contact)
      && [d.hasSummary, d.hasExperience, d.hasEducation, d.hasSkills, d.hasProjects] == SectionFlags(Keys(r.sections))
      && d.wordCount == r.wordCount && d.estimatedPages == r.estimatedPages
      && d.hasStandardHeaders == (NonStandard(Keys(r.sections)) == 0)
      && d.hasConsistentDates == HasDates(r.rawText)
      && d.formattingIssues == Issues(r)
  {
    var keys := Keys(r.sections);
    var contactScore, contactIssues := ScoreContact(r.contact);
    var sectionsScore, sectionIssues := ScoreSections(keys);
    var lengthScore, lengthIssues := ScoreLength(r.wordCount);
    var formattingScore, headerIssues, standard, dates := ScoreFormatting(keys, r.rawText);
    var c := ContactFlags(r.contact);
    var s := SectionFlags(keys);
    var details := StructureDetails(c[0], c[1], c[2], c[3], c[4], s[0], s[1], s[2], s[3], s[4],
                                    r.wordCount, r.estimatedPages, standard, dates,
                                    contactIssues + sectionIssues + lengthIssues + headerIssues);
    total := contactScore + sectionsScore + lengthScore + formattingScore;
    result := StructureResult(contactScore, sectionsScore, lengthScore, formattingScore, total, details);
  }

  /** The four parts as functions of the résumé. */
  function Total(r: ResumeParser.ParsedResume): (t: int)
  {
    5 * Present(ContactFlags(r.contact)) + Points(SectionFlags(Keys(r.sections)), SectionPoints)
    + LengthScore(r.wordCount) + 10 + HeaderPoints(NonStandard(Keys(r.sections))) + (if HasDates(r.rawText) then 5 else 0)
  }

  /**
   * Contact points are a multiple of 5 up to 25, formatting lies in
   * [10, 25], and the total in [15, 100].
   */
  lemma TotalBounds(r: ResumeParser.ParsedResume)
    ensures 5 * Present(ContactFlags(r.contact)) in {0, 5, 10, 15, 20, 25}
    ensures 10 <= 10 + HeaderPoints(NonStandard(Keys(r.sections))) + (if HasDates(r.rawText) then 5 else 0) <= 25
    ensures 15 <= Total(r) <= 100
  {
    SectionsBounds(Keys(r.sections));
  }

  /**
   * One issue per missing contact item, per missing section, for a length
   * outside 300..800 and for any non-standard header; a missing date adds none.
   */
  lemma IssueCount(r: ResumeParser.ParsedResume)
    ensures |Issues(r)| == (5 - Present(ContactFlags(r.contact))) + (5 - Present(SectionFlags(Keys(r.sections))))
      + (if 300 <= r.wordCount <= 800 then 0 else 1) + (if NonStandard(Keys(r.sections)) == 0 then 0 else 1)
  {
    MissingCount(ContactFlags(r.contact), ContactMessages);
    MissingCount(SectionFlags(Keys(r.sections)), SectionMessages);
    LengthBands(r.wordCount);
    assert |HeaderIssues(NonStandard(Keys(r.sections)))| == (if NonStandard(Keys(r.sections)) == 0 then 0 else 1);
  }

  /**
   * A résumé with name, e-mail and phone but no LinkedIn, GitHub or
   * portfolio, with summary, experience, education and skills sections but
   * no projects, 450 words, only standard headers and a year scores
   * 15 + 20 + 25 + 25 = 85.
   */
  lemma Example85(r: ResumeParser.ParsedResume)
    requires r.contact.name != "" && r.contact.email != "" && r.contact.phone != ""
    requires r.contact.linkedin == "" && r.contact.github == "" && r.contact.portfolio == ""
    requires SectionFlags(Keys(r.sections)) == [true, true, true, true, false]
    requires r.wordCount == 450
    requires NonStandard(Keys(r.sections)) == 0
    requires exists i: nat | i < |r.rawText| :: FourDigitsAt(r.rawText, i)
    ensures Total(r) == 85
  {
    DatesIffYear(r.rawText);
    SectionsBounds(Keys(r.sections));
    Points5(ContactFlags(r.contact), ContactPoints);
    PointsUniform(ContactFlags(r.contact), ContactPoints, 5);
  }
}
