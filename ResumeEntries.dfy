/**
 * The entry extractors of backend/app/services/resume_parser.py:
 * `extract_experience`, `extract_education`, and the project and
 * certification loops of `parse_resume`.
 */
module ResumeEntries {
  import opened Wrappers
  import opened Strings
  import opened Dicts
  import opened Vocabulary
  import opened Recognizers
  import opened TextProcessing
  import opened ResumeFields

  /** The text of the first alias present in `sections`, "" when none is. */
  function AliasText(sections: Dict<string>, aliases: seq<string>): (t: string)
    ensures FirstPresent(sections, aliases).None? ==> t == ""
    ensures FirstPresent(sections, aliases).Some? ==> t == FirstPresent(sections, aliases).value.1
  {
    match FirstPresent(sections, aliases)
    case Some(kv) => kv.1
    case None => ""
  }

  lemma {:induction false} NonBlankStrippedSound(parts: seq<string>, x: string)
    requires x in NonBlankStripped(parts)
    ensures exists j :: 0 <= j < |parts| && x == Strip(parts[j])
  {
    var n := |parts| - 1;
    var init := parts[..n];
    var s := Strip(parts[n]);
    assert NonBlankStripped(parts) == NonBlankStripped(init) + (if s != "" then [s] else []);
    if x in NonBlankStripped(init) {
      NonBlankStrippedSound(init, x);
      var j :| 0 <= j < |init| && x == Strip(init[j]);
      assert parts[j] == init[j];
    } else {
      assert x == Strip(parts[n]);
    }
  }

  lemma {:induction false} NonBlankStrippedComplete(parts: seq<string>, j: nat)
    requires j < |parts| && Strip(parts[j]) != ""
    ensures Strip(parts[j]) in NonBlankStripped(parts)
  {
    var n := |parts| - 1;
    if j < n {
      assert parts[..n][j] == parts[j];
      NonBlankStrippedComplete(parts[..n], j);
    }
    InSnoc(NonBlankStripped(parts), NonBlankStripped(parts[..n]), Strip(parts[n]), Strip(parts[j]));
  }

  /** A member of the earlier parts' list, or the kept last part, is in the whole list. */
  lemma InSnoc(r: seq<string>, init: seq<string>, s: string, t: string)
    requires r == init + (if s != "" then [s] else [])
    requires t in init || (t == s && t != "")
    ensures t in r
  {
  }

  /** The members of `[s.strip() for s in parts if s.strip()]` are exactly the non-blank stripped parts. */
  lemma NonBlankStrippedMembers(parts: seq<string>, x: string)
    ensures x in NonBlankStripped(parts) <==> x != "" && exists j :: 0 <= j < |parts| && x == Strip(parts[j])
  {
    if x in NonBlankStripped(parts) {
      NonBlankStrippedSound(parts, x);
    }
    if x != "" && exists j :: 0 <= j < |parts| && x == Strip(parts[j]) {
      var j :| 0 <= j < |parts| && x == Strip(parts[j]);
      NonBlankStrippedComplete(parts, j);
    }
  }

  /** The characters `s.strip().strip("|").strip("-").strip()` can cut. */
  predicate IsDecor(c: char) { IsSpace(c) || c == '|' || c == '-' }

  /** `r` is `s` with its first `a` characters and a tail cut, every cut character decoration. */
  predicate CutBy(s: string, a: int, r: string) {
    0 <= a && a + |r| <= |s| && r == s[a..a + |r|]
    && (forall i :: 0 <= i < a ==> IsDecor(s[i])) && (forall i :: a + |r| <= i < |s| ==> IsDecor(s[i]))
  }

  lemma CutByThen(s: string, a: int, t: string, b: int, u: string)
    requires CutBy(s, a, t) && CutBy(t, b, u)
    ensures CutBy(s, a + b, u)
  {
    assert forall i :: 0 <= i < |t| ==> t[i] == s[a + i];
  }

  lemma StripCut(s: string)
    ensures CutBy(s, LeadSpaces(s), Strip(s))
  {
    var a := LeadSpaces(s);
    var r := Strip(s);
    assert 0 <= a && a + |r| <= |s|;
    assert r == s[a..a + |r|];
    assert forall i :: 0 <= i < a ==> IsDecor(s[i]);
    assert forall i :: a + |r| <= i < |s| ==> IsDecor(s[i]);
  }

  lemma StripCharCut(s: string, c: char)
    requires IsDecor(c)
    ensures CutBy(s, LeadRun(s, c), StripChar(s, c))
  {
  }

  lemma CutByChain(s: string, t1: string, t2: string, t3: string, r: string, a1: int, a2: int, a3: int, a4: int)
    requires CutBy(s, a1, t1) && CutBy(t1, a2, t2)
    requires CutBy(t2, a3, t3) && CutBy(t3, a4, r)
    ensures CutBy(s, a1 + a2 + a3 + a4, r)
  {
    CutByThen(s, a1, t1, a2, t2);
    CutByThen(s, a1 + a2, t2, a3, t3);
    CutByThen(s, a1 + a2 + a3, t3, a4, r);
  }

  /** Each of the four strips cuts only decoration, so together they do. */
  lemma StripDecorCut(s: string)
    ensures exists a :: CutBy(s, a, Strip(StripChar(StripChar(Strip(s), '|'), '-')))
  {
    var t1 := Strip(s);
    var t2 := StripChar(t1, '|');
    var t3 := StripChar(t2, '-');
    StripCut(s);
    StripCharCut(t1, '|');
    StripCharCut(t2, '-');
    StripCut(t3);
    CutByChain(s, t1, t2, t3, Strip(t3), LeadSpaces(s), LeadRun(t1, '|'), LeadRun(t2, '-'), LeadSpaces(t3));
  }

  /** `s.strip().strip("|").strip("-").strip()`: whitespace, pipes and dashes are cut from both ends. */
  function StripDecor(s: string): (r: string)
    ensures IsStripped(r)
    ensures |r| <= |s|
    ensures exists a :: CutBy(s, a, r)
  {
    StripDecorCut(s);
    Strip(StripChar(StripChar(Strip(s), '|'), '-'))
  }

  /** `s.replace(d, "")`; replacing the empty string changes nothing. */
  function RemoveAll(s: string, d: string): (r: string)
  {
    if |d| == 0 then s else ReplaceAll(s, d, "")
  }

  // ---------------------------------------------------------------- experience

  /** Whether `s[i]` is a newline followed by an upper-case letter (`\n(?=[A-Z])`). */
  predicate EntryBreakAt(s: string, i: int) {
    0 <= i && i + 1 < |s| && s[i] == '\n' && IsUpperChar(s[i + 1])
  }

  /** The first entry break of `s`, or `|s|` when there is none. */
  function FirstEntryBreak(s: string): (k: nat)
    ensures k <= |s|
    ensures k < |s| ==> EntryBreakAt(s, k)
    ensures forall i :: 0 <= i < k ==> !EntryBreakAt(s, i)
    decreases |s|
  {
    if |s| == 0 then 0
    else if EntryBreakAt(s, 0) then 0
    else
      var k := FirstEntryBreak(s[1..]);
      assert forall i :: 1 <= i < 1 + k ==> (EntryBreakAt(s, i) <==> EntryBreakAt(s[1..], i - 1));
      1 + k
  }

  /** `re.split(r"\n(?=[A-Z])", s)`: cut at every newline that precedes an upper-case letter, dropping the newline. */
  function SplitEntries(s: string): (r: seq<string>)
    ensures |r| >= 1
    decreases |s|
  {
    var k := FirstEntryBreak(s);
    if k == |s| then [s] else [s[..k]] + SplitEntries(s[k + 1..])
  }

  /**
   * The pieces put back together with the newlines they were cut at give the
   * text again; every piece after the first starts with an upper-case letter,
   * and no piece holds an entry break.
   */
  lemma {:induction false} SplitEntriesJoin(s: string)
    ensures Join(SplitEntries(s), "\n") == s
    ensures forall k :: 1 <= k < |SplitEntries(s)| ==> |SplitEntries(s)[k]| > 0 && IsUpperChar(SplitEntries(s)[k][0])
    ensures forall k, i :: 0 <= k < |SplitEntries(s)| && 0 <= i < |SplitEntries(s)[k]| ==> !EntryBreakAt(SplitEntries(s)[k], i)
    decreases |s|
  {
    var k := FirstEntryBreak(s);
    if k < |s| {
      var rest := s[k + 1..];
      SplitEntriesJoin(rest);
      SplitEntriesHead(rest);
      EntriesCons(s, k, rest, SplitEntries(rest), SplitEntries(s));
    }
  }

  /** A text that does not open with an entry break starts its first piece. */
  lemma SplitEntriesHead(t: string)
    requires |t| > 0 && IsUpperChar(t[0])
    ensures |SplitEntries(t)[0]| > 0 && SplitEntries(t)[0][0] == t[0]
  {
    assert !EntryBreakAt(t, 0);
  }

  /** The piece before the first break, followed by the pieces of the rest. */
  lemma EntriesCons(s: string, k: nat, rest: string, rr: seq<string>, r: seq<string>)
    requires k < |s| && EntryBreakAt(s, k) && forall i :: 0 <= i < k ==> !EntryBreakAt(s, i)
    requires rest == s[k + 1..] && r == [s[..k]] + rr && |rr| >= 1
    requires Join(rr, "\n") == rest && |rr[0]| > 0 && rr[0][0] == rest[0]
    requires forall j :: 1 <= j < |rr| ==> |rr[j]| > 0 && IsUpperChar(rr[j][0])
    requires forall j, i :: 0 <= j < |rr| && 0 <= i < |rr[j]| ==> !EntryBreakAt(rr[j], i)
    ensures Join(r, "\n") == s
    ensures forall j :: 1 <= j < |r| ==> |r[j]| > 0 && IsUpperChar(r[j][0])
    ensures forall j, i :: 0 <= j < |r| && 0 <= i < |r[j]| ==> !EntryBreakAt(r[j], i)
  {
    assert r[1..] == rr;
    assert s == s[..k] + "\n" + rest;
    assert forall i :: 0 <= i < k ==> (EntryBreakAt(s[..k], i) ==> EntryBreakAt(s, i));
  }

  /** The stripped non-blank lines of one entry. */
  function EntryLines(entry: string): (r: seq<string>)
    ensures forall k :: 0 <= k < |r| ==> |r[k]| > 0 && IsStripped(r[k])
  {
    NonBlankStripped(Split(Strip(entry), '\n'))
  }

  predicate IsExpMark(c: char) { c == '•' || c == '-' || c == '·' || c == '*' || c == '▪' }

  /**
   * The bullet a line stands for: after a leading mark (`^[•\-·*▪]\s*`) or a
   * leading number and full stop (`^\d+\.\s*`), with what follows them dropped.
   */
  function ExpBulletOf(line: string): (b: Option<string>)
    ensures b.Some? ==> |b.value| < |line| && b.value == line[|line| - |b.value|..]
    ensures b.Some? && |b.value| > 0 ==> !IsSpace(b.value[0])
    ensures |line| > 0 && IsExpMark(line[0]) ==>
      b.Some? && forall i :: 1 <= i < |line| - |b.value| ==> IsSpace(line[i])
    ensures !(|line| > 0 && IsExpMark(line[0])) ==> (b.Some? <==> Numbered(line))
    ensures !(|line| > 0 && IsExpMark(line[0])) && b.Some? ==>
      RunLen(line, IsDigit) < |line| - |b.value| && forall i :: RunLen(line, IsDigit) < i < |line| - |b.value| ==> IsSpace(line[i])
  {
    if |line| > 0 && IsExpMark(line[0]) then Some(TrimStart(line[1..]))
    else
      var k := RunLen(line, IsDigit);
      if k > 0 && k < |line| && line[k] == '.' then Some(TrimStart(line[k + 1..])) else None
  }

  /** The line opens with a run of digits and a full stop (`^\d+\.`). */
  predicate Numbered(line: string) {
    0 < RunLen(line, IsDigit) < |line| && line[RunLen(line, IsDigit)] == '.'
  }

  /** A bullet of a stripped line is stripped too. */
  lemma ExpBulletStripped(line: string)
    requires IsStripped(line)
    ensures ExpBulletOf(line).Some? ==> IsStripped(ExpBulletOf(line).value)
  {
    if ExpBulletOf(line).Some? {
      var b := ExpBulletOf(line).value;
      if |b| > 0 {
        assert b[|b| - 1] == line[|line| - 1];
      }
    }
  }

  /** The bullets of a list of lines, in line order. */
  function Bullets(lines: seq<string>): (r: seq<string>)
    ensures |r| <= |lines|
  {
    if |lines| == 0 then []
    else
      Bullets(lines[..|lines| - 1])
      + match ExpBulletOf(lines[|lines| - 1]) case Some(b) => [b] case None => []
  }

  datatype ExperienceEntry = ExperienceEntry(company: string, role: string, dates: string, bullets: seq<string>)

  predicate HasExperienceDates(rx: Recognizers, line: string) { rx.experienceDates(line).Some? }

  /** The dates of the first line carrying a date range, with the rest of that line as the role. */
  function RoleAndDates(rx: Recognizers, lines: seq<string>): (rd: (string, string))
    ensures IsStripped(rd.0)
    ensures (forall j :: 0 <= j < |lines| ==> !HasExperienceDates(rx, lines[j])) ==> rd == ("", "")
  {
    if |lines| == 0 then ("", "")
    else match rx.experienceDates(lines[0])
      case Some(d) => (StripDecor(RemoveAll(lines[0], d)), d)
      case None =>
        var rd := RoleAndDates(rx, lines[1..]);
        assert forall j :: 1 <= j < |lines| ==> lines[j] == lines[1..][j - 1];
        rd
  }

  /** The first line carrying a date range gives the dates, and the rest of that line, stripped of decoration, the role. */
  lemma {:induction false} RoleAndDatesFirst(rx: Recognizers, lines: seq<string>, j: nat)
    requires j < |lines| && HasExperienceDates(rx, lines[j])
    requires forall i :: 0 <= i < j ==> !HasExperienceDates(rx, lines[i])
    ensures RoleAndDates(rx, lines).1 == rx.experienceDates(lines[j]).value
    ensures RoleAndDates(rx, lines).0 == StripDecor(RemoveAll(lines[j], RoleAndDates(rx, lines).1))
  {
    if j > 0 {
      var tail := lines[1..];
      assert tail[j - 1] == lines[j];
      forall i | 0 <= i < j - 1
        ensures !HasExperienceDates(rx, tail[i])
      {
        assert tail[i] == lines[i + 1];
      }
      RoleAndDatesFirst(rx, tail, j - 1);
      assert RoleAndDates(rx, lines) == RoleAndDates(rx, tail);
    }
  }

  /** One entry of `extract_experience`; an entry with no non-blank line yields none. */
  function ExperienceOf(rx: Recognizers, entry: string): (r: Option<ExperienceEntry>)
  {
    var lines := EntryLines(entry);
    if |lines| == 0 then None
    else
      var rd := RoleAndDates(rx, lines);
      Some(ExperienceEntry(lines[0], rd.0, rd.1, Bullets(lines[1..])))
  }

  function ExperienceEntries(rx: Recognizers, entries: seq<string>): (r: seq<ExperienceEntry>)
    ensures |r| <= |entries|
  {
    if |entries| == 0 then []
    else
      ExperienceEntries(rx, entries[..|entries| - 1])
      + match ExperienceOf(rx, entries[|entries| - 1]) case Some(e) => [e] case None => []
  }

  /** `extract_experience(sections)` as a function. */
  function Experience(rx: Recognizers, sections: Dict<string>): (r: seq<ExperienceEntry>)
  {
    var text := AliasText(sections, ExperienceAliases);
    if text == "" then [] else ExperienceEntries(rx, SplitEntries(text))
  }

  /** The bullet loop `for line in lines[1:]`. */
  lemma BulletsSnoc(lines: seq<string>, i: nat, bs: seq<string>, bs': seq<string>)
    requires i < |lines| && bs == Bullets(lines[..i])
    requires bs' == bs + match ExpBulletOf(lines[i]) case Some(b) => [b] case None => []
    ensures bs' == Bullets(lines[..i + 1])
  {
    assert lines[..i + 1][..i] == lines[..i];
  }

  method CollectBullets(lines: seq<string>) returns (bullets: seq<string>)
    ensures bullets == Bullets(lines)
  {
    bullets := [];
    var i := 0;
    while i < |lines|
      invariant 0 <= i <= |lines|
      invariant bullets == Bullets(lines[..i])
    {
      ghost var prev := bullets;
      var line := lines[i];
      if |line| > 0 && IsExpMark(line[0]) {
        bullets := bullets + [TrimStart(line[1..])];
      } else {
        var k := RunLen(line, IsDigit);
        if k > 0 && k < |line| && line[k] == '.' {
          bullets := bullets + [TrimStart(line[k + 1..])];
        }
      }
      BulletsSnoc(lines, i, prev, bullets);
      i := i + 1;
    }
    assert lines[..i] == lines;
  }

  lemma ExperienceEntriesStep(rx: Recognizers, entries: seq<string>, i: nat)
    requires i < |entries|
    ensures ExperienceEntries(rx, entries[..i + 1])
      == ExperienceEntries(rx, entries[..i]) + match ExperienceOf(rx, entries[i]) case Some(e) => [e] case None => []
  {
    assert entries[..i + 1][..i] == entries[..i];
  }

  /** `extract_experience`. */
  method ExtractExperience(rx: Recognizers, sections: Dict<string>) returns (experiences: seq<ExperienceEntry>)
    ensures experiences == Experience(rx, sections)
  {
    experiences := [];
    var text := AliasText(sections, ExperienceAliases);
    if text == "" {
      return;
    }
    var entries := SplitEntries(text);
    var i := 0;
    while i < |entries|
      invariant 0 <= i <= |entries|
      invariant experiences == ExperienceEntries(rx, entries[..i])
    {
      ExperienceEntriesStep(rx, entries, i);
      var lines := EntryLines(entries[i]);
      if |lines| > 0 {
        var rd := RoleAndDates(rx, lines);
        var bullets := CollectBullets(lines[1..]);
        var entry := ExperienceEntry(lines[0], rd.0, rd.1, bullets);
        assert ExperienceOf(rx, entries[i]) == Some(entry);
        experiences := experiences + [entry];
      } else {
        assert ExperienceOf(rx, entries[i]) == None;
      }
      i := i + 1;
    }
    assert entries[..i] == entries;
  }

  /** Without an experience section there are no experience entries. */
  lemma ExperienceNeedsAlias(rx: Recognizers, sections: Dict<string>)
    requires forall k :: k in ExperienceAliases ==> !HasKey(sections, k)
    ensures Experience(rx, sections) == []
  {
  }

  lemma {:induction false} BulletsStripped(lines: seq<string>)
    requires forall k :: 0 <= k < |lines| ==> IsStripped(lines[k])
    ensures forall k :: 0 <= k < |Bullets(lines)| ==> IsStripped(Bullets(lines)[k])
  {
    if |lines| > 0 {
      BulletsStripped(lines[..|lines| - 1]);
      ExpBulletStripped(lines[|lines| - 1]);
    }
  }

  /**
   * An entry's company is its first non-blank line, stripped and never empty;
   * its bullets come from the other lines (at most one each) and are
   * stripped; with no date line both role and dates are "".
   */
  lemma ExperienceEntryShape(rx: Recognizers, entry: string)
    ensures ExperienceOf(rx, entry).Some? <==> |EntryLines(entry)| > 0
    ensures ExperienceOf(rx, entry).Some? ==>
      var e := ExperienceOf(rx, entry).value;
      e.company == EntryLines(entry)[0] && e.company != "" && IsStripped(e.company)
      && |e.bullets| < |EntryLines(entry)|
      && (forall k :: 0 <= k < |e.bullets| ==> IsStripped(e.bullets[k]))
      && IsStripped(e.role)
    ensures ExperienceOf(rx, entry).Some? && (forall j :: 0 <= j < |EntryLines(entry)| ==> !HasExperienceDates(rx, EntryLines(entry)[j]))
      ==> ExperienceOf(rx, entry).value.role == "" && ExperienceOf(rx, entry).value.dates == ""
  {
    var lines := EntryLines(entry);
    if |lines| > 0 {
      BulletsStripped(lines[1..]);
      var e := ExperienceOf(rx, entry).value;
      assert e.bullets == Bullets(lines[1..]);
      assert e.role == RoleAndDates(rx, lines).0;
    }
  }

  // ---------------------------------------------------------------- education

  datatype EducationEntry = EducationEntry(school: string, degree: string, dates: string, gpa: string, details: seq<string>)

  /** `current_entry`: None for the empty dict. */
  datatype EduScan = EduScan(done: seq<EducationEntry>, current: Option<EducationEntry>)

  const EduStart := EduScan([], None)

  /** `done` with the current entry appended, if there is one. */
  function EduFlush(st: EduScan): (r: seq<EducationEntry>)
    ensures |r| == |st.done| + (if st.current.Some? then 1 else 0)
  {
    match st.current
    case Some(e) => st.done + [e]
    case None => st.done
  }

  /** Whether a line opens a new education entry: a degree line, or any line while none is open. */
  predicate OpensEntry(rx: Recognizers, st: EduScan, line: string) {
    rx.isDegree(line) || st.current.None?
  }

  /** One iteration of the education line loop. */
  function EduStep(rx: Recognizers, st: EduScan, line: string): (st': EduScan)
  {
    if OpensEntry(rx, st, line) then EduScan(EduFlush(st), Some(EducationEntry("", line, "", "", [])))
    else
      var e := st.current.value;
      match rx.educationDates(line)
      case Some(d) =>
        var school := StripDecor(RemoveAll(line, d));
        st.(current := Some(e.(dates := d, school := if school != "" then school else e.school)))
      case None =>
        match rx.gpa(line)
        case Some(g) => st.(current := Some(e.(gpa := g)))
        case None => st.(current := Some(e.(details := e.details + [line])))
  }

  function EduRun(rx: Recognizers, st: EduScan, lines: seq<string>): (st': EduScan)
  {
    if |lines| == 0 then st else EduStep(rx, EduRun(rx, st, lines[..|lines| - 1]), lines[|lines| - 1])
  }

  function EducationLines(text: string): seq<string> {
    NonBlankStripped(Split(text, '\n'))
  }

  /** `extract_education(sections)` as a function. */
  function Education(rx: Recognizers, sections: Dict<string>): (r: seq<EducationEntry>)
  {
    var text := AliasText(sections, EducationAliases);
    if text == "" then [] else EduFlush(EduRun(rx, EduStart, EducationLines(text)))
  }

  /** `extract_education`. */
  method ExtractEducation(rx: Recognizers, sections: Dict<string>) returns (education: seq<EducationEntry>)
    ensures education == Education(rx, sections)
  {
    education := [];
    var text := AliasText(sections, EducationAliases);
    if text == "" {
      return;
    }
    var lines := EducationLines(text);
    var current: Option<EducationEntry> := None;
    var i := 0;
    while i < |lines|
      invariant 0 <= i <= |lines|
      invariant EduScan(education, current) == EduRun(rx, EduStart, lines[..i])
    {
      ghost var prev := EduScan(education, current);
      education, current := EduLine(rx, education, current, lines[i]);
      EduRunSnoc(rx, lines, i, prev, EduScan(education, current));
      i := i + 1;
    }
    assert lines[..i] == lines;
    if current.Some? {
      education := education + [current.value];
    }
  }

  /** One iteration of the education line loop, on the loop's variables. */
  method EduLine(rx: Recognizers, education: seq<EducationEntry>, current: Option<EducationEntry>, line: string)
    returns (education': seq<EducationEntry>, current': Option<EducationEntry>)
    ensures EduScan(education', current') == EduStep(rx, EduScan(education, current), line)
  {
    education', current' := education, current;
    if rx.isDegree(line) || current.None? {
      if current.Some? {
        education' := education + [current.value];
      }
      current' := Some(EducationEntry("", line, "", "", []));
    } else {
      var e := current.value;
      var dateMatch := rx.educationDates(line);
      var gpaMatch := rx.gpa(line);
      if dateMatch.Some? {
        e := e.(dates := dateMatch.value);
        var school := StripDecor(RemoveAll(line, dateMatch.value));
        if school != "" {
          e := e.(school := school);
        }
      } else if gpaMatch.Some? {
        e := e.(gpa := gpaMatch.value);
      } else {
        e := e.(details := e.details + [line]);
      }
      current' := Some(e);
    }
  }

  lemma EduRunSnoc(rx: Recognizers, lines: seq<string>, i: nat, st: EduScan, st': EduScan)
    requires i < |lines| && st == EduRun(rx, EduStart, lines[..i])
    requires st' == EduStep(rx, st, lines[i])
    ensures st' == EduRun(rx, EduStart, lines[..i + 1])
  {
    assert lines[..i + 1][..i] == lines[..i];
  }

  /** The number of lines that open an entry: the first line, and every later degree line. */
  function Openers(rx: Recognizers, lines: seq<string>): (n: nat)
    ensures n <= |lines|
  {
    if |lines| == 0 then 0
    else Openers(rx, lines[..|lines| - 1]) + (if |lines| == 1 || rx.isDegree(lines[|lines| - 1]) then 1 else 0)
  }

  /** One step always leaves an entry open, and adds one finished entry exactly when it opens a new one. */
  lemma EduStepCount(rx: Recognizers, st: EduScan, line: string)
    ensures EduStep(rx, st, line).current.Some?
    ensures |EduFlush(EduStep(rx, st, line))| == |EduFlush(st)| + (if OpensEntry(rx, st, line) then 1 else 0)
  {
  }

  lemma {:induction false} EduRunCount(rx: Recognizers, lines: seq<string>)
    ensures EduRun(rx, EduStart, lines).current.Some? <==> |lines| > 0
    ensures |EduFlush(EduRun(rx, EduStart, lines))| == Openers(rx, lines)
  {
    if |lines| > 0 {
      var init := lines[..|lines| - 1];
      EduRunCount(rx, init);
      EduStepCount(rx, EduRun(rx, EduStart, init), lines[|lines| - 1]);
    }
  }

  /** After one step, every entry's degree is an earlier entry's degree or the line just read. */
  lemma EduStepDegrees(rx: Recognizers, st: EduScan, line: string)
    ensures forall k :: 0 <= k < |EduFlush(EduStep(rx, st, line))| ==>
      EduFlush(EduStep(rx, st, line))[k].degree == line ||
      (k < |EduFlush(st)| && EduFlush(EduStep(rx, st, line))[k].degree == EduFlush(st)[k].degree)
  {
    var next := EduStep(rx, st, line);
    var before := EduFlush(st);
    var after := EduFlush(next);
    if OpensEntry(rx, st, line) {
      assert after == before + [EducationEntry("", line, "", "", [])];
    } else {
      assert before == st.done + [st.current.value];
      assert after == st.done + [next.current.value];
      assert next.current.value.degree == st.current.value.degree;
    }
  }

  lemma {:induction false} EduRunDegrees(rx: Recognizers, lines: seq<string>)
    ensures forall k :: 0 <= k < |EduFlush(EduRun(rx, EduStart, lines))| ==> EduFlush(EduRun(rx, EduStart, lines))[k].degree in lines
  {
    if |lines| > 0 {
      var init := lines[..|lines| - 1];
      EduRunDegrees(rx, init);
      var prev := EduRun(rx, EduStart, init);
      var line := lines[|lines| - 1];
      EduStepDegrees(rx, prev, line);
      assert EduRun(rx, EduStart, lines) == EduStep(rx, prev, line);
      assert forall x :: x in init ==> x in lines;
    }
  }

  /**
   * There is one education entry per opening line (the first non-blank line
   * of the section, then each degree line), and every entry's degree is one
   * of the section's non-blank stripped lines.
   */
  lemma EducationEntries(rx: Recognizers, sections: Dict<string>)
    ensures AliasText(sections, EducationAliases) != "" ==>
      |Education(rx, sections)| == Openers(rx, EducationLines(AliasText(sections, EducationAliases)))
    ensures AliasText(sections, EducationAliases) == "" ==> Education(rx, sections) == []
    ensures forall k :: 0 <= k < |Education(rx, sections)| ==>
      Education(rx, sections)[k].degree in EducationLines(AliasText(sections, EducationAliases))
  {
    var text := AliasText(sections, EducationAliases);
    if text != "" {
      EduRunCount(rx, EducationLines(text));
      EduRunDegrees(rx, EducationLines(text));
    }
  }

  /** A degree line always opens a new entry, however the one before it was filled. */
  lemma DegreeLineOpens(rx: Recognizers, st: EduScan, line: string)
    requires rx.isDegree(line)
    ensures EduStep(rx, st, line) == EduScan(EduFlush(st), Some(EducationEntry("", line, "", "", [])))
  {
  }

  // ---------------------------------------------------------------- projects

  datatype ProjectEntry = ProjectEntry(name: string, description: string, techUsed: seq<string>, bullets: seq<string>)

  predicate IsProjMark(c: char) { c == '•' || c == '-' || c == '·' || c == '*' }

  /** A stripped line names a project when it has no bullet mark and is shorter than 100 characters. */
  predicate IsProjectName(line: string) {
    !(|line| > 0 && IsProjMark(line[0])) && |line| < 100
  }

  /** `re.sub(r"^[•\-·*]\s*", "", line)`. */
  function DropProjMark(line: string): (r: string)
    ensures |r| <= |line| && r == line[|line| - |r|..]
    ensures !(|line| > 0 && IsProjMark(line[0])) ==> r == line
    ensures |line| > 0 && IsProjMark(line[0]) ==>
      |r| < |line| && (forall i :: 1 <= i < |line| - |r| ==> IsSpace(line[i])) && (|r| > 0 ==> !IsSpace(r[0]))
  {
    if |line| > 0 && IsProjMark(line[0]) then TrimStart(line[1..]) else line
  }

  datatype ProjScan = ProjScan(done: seq<ProjectEntry>, current: Option<ProjectEntry>)

  const ProjStart := ProjScan([], None)

  function ProjFlush(st: ProjScan): (r: seq<ProjectEntry>)
    ensures |r| == |st.done| + (if st.current.Some? then 1 else 0)
  {
    match st.current
    case Some(p) => st.done + [p]
    case None => st.done
  }

  /** One iteration of the project line loop. */
  function ProjStep(st: ProjScan, raw: string): (st': ProjScan)
  {
    var line := Strip(raw);
    if line == "" then st
    else if IsProjectName(line) then ProjScan(ProjFlush(st), Some(ProjectEntry(line, "", [], [])))
    else match st.current
      case Some(p) => st.(current := Some(p.(bullets := p.bullets + [DropProjMark(line)])))
      case None => st
  }

  function ProjRun(st: ProjScan, lines: seq<string>): (st': ProjScan)
  {
    if |lines| == 0 then st else ProjStep(ProjRun(st, lines[..|lines| - 1]), lines[|lines| - 1])
  }

  /** The project loop of `parse_resume` as a function: only the first project alias present is read. */
  function Projects(sections: Dict<string>): (r: seq<ProjectEntry>)
  {
    match FirstPresent(sections, ProjectAliases)
    case None => []
    case Some(kv) => ProjFlush(ProjRun(ProjStart, Split(kv.1, '\n')))
  }

  /** The project loop of `parse_resume`. */
  method ExtractProjects(sections: Dict<string>) returns (projects: seq<ProjectEntry>)
    ensures projects == Projects(sections)
  {
    projects := [];
    var found := FirstPresent(sections, ProjectAliases);
    if found.None? {
      return;
    }
    var lines := Split(found.value.1, '\n');
    var current: Option<ProjectEntry> := None;
    var i := 0;
    while i < |lines|
      invariant 0 <= i <= |lines|
      invariant ProjScan(projects, current) == ProjRun(ProjStart, lines[..i])
    {
      assert lines[..i + 1][..i] == lines[..i];
      ghost var prev := ProjScan(projects, current);
      assert ProjRun(ProjStart, lines[..i + 1]) == ProjStep(prev, lines[i]);
      var line := Strip(lines[i]);
      if line != "" {
        if IsProjectName(line) {
          if current.Some? {
            projects := projects + [current.value];
          }
          current := Some(ProjectEntry(line, "", [], []));
        } else if current.Some? {
          var bullet := DropProjMark(line);
          current := Some(current.value.(bullets := current.value.bullets + [bullet]));
        }
      }
      assert ProjScan(projects, current) == ProjStep(prev, lines[i]);
      i := i + 1;
    }
    assert lines[..i] == lines;
    if current.Some? {
      projects := projects + [current.value];
    }
  }

  /** Whether a raw line is a project-name line once stripped. */
  predicate NameLine(raw: string) {
    Strip(raw) != "" && IsProjectName(Strip(raw))
  }

  function NameLines(lines: seq<string>): (n: nat)
    ensures n <= |lines|
  {
    if |lines| == 0 then 0 else NameLines(lines[..|lines| - 1]) + (if NameLine(lines[|lines| - 1]) then 1 else 0)
  }

  /** A name line closes the open project and opens a new one; any other line keeps the projects and their names. */
  lemma ProjStepNames(st: ProjScan, raw: string)
    ensures NameLine(raw) ==>
      ProjFlush(ProjStep(st, raw)) == ProjFlush(st) + [ProjectEntry(Strip(raw), "", [], [])]
      && ProjStep(st, raw).current.Some?
    ensures !NameLine(raw) ==>
      && |ProjFlush(ProjStep(st, raw))| == |ProjFlush(st)|
      && (ProjStep(st, raw).current.Some? <==> st.current.Some?)
      && forall k :: 0 <= k < |ProjFlush(st)| ==> ProjFlush(ProjStep(st, raw))[k].name == ProjFlush(st)[k].name
  {
    var next := ProjStep(st, raw);
    if !NameLine(raw) && Strip(raw) != "" && st.current.Some? {
      assert ProjFlush(st) == st.done + [st.current.value];
      assert ProjFlush(next) == st.done + [next.current.value];
    }
  }

  lemma {:induction false} ProjRunCount(lines: seq<string>)
    ensures ProjRun(ProjStart, lines).current.Some? <==> NameLines(lines) > 0
    ensures |ProjFlush(ProjRun(ProjStart, lines))| == NameLines(lines)
    ensures forall k :: 0 <= k < |ProjFlush(ProjRun(ProjStart, lines))| ==> IsProjectName(ProjFlush(ProjRun(ProjStart, lines))[k].name) && ProjFlush(ProjRun(ProjStart, lines))[k].name != ""
  {
    if |lines| > 0 {
      var init := lines[..|lines| - 1];
      ProjRunCount(init);
      var prev := ProjRun(ProjStart, init);
      var raw := lines[|lines| - 1];
      ProjStepNames(prev, raw);
      assert ProjRun(ProjStart, lines) == ProjStep(prev, raw);
      var before := ProjFlush(prev);
      var after := ProjFlush(ProjStep(prev, raw));
      forall k | 0 <= k < |after| ensures IsProjectName(after[k].name) && after[k].name != "" {
        if k < |before| {
          assert after[k].name == before[k].name;
        }
      }
    }
  }

  lemma {:induction false} ProjRunAppend(st: ProjScan, a: seq<string>, b: seq<string>)
    ensures ProjRun(st, a + b) == ProjRun(ProjRun(st, a), b)
    decreases |b|
  {
    if |b| == 0 {
      assert a + b == a;
    } else {
      assert (a + b)[..|a + b| - 1] == a + b[..|b| - 1];
      ProjRunAppend(st, a, b[..|b| - 1]);
    }
  }

  lemma {:induction false} NoNameNoState(pre: seq<string>)
    requires forall k :: 0 <= k < |pre| ==> !NameLine(pre[k])
    ensures ProjRun(ProjStart, pre) == ProjStart
  {
    if |pre| > 0 {
      NoNameNoState(pre[..|pre| - 1]);
    }
  }

  /** There is one project per name line, and every project is named by one. */
  lemma ProjectsShape(sections: Dict<string>)
    ensures FirstPresent(sections, ProjectAliases).Some? ==>
      |Projects(sections)| == NameLines(Split(FirstPresent(sections, ProjectAliases).value.1, '\n'))
    ensures FirstPresent(sections, ProjectAliases).None? ==> Projects(sections) == []
    ensures forall k :: 0 <= k < |Projects(sections)| ==> IsProjectName(Projects(sections)[k].name) && Projects(sections)[k].name != ""
  {
    if FirstPresent(sections, ProjectAliases).Some? {
      ProjRunCount(Split(FirstPresent(sections, ProjectAliases).value.1, '\n'));
    }
  }

  /** Lines before the first name line (bullets with no project yet) are dropped: the scan goes on as if they were absent. */
  lemma BulletsBeforeFirstNameDropped(pre: seq<string>, rest: seq<string>)
    requires forall k :: 0 <= k < |pre| ==> !NameLine(pre[k])
    ensures ProjRun(ProjStart, pre + rest) == ProjRun(ProjStart, rest)
  {
    NoNameNoState(pre);
    ProjRunAppend(ProjStart, pre, rest);
  }

  // ---------------------------------------------------------------- certifications

  /** The lines of the first certification alias present, none when there is none. */
  function CertificationLines(sections: Dict<string>): (lines: seq<string>)
  {
    match FirstPresent(sections, CertificationAliases)
    case None => []
    case Some(kv) => Split(kv.1, '\n')
  }

  /** The certification loop of `parse_resume`: the non-blank stripped lines of the first certification alias. */
  function Certifications(sections: Dict<string>): (certs: seq<string>)
    ensures FirstPresent(sections, CertificationAliases).None? ==> certs == []
    ensures forall k :: 0 <= k < |certs| ==> |certs[k]| > 0 && IsStripped(certs[k])
  {
    NonBlankStripped(CertificationLines(sections))
  }

  /** A certification is exactly a non-blank stripped line of the first certification section. */
  lemma CertificationsAreLines(sections: Dict<string>, x: string)
    ensures x in Certifications(sections) <==>
      x != "" && exists j :: 0 <= j < |CertificationLines(sections)| && x == Strip(CertificationLines(sections)[j])
  {
    NonBlankStrippedMembers(CertificationLines(sections), x);
  }
}
