/**
 * `assemble_optimized_latex` of backend/app/services/latex_assembler.py.
 * The original source is split into lines, which become an array of
 * slots. Bullet edits overwrite single slots by their 1-indexed line
 * number. A skills or about replacement empties its section's slots and
 * puts the section line plus the new block in the first of them. Emptied
 * slots (`None`) are dropped only when the lines are joined, so every edit
 * addresses the original line numbers.
 */
module LatexAssembler {
  import opened Wrappers
  import opened Strings
  import opened Seqs
  import opened LatexSections
  import opened LatexEntries
  import opened LatexParser

  /** The line list being edited; `None` marks a deleted line. */
  type Slots = seq<Option<string>>

  /** The freshly split lines, every slot present. */
  function Slotted(lines: seq<string>): (ls: Slots)
    ensures |ls| == |lines|
    ensures forall k :: 0 <= k < |lines| ==> ls[k] == Some(lines[k])
  {
    seq(|lines|, k requires 0 <= k < |lines| => Some(lines[k]))
  }

  /** The lines still present, in slot order (the generator of the final join). */
  function Present(ls: Slots): (r: seq<string>)
    ensures |r| <= |ls|
  {
    if |ls| == 0 then []
    else Present(ls[..|ls| - 1]) + (if ls[|ls| - 1].Some? then [ls[|ls| - 1].value] else [])
  }

  lemma {:induction false} PresentAppend(a: Slots, b: Slots)
    ensures Present(a + b) == Present(a) + Present(b)
    decreases |b|
  {
    if |b| == 0 {
      assert a + b == a;
    } else {
      assert (a + b)[..|a + b| - 1] == a + b[..|b| - 1];
      PresentAppend(a, b[..|b| - 1]);
    }
  }

  /** Dropping nothing gives the lines back. */
  lemma {:induction false} PresentSlotted(lines: seq<string>)
    ensures Present(Slotted(lines)) == lines
    decreases |lines|
  {
    if |lines| > 0 {
      var init := lines[..|lines| - 1];
      assert Slotted(lines)[..|lines| - 1] == Slotted(init);
      PresentSlotted(init);
      assert lines == init + [lines[|lines| - 1]];
    }
  }

  // ---------------------------------------------------------------- bullet edits

  /**
   * The text the last edit for line `n` carries: the `optimized_bullets`
   * dict maps each line number to one text, and as a list of pairs the
   * later pair wins.
   */
  function EditFor(edits: seq<(int, string)>, n: int): (r: Option<string>)
    ensures r.Some? ==> exists i :: 0 <= i < |edits| && edits[i] == (n, r.value) && forall j :: i < j < |edits| ==> edits[j].0 != n
    ensures r.None? ==> forall i :: 0 <= i < |edits| ==> edits[i].0 != n
  {
    if |edits| == 0 then None
    else if edits[|edits| - 1].0 == n then Some(edits[|edits| - 1].1)
    else EditFor(edits[..|edits| - 1], n)
  }

  /** One bullet edit: slot `n - 1` is overwritten when it exists. */
  function EditStep(ls: Slots, e: (int, string)): Slots {
    if 1 <= e.0 <= |ls| then ls[e.0 - 1 := Some(e.1)] else ls
  }

  /**
   * The bullet loop: each slot holds the text of the last edit for its line
   * number, or its old content when no edit names it. Line numbers outside
   * `1..len(lines)` change nothing, and the number of slots never changes.
   */
  function ApplyBullets(ls: Slots, edits: seq<(int, string)>): (r: Slots)
    ensures |r| == |ls|
    ensures forall k :: 0 <= k < |ls| ==> r[k] == (if EditFor(edits, k + 1).Some? then Some(EditFor(edits, k + 1).value) else ls[k])
  {
    if |edits| == 0 then ls
    else EditStep(ApplyBullets(ls, edits[..|edits| - 1]), edits[|edits| - 1])
  }

  // ---------------------------------------------------------------- block replacement

  /** Slots `lo..hi-1` emptied. */
  function Blank(ls: Slots, lo: int, hi: int): (r: Slots)
    ensures |r| == |ls|
  {
    seq(|ls|, k requires 0 <= k < |ls| => if lo <= k < hi then None else ls[k])
  }

  /**
   * The skills or about block replacement for `sec`. The Python raises when
   * `start_line - 1` is past the last line (`IndexError`) or names a slot
   * already emptied (`None + "\n"`); both are `None` here. Otherwise the
   * section line keeps its slot, followed by the new block, every other
   * slot of the section's range is emptied, and the rest is unchanged.
   */
  function ReplaceBlock(ls: Slots, sec: LatexSection, text: string): (r: Option<Slots>)
    requires sec.startLine >= 1
    ensures r.None? <==> (sec.startLine > |ls| || ls[sec.startLine - 1].None?)
    ensures r.Some? ==> |r.value| == |ls|
    ensures r.Some? ==> r.value[sec.startLine - 1] == Some(ls[sec.startLine - 1].value + "\n" + text)
    ensures r.Some? ==> forall k :: 0 <= k < |ls| && k != sec.startLine - 1 ==>
      r.value[k] == (if sec.startLine - 1 < k < sec.endLine then None else ls[k])
  {
    var start := sec.startLine - 1;
    if start >= |ls| || ls[start].None? then None
    else Some(Blank(ls, start, sec.endLine)[start := Some(ls[start].value + "\n" + text)])
  }

  /**
   * Whatever the slots inside the section (after its first line) held, the
   * replacement is the same: a bullet edit inside a replaced section is
   * overridden.
   */
  lemma ReplaceIgnoresRange(ls1: Slots, ls2: Slots, sec: LatexSection, text: string)
    requires sec.startLine >= 1
    requires |ls1| == |ls2|
    requires forall k :: 0 <= k < |ls1| && !(sec.startLine - 1 < k < sec.endLine) ==> ls1[k] == ls2[k]
    ensures ReplaceBlock(ls1, sec, text) == ReplaceBlock(ls2, sec, text)
  {
    var r1 := ReplaceBlock(ls1, sec, text);
    var r2 := ReplaceBlock(ls2, sec, text);
    if r1.Some? {
      assert r2.Some?;
      assert forall k :: 0 <= k < |ls1| ==> r1.value[k] == r2.value[k];
      assert r1.value == r2.value;
    }
  }

  // ---------------------------------------------------------------- the whole assembly

  /** Python truthiness of an optional string argument. */
  predicate Truthy(text: Option<string>) {
    text.Some? && text.value != ""
  }

  /** The skills and about sections of the map start on a positive line, as every parsed map's do. */
  predicate Placed(m: LatexResumeMap) {
    (m.skillsSection.Some? ==> m.skillsSection.value.startLine >= 1)
    && (m.aboutSection.Some? ==> m.aboutSection.value.startLine >= 1)
  }

  /** One guarded replacement: it runs only for a non-empty text and a present section. */
  function ReplaceIf(ls: Option<Slots>, text: Option<string>, sec: Option<LatexSection>): (r: Option<Slots>)
    requires sec.Some? ==> sec.value.startLine >= 1
    ensures !Truthy(text) || sec.None? ==> r == ls
    ensures ls.None? ==> r.None?
    ensures ls.Some? && Truthy(text) && sec.Some? ==> r == ReplaceBlock(ls.value, sec.value, text.value)
  {
    if ls.None? then None
    else if Truthy(text) && sec.Some? then ReplaceBlock(ls.value, sec.value, text.value)
    else ls
  }

  /** The slots after all edits: bullets first, then skills, then about. */
  function FinalSlots(m: LatexResumeMap, about: Option<string>, skills: Option<string>, bullets: seq<(int, string)>): (r: Option<Slots>)
    requires Placed(m)
    ensures r.Some? ==> |r.value| == |SplitLines(m.rawLatex)|
  {
    var lines := SplitLines(m.rawLatex);
    ReplaceIf(ReplaceIf(Some(ApplyBullets(Slotted(lines), bullets)), skills, m.skillsSection), about, m.aboutSection)
  }

  /** `assemble_optimized_latex`; `None` where the Python raises. */
  function Assembled(m: LatexResumeMap, about: Option<string>, skills: Option<string>, bullets: seq<(int, string)>): (r: Option<string>)
    requires Placed(m)
    ensures r.Some? <==> FinalSlots(m, about, skills, bullets).Some?
  {
    var s := FinalSlots(m, about, skills, bullets);
    if s.None? then None else Some(Join(Present(s.value), "\n"))
  }

  /** Every parsed map satisfies the assembler's assumption on section positions. */
  lemma ParsedMapPlaced(rx: Recognizers.Recognizers, raw: string)
    ensures Placed(LatexMap(rx, raw))
  {
    var lines := SplitLines(raw);
    SectionsPositioned(rx, lines);
    LastWhereIn(Sections(rx, lines), IsSkillsSection);
    LastWhereIn(Sections(rx, lines), IsAboutSection);
  }

  /** The bullet loop on the slot array. */
  method ApplyBulletsInPlace(a: array<Option<string>>, bullets: seq<(int, string)>)
    modifies a
    ensures a[..] == ApplyBullets(old(a[..]), bullets)
  {
    ghost var s0 := a[..];
    var i := 0;
    while i < |bullets|
      invariant 0 <= i <= |bullets|
      invariant a[..] == ApplyBullets(s0, bullets[..i])
    {
      var idx := bullets[i].0 - 1;
      if 0 <= idx < a.Length {
        a[idx] := Some(bullets[i].1);
      }
      assert bullets[..i + 1][..i] == bullets[..i];
      i := i + 1;
    }
    assert bullets[..i] == bullets;
  }

  /** One block replacement on the slot array; `ok` is false where the Python raises. */
  method ReplaceInPlace(a: array<Option<string>>, sec: LatexSection, text: string) returns (ok: bool)
    requires sec.startLine >= 1
    modifies a
    ensures ok <==> ReplaceBlock(old(a[..]), sec, text).Some?
    ensures ok ==> a[..] == ReplaceBlock(old(a[..]), sec, text).value
    ensures !ok ==> a[..] == old(a[..])
  {
    var start := sec.startLine - 1;
    if start >= a.Length || a[start].None? {
      return false;
    }
    var sectionLine := a[start].value;
    var stop := if sec.endLine < a.Length then sec.endLine else a.Length;
    ghost var s0 := a[..];
    var i := start;
    while i < stop
      invariant start <= i
      invariant i <= stop || i == start
      invariant a[..] == Blank(s0, start, i)
    {
      a[i] := None;
      i := i + 1;
    }
    assert a[..] == Blank(s0, start, sec.endLine);
    a[start] := Some(sectionLine + "\n" + text);
    return true;
  }

  /** `assemble_optimized_latex(original_map, optimized_about, optimized_skills, optimized_bullets)`. */
  method AssembleOptimizedLatex(m: LatexResumeMap, about: Option<string>, skills: Option<string>, bullets: seq<(int, string)>)
    returns (r: Option<string>)
    requires Placed(m)
    ensures r == Assembled(m, about, skills, bullets)
  {
    var lines := SplitLines(m.rawLatex);
    var a := new Option<string>[|lines|](k requires 0 <= k < |lines| => Some(lines[k]));
    assert a[..] == Slotted(lines);
    ApplyBulletsInPlace(a, bullets);
    ghost var s1 := a[..];
    var ok := true;
    if skills.Some? && skills.value != "" && m.skillsSection.Some? {
      ok := ReplaceInPlace(a, m.skillsSection.value, skills.value);
    }
    ghost var s2 := if ok then Some(a[..]) else None;
    assert s2 == ReplaceIf(Some(s1), skills, m.skillsSection);
    if ok && about.Some? && about.value != "" && m.aboutSection.Some? {
      ok := ReplaceInPlace(a, m.aboutSection.value, about.value);
    }
    if !ok {
      return None;
    }
    r := Some(Join(Present(a[..]), "\n"));
  }

  // ---------------------------------------------------------------- properties

  /** With no edits the output is the source's lines joined again with `"\n"`. */
  lemma NoEditsRoundTrip(m: LatexResumeMap, about: Option<string>, skills: Option<string>)
    requires Placed(m)
    requires !Truthy(about) && !Truthy(skills)
    ensures Assembled(m, about, skills, []) == Some(Join(SplitLines(m.rawLatex), "\n"))
  {
    PresentSlotted(SplitLines(m.rawLatex));
  }

  /** The lines after the bullet edits alone, line by line. */
  function Edited(lines: seq<string>, bullets: seq<(int, string)>): (r: seq<string>)
    ensures |r| == |lines|
  {
    seq(|lines|, k requires 0 <= k < |lines| => EditFor(bullets, k + 1).GetOr(lines[k]))
  }

  /**
   * Bullet edits alone never fail, and line `n` of the output is the last
   * edit for `n` when there is one and the original line otherwise.
   */
  lemma BulletEditsOnly(m: LatexResumeMap, bullets: seq<(int, string)>)
    requires Placed(m)
    ensures Assembled(m, None, None, bullets) == Some(Join(Edited(SplitLines(m.rawLatex), bullets), "\n"))
  {
    var lines := SplitLines(m.rawLatex);
    var e := Edited(lines, bullets);
    assert ApplyBullets(Slotted(lines), bullets) == Slotted(e);
    PresentSlotted(e);
  }

  /**
   * A non-empty replacement for a missing section, or an empty or absent
   * replacement text, leaves the output as if that block were not asked for.
   */
  lemma UntriggeredReplacement(m: LatexResumeMap, about: Option<string>, skills: Option<string>, bullets: seq<(int, string)>)
    requires Placed(m)
    ensures !Truthy(skills) || m.skillsSection.None? ==> Assembled(m, about, skills, bullets) == Assembled(m, about, None, bullets)
    ensures !Truthy(about) || m.aboutSection.None? ==> Assembled(m, about, skills, bullets) == Assembled(m, None, skills, bullets)
  {
  }

  /**
   * The slots a replacement of `sec` with `text` touches, when it runs: the
   * section line's slot, even when the recorded range is empty, and the
   * rest of the range.
   */
  predicate InReplaced(text: Option<string>, sec: Option<LatexSection>, k: int) {
    Truthy(text) && sec.Some? && (k == sec.value.startLine - 1 || sec.value.startLine - 1 < k < sec.value.endLine)
  }

  /**
   * A line no bullet edit names and outside both replaced ranges reaches the
   * output slot array unchanged, in its original position.
   */
  lemma UntouchedLine(m: LatexResumeMap, about: Option<string>, skills: Option<string>, bullets: seq<(int, string)>, k: int)
    requires Placed(m)
    requires FinalSlots(m, about, skills, bullets).Some?
    requires 0 <= k < |SplitLines(m.rawLatex)|
    requires EditFor(bullets, k + 1).None?
    requires !InReplaced(skills, m.skillsSection, k) && !InReplaced(about, m.aboutSection, k)
    ensures FinalSlots(m, about, skills, bullets).value[k] == Some(SplitLines(m.rawLatex)[k])
  {
    var lines := SplitLines(m.rawLatex);
    var s1 := ApplyBullets(Slotted(lines), bullets);
    var s2 := ReplaceIf(Some(s1), skills, m.skillsSection);
    assert s1[k] == Some(lines[k]);
    assert s2.Some?;
    assert s2.value[k] == Some(lines[k]);
    assert FinalSlots(m, about, skills, bullets) == ReplaceIf(s2, about, m.aboutSection);
  }

  /**
   * A replacement of a section keeps the section line's slot first, holding
   * that line (or the edit that replaced it) followed by the new block, and
   * empties every later slot of the section regardless of the bullet edits.
   */
  lemma SkillsReplacementShape(m: LatexResumeMap, skills: string, bullets: seq<(int, string)>)
    requires Placed(m)
    requires m.skillsSection.Some? && skills != ""
    requires FinalSlots(m, None, Some(skills), bullets).Some?
    ensures var lines := SplitLines(m.rawLatex);
      var sec := m.skillsSection.value;
      var s := FinalSlots(m, None, Some(skills), bullets).value;
      && sec.startLine <= |lines|
      && s[sec.startLine - 1] == Some(EditFor(bullets, sec.startLine).GetOr(lines[sec.startLine - 1]) + "\n" + skills)
      && (forall k :: sec.startLine - 1 < k < sec.endLine && k < |lines| ==> s[k].None?)
  {
  }

  /**
   * The about replacement runs last, on the slots the bullets and the skills
   * replacement left: its section line's slot is what those left there
   * followed by the new block, the later slots of its section are emptied,
   * and every other slot is as the skills step left it. The assembly fails
   * when the about section's line lies inside the replaced skills section,
   * whose slot is empty by then; when both sections start on the same line,
   * both blocks follow it, skills first.
   */
  lemma AboutReplacementShape(m: LatexResumeMap, about: string, skills: Option<string>, bullets: seq<(int, string)>)
    requires Placed(m)
    requires m.aboutSection.Some? && about != ""
    requires FinalSlots(m, Some(about), skills, bullets).Some?
    ensures var lines := SplitLines(m.rawLatex);
      var sec := m.aboutSection.value;
      var s2 := ReplaceIf(Some(ApplyBullets(Slotted(lines), bullets)), skills, m.skillsSection);
      var s := FinalSlots(m, Some(about), skills, bullets).value;
      && s2.Some? && sec.startLine <= |lines| && s2.value[sec.startLine - 1].Some?
      && s[sec.startLine - 1] == Some(s2.value[sec.startLine - 1].value + "\n" + about)
      && (forall k :: sec.startLine - 1 < k < sec.endLine && k < |lines| ==> s[k].None?)
      && (forall k :: 0 <= k < |lines| && k != sec.startLine - 1 && !(sec.startLine - 1 < k < sec.endLine) ==> s[k] == s2.value[k])
    ensures Truthy(skills) && m.skillsSection.Some? ==>
      var sk := m.skillsSection.value;
      var ab := m.aboutSection.value;
      && !(sk.startLine < ab.startLine <= sk.endLine)
      && (ab.startLine == sk.startLine ==>
            FinalSlots(m, Some(about), skills, bullets).value[ab.startLine - 1]
              == Some(EditFor(bullets, sk.startLine).GetOr(SplitLines(m.rawLatex)[sk.startLine - 1]) + "\n" + skills.value + "\n" + about))
  {
    var lines := SplitLines(m.rawLatex);
    var s1 := ApplyBullets(Slotted(lines), bullets);
    var s2 := ReplaceIf(Some(s1), skills, m.skillsSection);
    assert FinalSlots(m, Some(about), skills, bullets) == ReplaceIf(s2, Some(about), m.aboutSection);
    assert s2.Some?;
    if Truthy(skills) && m.skillsSection.Some? {
      var sk := m.skillsSection.value;
      var ab := m.aboutSection.value;
      assert s2 == ReplaceBlock(s1, sk, skills.value);
      if ab.startLine == sk.startLine {
        assert s1[sk.startLine - 1] == Some(EditFor(bullets, sk.startLine).GetOr(lines[sk.startLine - 1]));
      }
    }
  }
}
