/**
 * The entry scanners `_extract_experience_entries` and
 * `_extract_project_entries` of backend/app/services/latex_parser.py. Both
 * walk the lines of one section, open an entry at each heading macro and
 * record every `\resumeItem` line of an open entry as a bullet carrying its
 * 1-indexed line number in the original lines. They differ only in the
 * heading macro and the section they pick, so one scan parameterised by the
 * entry kind models both.
 */
module LatexEntries {
  import opened Wrappers
  import opened Strings
  import opened Seqs
  import opened Recognizers
  import opened LatexSections

  datatype EntryKind = ExperienceKind | ProjectKind

  /** The heading fields of an entry: `LatexExperienceEntry` or `LatexProjectEntry` without block and bullets. */
  datatype Heading = ExpHeading(company: string, role: string, dates: string) | ProjHeading(name: string)

  datatype LatexBullet = LatexBullet(plainText: string, latexText: string, lineNumber: int)

  datatype LatexEntry = LatexEntry(heading: Heading, latexBlock: string, bullets: seq<LatexBullet>)

  /** The word a section name must contain, lower-cased, for the scanner of that kind. */
  function SectionWord(kind: EntryKind): string {
    match kind
    case ExperienceKind => "experience"
    case ProjectKind => "project"
  }

  /**
   * The heading a line opens, if any: `\resumeSubheading{1}{2}{3}{4}` gives
   * company 1, dates 2 and role 3; `\resumeProjectHeading{1}{2}` gives the
   * plain text of 1 as the name.
   */
  function HeadingOf(rx: Recognizers, kind: EntryKind, line: string): (h: Option<Heading>)
    ensures h.Some? && kind == ExperienceKind ==> h.value.ExpHeading?
    ensures h.Some? && kind == ProjectKind ==> h.value.ProjHeading?
  {
    match kind
    case ExperienceKind =>
      (match rx.subheading(line)
       case Some(g) => Some(ExpHeading(g.0, g.2, g.1))
       case None => None)
    case ProjectKind =>
      (match rx.projectHeading(line)
       case Some(g) => Some(ProjHeading(rx.latexToPlain(g.0)))
       case None => None)
  }

  /** The plain and LaTeX texts of the bullet a line carrying a `\resumeItem` yields. */
  function ItemTexts(rx: Recognizers, line: string): (t: Option<(string, string)>)
    ensures t.Some? <==> rx.resumeItem(line).Some?
    ensures t.Some? ==> t.value == (rx.latexToPlain(rx.resumeItem(line).value), Strip(line))
  {
    match rx.resumeItem(line)
    case Some(g) => Some((rx.latexToPlain(g), Strip(line)))
    case None => None
  }

  /** A heading recogniser and a bullet-text recogniser; the scan is stated for any pair. */
  type HeadFn = string -> Option<Heading>
  type ItemFn = string -> Option<(string, string)>

  function Head(rx: Recognizers, kind: EntryKind): HeadFn {
    line => HeadingOf(rx, kind, line)
  }

  function Item(rx: Recognizers): ItemFn {
    line => ItemTexts(rx, line)
  }

  /** The bullet line `i` (0-based) yields: its texts and its 1-indexed line number. */
  function BulletAt(item: ItemFn, lines: seq<string>, i: int): (b: Option<LatexBullet>)
    requires 0 <= i < |lines|
    ensures b.Some? <==> item(lines[i]).Some?
    ensures b.Some? ==> b.value.lineNumber == i + 1
  {
    match item(lines[i])
    case Some(t) => Some(LatexBullet(t.0, t.1, i + 1))
    case None => None
  }

  function OptList<T>(o: Option<T>): (r: seq<T>)
    ensures |r| <= 1 && (o.Some? ==> r == [o.value]) && (o.None? ==> r == [])
  {
    if o.Some? then [o.value] else []
  }

  // ---------------------------------------------------------------- the scan

  /** Loop state: the entries closed so far, `current_entry`'s heading and bullets, and `block_lines`. */
  datatype EntScan = EntScan(entries: seq<LatexEntry>, current: Option<Heading>, bullets: seq<LatexBullet>, block: seq<string>)

  const EntStart := EntScan([], None, [], [])

  /** The entries with the current one, if any, closed with its block joined. */
  function Close(st: EntScan): (es: seq<LatexEntry>)
  {
    if st.current.Some? then st.entries + [LatexEntry(st.current.value, Join(st.block, "\n"), st.bullets)] else st.entries
  }

  /** One iteration of the entry loop, at line index `i`. */
  function EntStep(head: HeadFn, item: ItemFn, lines: seq<string>, st: EntScan, i: int): (st': EntScan)
    requires 0 <= i < |lines|
  {
    match head(lines[i])
    case Some(h) => EntScan(Close(st), Some(h), [], [lines[i]])
    case None =>
      if st.current.Some? then EntScan(st.entries, st.current, st.bullets + OptList(BulletAt(item, lines, i)), st.block + [lines[i]])
      else st
  }

  /** The state after the iterations `lo .. hi - 1`. */
  function EntRun(head: HeadFn, item: ItemFn, lines: seq<string>, lo: int, hi: int): (st: EntScan)
    requires 0 <= lo <= hi <= |lines|
    decreases hi - lo
  {
    if hi == lo then EntStart else EntStep(head, item, lines, EntRun(head, item, lines, lo, hi - 1), hi - 1)
  }

  /** The first index the loop reads: `start_line - 1`, clipped to the number of lines (the loop then breaks at once). */
  function RangeLo(lines: seq<string>, sec: LatexSection): (lo: nat)
    requires sec.startLine >= 1
    ensures lo <= |lines|
  {
    if sec.startLine - 1 <= |lines| then sec.startLine - 1 else |lines|
  }

  /** One past the last index the loop reads: `end_line`, cut at `len(lines)` by the `break`, never below the start. */
  function RangeHi(lines: seq<string>, sec: LatexSection): (hi: nat)
    requires sec.startLine >= 1
    ensures RangeLo(lines, sec) <= hi <= |lines|
    ensures hi > RangeLo(lines, sec) ==> hi <= sec.endLine
  {
    var lo := RangeLo(lines, sec);
    if sec.endLine <= lo then lo else if sec.endLine <= |lines| then sec.endLine else |lines|
  }

  /** The entries found in one section by the scan with recognisers `head` and `item`. */
  function EntriesWith(head: HeadFn, item: ItemFn, lines: seq<string>, sec: LatexSection): (es: seq<LatexEntry>)
    requires sec.startLine >= 1
  {
    Close(EntRun(head, item, lines, RangeLo(lines, sec), RangeHi(lines, sec)))
  }

  /** The entries the scanner of `kind` finds in one section. */
  function EntriesIn(rx: Recognizers, kind: EntryKind, lines: seq<string>, sec: LatexSection): (es: seq<LatexEntry>)
    requires sec.startLine >= 1
  {
    EntriesWith(Head(rx, kind), Item(rx), lines, sec)
  }

  predicate NoneNamedBefore(kind: EntryKind, sections: seq<LatexSection>, k: int)
    requires k <= |sections|
  {
    forall j :: 0 <= j < k ==> !Contains(Lower(sections[j].name), SectionWord(kind))
  }

  /** The section the scanner of `kind` reads: the first whose lower-cased name contains its word. */
  function SelectSection(kind: EntryKind, sections: seq<LatexSection>): (r: Option<LatexSection>)
    ensures r.Some? ==> Contains(Lower(r.value.name), SectionWord(kind))
    ensures r.Some? ==> exists k :: 0 <= k < |sections| && sections[k] == r.value && NoneNamedBefore(kind, sections, k)
    ensures r.None? ==> forall j :: 0 <= j < |sections| ==> !Contains(Lower(sections[j].name), SectionWord(kind))
  {
    FirstWhere(sections, (s: LatexSection) => Contains(Lower(s.name), SectionWord(kind)))
  }

  /** Every section starts on a positive line, as every section of the map does. */
  predicate Positioned(sections: seq<LatexSection>) {
    forall k :: 0 <= k < |sections| ==> sections[k].startLine >= 1
  }

  /** `_extract_experience_entries(lines, sections)` or `_extract_project_entries(lines, sections)`. */
  function Entries(rx: Recognizers, kind: EntryKind, lines: seq<string>, sections: seq<LatexSection>): (es: seq<LatexEntry>)
    requires Positioned(sections)
  {
    match SelectSection(kind, sections)
    case None => []
    case Some(sec) => EntriesIn(rx, kind, lines, sec)
  }

  /** The entry loop over one section. */
  method ScanEntries(rx: Recognizers, kind: EntryKind, lines: seq<string>, sec: LatexSection) returns (result: seq<LatexEntry>)
    requires sec.startLine >= 1
    ensures result == EntriesIn(rx, kind, lines, sec)
  {
    ghost var head := Head(rx, kind);
    ghost var item := Item(rx);
    ghost var lo := RangeLo(lines, sec);
    var entries: seq<LatexEntry> := [];
    var current: Option<Heading> := None;
    var bullets: seq<LatexBullet> := [];
    var block: seq<string> := [];
    var i := sec.startLine - 1;
    ghost var read := lo;
    while i < sec.endLine
      invariant lo <= read <= |lines| && lo <= i
      invariant read == i || (read == lo && i == sec.startLine - 1 && i > |lines|)
      invariant i == sec.startLine - 1 || i <= sec.endLine
      invariant EntScan(entries, current, bullets, block) == EntRun(head, item, lines, lo, read)
    {
      if i >= |lines| {
        break;
      }
      ghost var prev := EntScan(entries, current, bullets, block);
      entries, current, bullets, block := EntLine(rx, kind, lines, i, entries, current, bullets, block);
      EntRunSnoc(head, item, lines, lo, i, prev, EntScan(entries, current, bullets, block));
      i := i + 1;
      read := i;
    }
    assert read == RangeHi(lines, sec);
    result := entries;
    if current.Some? {
      result := result + [LatexEntry(current.value, Join(block, "\n"), bullets)];
    }
  }

  /** One iteration of the entry loop, on the loop's variables. */
  method EntLine(rx: Recognizers, kind: EntryKind, lines: seq<string>, i: nat,
                 entries: seq<LatexEntry>, current: Option<Heading>, bullets: seq<LatexBullet>, block: seq<string>)
    returns (entries': seq<LatexEntry>, current': Option<Heading>, bullets': seq<LatexBullet>, block': seq<string>)
    requires i < |lines|
    ensures EntScan(entries', current', bullets', block') == EntStep(Head(rx, kind), Item(rx), lines, EntScan(entries, current, bullets, block), i)
  {
    entries', current', bullets', block' := entries, current, bullets, block;
    var line := lines[i];
    var heading := HeadingOf(rx, kind, line);
    assert Head(rx, kind)(line) == heading;
    if heading.Some? {
      if current.Some? {
        entries' := entries + [LatexEntry(current.value, Join(block, "\n"), bullets)];
      }
      current' := heading;
      bullets' := [];
      block' := [line];
    } else if current.Some? {
      block' := block + [line];
      var texts := ItemTexts(rx, line);
      assert Item(rx)(line) == texts;
      if texts.Some? {
        bullets' := bullets + [LatexBullet(texts.value.0, texts.value.1, i + 1)];
      }
    }
  }

  lemma EntRunSnoc(head: HeadFn, item: ItemFn, lines: seq<string>, lo: int, i: int, st: EntScan, st': EntScan)
    requires 0 <= lo <= i < |lines| && st == EntRun(head, item, lines, lo, i)
    requires st' == EntStep(head, item, lines, st, i)
    ensures st' == EntRun(head, item, lines, lo, i + 1)
  {
  }

  /** `_extract_experience_entries` / `_extract_project_entries`: pick the section, then scan it. */
  method ExtractEntries(rx: Recognizers, kind: EntryKind, lines: seq<string>, sections: seq<LatexSection>) returns (result: seq<LatexEntry>)
    requires Positioned(sections)
    ensures result == Entries(rx, kind, lines, sections)
  {
    var sec := SelectSection(kind, sections);
    if sec.None? {
      return [];
    }
    assert sec.value in sections;
    result := ScanEntries(rx, kind, lines, sec.value);
  }

  // ---------------------------------------------------------------- views of the result

  /** The bullets of all entries, entry by entry. */
  function BulletsOf(es: seq<LatexEntry>): (bs: seq<LatexBullet>)
  {
    if |es| == 0 then [] else BulletsOf(es[..|es| - 1]) + es[|es| - 1].bullets
  }

  /** The headings of all entries, in order. */
  function HeadsOf(es: seq<LatexEntry>): (hs: seq<Heading>)
    ensures |hs| == |es|
  {
    if |es| == 0 then [] else HeadsOf(es[..|es| - 1]) + [es[|es| - 1].heading]
  }

  function LineNumbers(bs: seq<LatexBullet>): (ns: seq<int>)
    ensures |ns| == |bs|
  {
    if |bs| == 0 then [] else LineNumbers(bs[..|bs| - 1]) + [bs[|bs| - 1].lineNumber]
  }

  lemma EntriesSnoc(es: seq<LatexEntry>, e: LatexEntry)
    ensures BulletsOf(es + [e]) == BulletsOf(es) + e.bullets
    ensures HeadsOf(es + [e]) == HeadsOf(es) + [e.heading]
  {
    assert (es + [e])[..|es|] == es;
  }

  lemma LineNumbersSnoc(bs: seq<LatexBullet>, b: LatexBullet)
    ensures LineNumbers(bs + [b]) == LineNumbers(bs) + [b.lineNumber]
  {
    assert (bs + [b])[..|bs|] == bs;
  }

  /** The headings of the heading lines in `[lo, hi)`, in line order. */
  function HeadingsIn(head: HeadFn, lines: seq<string>, lo: int, hi: int): (hs: seq<Heading>)
    requires 0 <= lo <= hi <= |lines|
    decreases hi - lo
  {
    if hi == lo then [] else HeadingsIn(head, lines, lo, hi - 1) + OptList(head(lines[hi - 1]))
  }

  /** All bullets of a state: those of the closed entries, then the current entry's. */
  function AllBullets(st: EntScan): (bs: seq<LatexBullet>) {
    BulletsOf(st.entries) + st.bullets
  }

  /** The headings a state has opened: the closed entries', then the current one. */
  function Opened(st: EntScan): (hs: seq<Heading>) {
    HeadsOf(st.entries) + OptList(st.current)
  }

  lemma CloseViews(st: EntScan)
    ensures BulletsOf(Close(st)) == (if st.current.Some? then AllBullets(st) else BulletsOf(st.entries))
    ensures HeadsOf(Close(st)) == Opened(st)
  {
    if st.current.Some? {
      EntriesSnoc(st.entries, LatexEntry(st.current.value, Join(st.block, "\n"), st.bullets));
    }
  }

  // ---------------------------------------------------------------- invariants of the scan

  /**
   * Line `j` is a bullet line: it carries a `\resumeItem`, opens no entry
   * and some heading line precedes it within the section.
   */
  predicate IsBulletLine(head: HeadFn, item: ItemFn, lines: seq<string>, lo: int, j: int)
    requires 0 <= lo <= j < |lines|
  {
    BulletAt(item, lines, j).Some? && head(lines[j]).None? && HeadingsIn(head, lines, lo, j) != []
  }

  /** The opened headings are exactly those of the heading lines read so far. */
  predicate HeadsInv(head: HeadFn, item: ItemFn, lines: seq<string>, lo: int, hi: int, st: EntScan)
    requires 0 <= lo <= hi <= |lines|
  {
    Opened(st) == HeadingsIn(head, lines, lo, hi)
    && (st.current.None? ==> st.entries == [] && st.bullets == [])
  }

  /** Some heading line has been read exactly when an entry is open. */
  lemma OpenedIffCurrent(head: HeadFn, item: ItemFn, lines: seq<string>, lo: int, hi: int, st: EntScan)
    requires 0 <= lo <= hi <= |lines|
    requires HeadsInv(head, item, lines, lo, hi, st)
    ensures HeadingsIn(head, lines, lo, hi) != [] <==> st.current.Some?
  {
    if st.current.None? {
      assert Opened(st) == HeadsOf([]) + [];
    } else {
      assert |Opened(st)| == |st.entries| + 1;
    }
  }

  lemma HeadsStep(head: HeadFn, item: ItemFn, lines: seq<string>, lo: int, hi: int, st: EntScan)
    requires 0 <= lo < hi <= |lines|
    requires HeadsInv(head, item, lines, lo, hi - 1, st)
    ensures HeadsInv(head, item, lines, lo, hi, EntStep(head, item, lines, st, hi - 1))
  {
    CloseViews(st);
  }

  lemma {:induction false} RunHeads(head: HeadFn, item: ItemFn, lines: seq<string>, lo: int, hi: int)
    requires 0 <= lo <= hi <= |lines|
    ensures HeadsInv(head, item, lines, lo, hi, EntRun(head, item, lines, lo, hi))
    decreases hi - lo
  {
    if hi > lo {
      RunHeads(head, item, lines, lo, hi - 1);
      HeadsStep(head, item, lines, lo, hi, EntRun(head, item, lines, lo, hi - 1));
    }
  }

  /** A recorded bullet is the bullet of a bullet line read so far. */
  predicate BulletOk(head: HeadFn, item: ItemFn, lines: seq<string>, lo: int, hi: int, b: LatexBullet)
    requires 0 <= lo <= hi <= |lines|
  {
    lo < b.lineNumber <= hi && IsBulletLine(head, item, lines, lo, b.lineNumber - 1)
    && BulletAt(item, lines, b.lineNumber - 1) == Some(b)
  }

  /** Recorded bullets are bullets of lines read so far, in strictly increasing line order. */
  predicate BulletsInv(head: HeadFn, item: ItemFn, lines: seq<string>, lo: int, hi: int, bs: seq<LatexBullet>)
    requires 0 <= lo <= hi <= |lines|
  {
    (forall k :: 0 <= k < |bs| ==> BulletOk(head, item, lines, lo, hi, bs[k]))
    && (forall k :: 0 <= k < |bs| - 1 ==> bs[k].lineNumber < bs[k + 1].lineNumber)
  }

  lemma BulletsSnoc(head: HeadFn, item: ItemFn, lines: seq<string>, lo: int, hi: int, bs: seq<LatexBullet>, b: LatexBullet)
    requires 0 <= lo < hi <= |lines|
    requires BulletsInv(head, item, lines, lo, hi - 1, bs)
    requires BulletOk(head, item, lines, lo, hi, b) && b.lineNumber == hi
    ensures BulletsInv(head, item, lines, lo, hi, bs + [b])
  {
    var r := bs + [b];
    forall k | 0 <= k < |r| ensures BulletOk(head, item, lines, lo, hi, r[k]) {
      if k < |bs| {
        assert r[k] == bs[k];
      }
    }
    forall k | 0 <= k < |r| - 1 ensures r[k].lineNumber < r[k + 1].lineNumber {
      assert r[k] == bs[k];
      if k + 1 < |bs| {
        assert r[k + 1] == bs[k + 1];
      }
    }
  }

  lemma BulletsStep(head: HeadFn, item: ItemFn, lines: seq<string>, lo: int, hi: int, st: EntScan)
    requires 0 <= lo < hi <= |lines|
    requires HeadsInv(head, item, lines, lo, hi - 1, st)
    requires BulletsInv(head, item, lines, lo, hi - 1, AllBullets(st))
    ensures BulletsInv(head, item, lines, lo, hi, AllBullets(EntStep(head, item, lines, st, hi - 1)))
  {
    var i := hi - 1;
    StepBullets(head, item, lines, st, i);
    if Adds(head, item, lines, st, i) {
      OpenedIffCurrent(head, item, lines, lo, i, st);
      BulletsSnoc(head, item, lines, lo, hi, AllBullets(st), BulletAt(item, lines, i).value);
    } else {
      BulletsWeaken(head, item, lines, lo, hi, AllBullets(st));
    }
  }

  lemma BulletsWeaken(head: HeadFn, item: ItemFn, lines: seq<string>, lo: int, hi: int, bs: seq<LatexBullet>)
    requires 0 <= lo < hi <= |lines|
    requires BulletsInv(head, item, lines, lo, hi - 1, bs)
    ensures BulletsInv(head, item, lines, lo, hi, bs)
  {
  }

  lemma {:induction false} RunBullets(head: HeadFn, item: ItemFn, lines: seq<string>, lo: int, hi: int)
    requires 0 <= lo <= hi <= |lines|
    ensures BulletsInv(head, item, lines, lo, hi, AllBullets(EntRun(head, item, lines, lo, hi)))
    decreases hi - lo
  {
    if hi > lo {
      RunBullets(head, item, lines, lo, hi - 1);
      RunBulletsStep(head, item, lines, lo, hi);
    }
  }

  lemma RunBulletsStep(head: HeadFn, item: ItemFn, lines: seq<string>, lo: int, hi: int)
    requires 0 <= lo < hi <= |lines|
    requires BulletsInv(head, item, lines, lo, hi - 1, AllBullets(EntRun(head, item, lines, lo, hi - 1)))
    ensures BulletsInv(head, item, lines, lo, hi, AllBullets(EntRun(head, item, lines, lo, hi)))
  {
    var st := EntRun(head, item, lines, lo, hi - 1);
    RunHeads(head, item, lines, lo, hi - 1);
    BulletsStep(head, item, lines, lo, hi, st);
    assert EntRun(head, item, lines, lo, hi) == EntStep(head, item, lines, st, hi - 1);
  }

  /** The 1-indexed numbers of the bullet lines in `[lo, hi)`, in line order. */
  function BulletLinesIn(head: HeadFn, item: ItemFn, lines: seq<string>, lo: int, hi: int): (ns: seq<int>)
    requires 0 <= lo <= hi <= |lines|
    decreases hi - lo
  {
    if hi == lo then []
    else BulletLinesIn(head, item, lines, lo, hi - 1) + (if IsBulletLine(head, item, lines, lo, hi - 1) then [hi] else [])
  }

  /** Whether the iteration at `i` records a bullet. */
  predicate Adds(head: HeadFn, item: ItemFn, lines: seq<string>, st: EntScan, i: int)
    requires 0 <= i < |lines|
  {
    head(lines[i]).None? && st.current.Some? && BulletAt(item, lines, i).Some?
  }

  lemma StepBullets(head: HeadFn, item: ItemFn, lines: seq<string>, st: EntScan, i: int)
    requires 0 <= i < |lines|
    requires st.current.None? ==> st.bullets == []
    ensures Adds(head, item, lines, st, i) ==> AllBullets(EntStep(head, item, lines, st, i)) == AllBullets(st) + [BulletAt(item, lines, i).value]
    ensures !Adds(head, item, lines, st, i) ==> AllBullets(EntStep(head, item, lines, st, i)) == AllBullets(st)
  {
    if head(lines[i]).Some? {
      CloseViews(st);
    }
  }

  lemma LinesStep(head: HeadFn, item: ItemFn, lines: seq<string>, lo: int, hi: int, st: EntScan, st': EntScan)
    requires 0 <= lo < hi <= |lines|
    requires HeadsInv(head, item, lines, lo, hi - 1, st)
    requires LineNumbers(AllBullets(st)) == BulletLinesIn(head, item, lines, lo, hi - 1)
    requires st' == EntStep(head, item, lines, st, hi - 1)
    ensures LineNumbers(AllBullets(st')) == BulletLinesIn(head, item, lines, lo, hi)
  {
    var i := hi - 1;
    OpenedIffCurrent(head, item, lines, lo, i, st);
    assert IsBulletLine(head, item, lines, lo, i) <==> Adds(head, item, lines, st, i);
    StepBullets(head, item, lines, st, i);
    if Adds(head, item, lines, st, i) {
      LineNumbersSnoc(AllBullets(st), BulletAt(item, lines, i).value);
    }
  }

  lemma {:induction false} RunLines(head: HeadFn, item: ItemFn, lines: seq<string>, lo: int, hi: int)
    requires 0 <= lo <= hi <= |lines|
    ensures LineNumbers(AllBullets(EntRun(head, item, lines, lo, hi))) == BulletLinesIn(head, item, lines, lo, hi)
    decreases hi - lo
  {
    if hi > lo {
      RunLines(head, item, lines, lo, hi - 1);
      RunLinesStep(head, item, lines, lo, hi);
    } else {
      RunLinesBase(head, item, lines, lo);
    }
  }

  lemma RunLinesBase(head: HeadFn, item: ItemFn, lines: seq<string>, lo: int)
    requires 0 <= lo <= |lines|
    ensures LineNumbers(AllBullets(EntRun(head, item, lines, lo, lo))) == BulletLinesIn(head, item, lines, lo, lo)
  {
    assert AllBullets(EntStart) == [];
  }

  lemma RunLinesStep(head: HeadFn, item: ItemFn, lines: seq<string>, lo: int, hi: int)
    requires 0 <= lo < hi <= |lines|
    requires LineNumbers(AllBullets(EntRun(head, item, lines, lo, hi - 1))) == BulletLinesIn(head, item, lines, lo, hi - 1)
    ensures LineNumbers(AllBullets(EntRun(head, item, lines, lo, hi))) == BulletLinesIn(head, item, lines, lo, hi)
  {
    RunHeads(head, item, lines, lo, hi - 1);
    LinesStep(head, item, lines, lo, hi, EntRun(head, item, lines, lo, hi - 1), EntRun(head, item, lines, lo, hi));
  }

  /** The bullets of the entries are exactly the bullets of the state the loop ends in. */
  lemma {:induction false} EntriesBullets(head: HeadFn, item: ItemFn, lines: seq<string>, sec: LatexSection)
    requires sec.startLine >= 1
    ensures BulletsOf(EntriesWith(head, item, lines, sec)) == AllBullets(EntRun(head, item, lines, RangeLo(lines, sec), RangeHi(lines, sec)))
  {
    var st := EntRun(head, item, lines, RangeLo(lines, sec), RangeHi(lines, sec));
    RunHeads(head, item, lines, RangeLo(lines, sec), RangeHi(lines, sec));
    CloseViews(st);
  }

  // ---------------------------------------------------------------- properties of the entries

  /**
   * One entry per heading line of the section, in line order, carrying that
   * line's heading fields; a section without a heading line has no entries.
   */
  lemma {:induction false} EntryPerHeading(head: HeadFn, item: ItemFn, lines: seq<string>, sec: LatexSection)
    requires sec.startLine >= 1
    ensures HeadsOf(EntriesWith(head, item, lines, sec)) == HeadingsIn(head, lines, RangeLo(lines, sec), RangeHi(lines, sec))
    ensures HeadingsIn(head, lines, RangeLo(lines, sec), RangeHi(lines, sec)) == [] ==> EntriesWith(head, item, lines, sec) == []
  {
    var st := EntRun(head, item, lines, RangeLo(lines, sec), RangeHi(lines, sec));
    RunHeads(head, item, lines, RangeLo(lines, sec), RangeHi(lines, sec));
    CloseViews(st);
  }

  /**
   * Every bullet addresses its own line: the line number lies in the
   * section's `[start_line, end_line]` and in the original lines, the line
   * is a bullet line and the bullet is the one the recogniser reads off it.
   */
  lemma {:induction false} BulletsAddressLines(head: HeadFn, item: ItemFn, lines: seq<string>, sec: LatexSection)
    requires sec.startLine >= 1
    ensures forall b :: b in BulletsOf(EntriesWith(head, item, lines, sec)) ==>
      (sec.startLine <= b.lineNumber <= sec.endLine && b.lineNumber <= |lines|
      && IsBulletLine(head, item, lines, RangeLo(lines, sec), b.lineNumber - 1)
      && BulletAt(item, lines, b.lineNumber - 1) == Some(b))
  {
    var lo := RangeLo(lines, sec);
    var hi := RangeHi(lines, sec);
    RunBullets(head, item, lines, lo, hi);
    EntriesBullets(head, item, lines, sec);
    var bs := BulletsOf(EntriesWith(head, item, lines, sec));
    forall b | b in bs
      ensures sec.startLine <= b.lineNumber <= sec.endLine && b.lineNumber <= |lines|
      ensures IsBulletLine(head, item, lines, lo, b.lineNumber - 1)
      ensures BulletAt(item, lines, b.lineNumber - 1) == Some(b)
    {
      var k :| 0 <= k < |bs| && bs[k] == b;
      assert BulletOk(head, item, lines, lo, hi, bs[k]);
    }
  }

  /** Bullet line numbers strictly increase across the whole entry list. */
  lemma {:induction false} BulletsIncrease(head: HeadFn, item: ItemFn, lines: seq<string>, sec: LatexSection)
    requires sec.startLine >= 1
    ensures forall k :: 0 <= k < |BulletsOf(EntriesWith(head, item, lines, sec))| - 1 ==>
      BulletsOf(EntriesWith(head, item, lines, sec))[k].lineNumber < BulletsOf(EntriesWith(head, item, lines, sec))[k + 1].lineNumber
  {
    RunBullets(head, item, lines, RangeLo(lines, sec), RangeHi(lines, sec));
    EntriesBullets(head, item, lines, sec);
  }

  /**
   * The bullets are exactly the bullet lines of the section, one each, in
   * line order: a line of the range yields a bullet iff it carries an item,
   * is not a heading line and follows a heading line.
   */
  lemma {:induction false} BulletLinesRecorded(head: HeadFn, item: ItemFn, lines: seq<string>, sec: LatexSection)
    requires sec.startLine >= 1
    ensures LineNumbers(BulletsOf(EntriesWith(head, item, lines, sec))) == BulletLinesIn(head, item, lines, RangeLo(lines, sec), RangeHi(lines, sec))
  {
    RunLines(head, item, lines, RangeLo(lines, sec), RangeHi(lines, sec));
    EntriesBullets(head, item, lines, sec);
  }

  /** The scan ranges over the section's own lines: `start_line - 1 .. end_line - 1`, cut at the end of the lines. */
  lemma RangeIsSection(lines: seq<string>, sec: LatexSection)
    requires 1 <= sec.startLine <= sec.endLine <= |lines|
    ensures RangeLo(lines, sec) == sec.startLine - 1 && RangeHi(lines, sec) == sec.endLine
  {
  }

  /**
   * The bullets of a scanned section, for the concrete recognisers: each
   * lies in the section's `[start_line, end_line]`, its LaTeX text is its
   * original line stripped, its plain text is the converted `\resumeItem`
   * argument of that line, the line is not a heading line, and a heading
   * line of the section precedes it.
   */
  lemma {:induction false} SectionBullets(rx: Recognizers, kind: EntryKind, lines: seq<string>, sec: LatexSection)
    requires sec.startLine >= 1
    ensures forall b :: b in BulletsOf(EntriesIn(rx, kind, lines, sec)) ==>
      (sec.startLine <= b.lineNumber <= sec.endLine && b.lineNumber <= |lines|
      && b.latexText == Strip(lines[b.lineNumber - 1])
      && rx.resumeItem(lines[b.lineNumber - 1]).Some?
      && b.plainText == rx.latexToPlain(rx.resumeItem(lines[b.lineNumber - 1]).value)
      && HeadingOf(rx, kind, lines[b.lineNumber - 1]).None?
      && HeadingsIn(Head(rx, kind), lines, RangeLo(lines, sec), b.lineNumber - 1) != [])
  {
    BulletsAddressLines(Head(rx, kind), Item(rx), lines, sec);
    forall b | b in BulletsOf(EntriesIn(rx, kind, lines, sec))
      ensures b.latexText == Strip(lines[b.lineNumber - 1])
      ensures b.plainText == rx.latexToPlain(rx.resumeItem(lines[b.lineNumber - 1]).value)
    {
      assert BulletAt(Item(rx), lines, b.lineNumber - 1) == Some(b);
      assert Item(rx)(lines[b.lineNumber - 1]) == ItemTexts(rx, lines[b.lineNumber - 1]);
    }
  }
}
