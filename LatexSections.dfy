/**
 * The section map of `parse_latex_resume` (backend/app/services/latex_parser.py):
 * the document bounds, and the line loop that cuts the body into `\section`
 * blocks addressed by 1-indexed inclusive line ranges of the original lines.
 *
 * The loop and its invariants are stated for any section recogniser `title`;
 * the map itself uses `SectionTitle`, the stripped title found by the concrete
 * `\section{...}` matcher `SectionName`.
 */
module LatexSections {
  import opened Wrappers
  import opened Strings
  import opened Recognizers

  /** A line recogniser returning the stripped title of a `\section` line. */
  type Title = string -> Option<string>

  /**
   * `re.match(r"\s*\\section\{([^}]+)\}", line)`: group 1, when the line
   * starts (after whitespace) with `\section{`, a non-empty run without `}`
   * and a closing `}`.
   */
  function SectionName(line: string): (g: Option<string>)
    ensures g.Some? ==> |g.value| > 0 && !HasChar(g.value, '}')
  {
    var rest := line[LeadSpaces(line)..];
    if !StartsWith(rest, "\\section{") then None
    else
      var body := rest[9..];
      var k := FirstIndexOf(body, '}');
      if 0 < k < |body| then Some(body[..k]) else None
  }

  /** A `\section{t}` line with a non-empty title free of `}` yields exactly `t`, whatever follows it. */
  lemma SectionNameOf(t: string, tail: string)
    requires |t| > 0 && !HasChar(t, '}')
    ensures SectionName("\\section{" + t + "}" + tail) == Some(t)
  {
    var line := "\\section{" + t + "}" + tail;
    assert line[0] == '\\';
    assert LeadSpaces(line) == 0;
    assert line[..9] == "\\section{";
    var body := line[9..];
    assert body == t + "}" + tail;
    var k := FirstIndexOf(body, '}');
    assert forall i :: 0 <= i < |t| ==> body[i] == t[i];
    assert body[|t|] == '}';
    assert k == |t|;
    assert body[..k] == t;
  }

  /** `section_match.group(1).strip()` for a `\section` line. */
  function SectionTitle(line: string): (t: Option<string>)
    ensures t.Some? <==> SectionName(line).Some?
    ensures t.Some? ==> IsStripped(t.value) && t.value == Strip(SectionName(line).value)
  {
    match SectionName(line)
    case Some(g) => Some(Strip(g))
    case None => None
  }

  /** Line `j` is a section line whose title is `name`. */
  predicate SectionAt(title: Title, lines: seq<string>, j: int, name: string) {
    0 <= j < |lines| && title(lines[j]).Some? && name == title(lines[j]).value
  }

  predicate NoSectionIn(title: Title, lines: seq<string>, lo: int, hi: int)
    requires 0 <= lo && hi <= |lines|
  {
    forall j :: lo <= j < hi ==> title(lines[j]).None?
  }

  /** Every section line in `[lo, hi)` has a non-empty title. */
  predicate TitledIn(title: Title, lines: seq<string>, lo: int, hi: int)
    requires 0 <= lo && hi <= |lines|
  {
    forall j :: lo <= j < hi && title(lines[j]).Some? ==> title(lines[j]).value != ""
  }

  /** The first section line in `[lo, hi)`. */
  function FirstSectionIn(title: Title, lines: seq<string>, lo: int, hi: int): (r: Option<int>)
    requires 0 <= lo <= hi <= |lines|
    ensures r.Some? ==> lo <= r.value < hi && title(lines[r.value]).Some? && NoSectionIn(title, lines, lo, r.value)
    ensures r.None? ==> NoSectionIn(title, lines, lo, hi)
    decreases hi - lo
  {
    if hi == lo then None
    else match FirstSectionIn(title, lines, lo, hi - 1)
      case Some(j) => Some(j)
      case None => if title(lines[hi - 1]).Some? then Some(hi - 1) else None
  }

  /** `doc_start`: one past the first line containing `\begin{document}`, 0 when there is none. */
  function DocStart(lines: seq<string>): (d: nat)
    ensures d <= |lines|
    ensures d > 0 ==> Contains(lines[d - 1], "\\begin{document}") && forall j :: 0 <= j < d - 1 ==> !Contains(lines[j], "\\begin{document}")
    ensures d == 0 ==> forall j :: 0 <= j < |lines| ==> !Contains(lines[j], "\\begin{document}")
  {
    if |lines| == 0 then 0
    else if Contains(lines[0], "\\begin{document}") then 1
    else
      var d := DocStart(lines[1..]);
      assert forall j :: 1 <= j < |lines| ==> lines[j] == lines[1..][j - 1];
      if d == 0 then 0 else d + 1
  }

  /** The index of the last line containing `\end{document}`, if any. */
  function LastEndDocument(lines: seq<string>): (r: Option<nat>)
    ensures r.Some? ==> (r.value < |lines| && Contains(lines[r.value], "\\end{document}")
      && forall j :: r.value < j < |lines| ==> !Contains(lines[j], "\\end{document}"))
    ensures r.None? ==> forall j :: 0 <= j < |lines| ==> !Contains(lines[j], "\\end{document}")
  {
    if |lines| == 0 then None
    else if Contains(lines[|lines| - 1], "\\end{document}") then Some(|lines| - 1)
    else LastEndDocument(lines[..|lines| - 1])
  }

  /** `doc_end`: that index, or `len(lines) - 1` when there is none. */
  function DocEnd(lines: seq<string>): (d: int)
    ensures -1 <= d < |lines|
    ensures |lines| > 0 ==> 0 <= d
    ensures LastEndDocument(lines).Some? ==> d == LastEndDocument(lines).value
    ensures LastEndDocument(lines).None? ==> d == |lines| - 1
  {
    match LastEndDocument(lines)
    case Some(j) => j
    case None => |lines| - 1
  }

  /** A `LatexSection`: `startLine`/`endLine` are 1-indexed and inclusive. */
  datatype LatexSection = LatexSection(name: string, plainText: string, latexContent: string, startLine: int, endLine: int)

  /** Scanner state: the sections so far, `current_section_name`, `current_section_start`, `current_section_lines`, `header_lines` and `found_first_section`. */
  datatype SecScan = SecScan(sections: seq<LatexSection>, name: string, start: int, buffer: seq<string>, header: seq<string>, found: bool)

  function SecStart(docStart: int): SecScan {
    SecScan([], "", docStart, [], [], false)
  }

  function MakeSection(rx: Recognizers, name: string, buffer: seq<string>, start: int, endLine: int): (s: LatexSection)
  {
    var content := Join(buffer, "\n");
    LatexSection(name, rx.latexToPlain(content), content, start + 1, endLine)
  }

  /** One iteration of the section loop, at line index `i`. */
  function SecStep(rx: Recognizers, title: Title, lines: seq<string>, st: SecScan, i: int): (st': SecScan)
    requires 0 <= i < |lines|
  {
    var line := lines[i];
    match title(line)
    case Some(g) =>
      var sections := if st.name != "" then st.sections + [MakeSection(rx, st.name, st.buffer, st.start, i)] else st.sections;
      var header := if st.name == "" && !st.found then st.buffer else st.header;
      SecScan(sections, g, i, [line], header, true)
    case None => st.(buffer := st.buffer + [line])
  }

  /** The state after the iterations `lo .. hi - 1`. */
  function SecRun(rx: Recognizers, title: Title, lines: seq<string>, lo: int, hi: int): (st: SecScan)
    requires 0 <= lo <= hi <= |lines|
    decreases hi - lo
  {
    if hi == lo then SecStart(lo) else SecStep(rx, title, lines, SecRun(rx, title, lines, lo, hi - 1), hi - 1)
  }

  /** The last section, closed at `doc_end`. */
  function SecFinish(rx: Recognizers, st: SecScan, docEnd: int): (secs: seq<LatexSection>)
  {
    if st.name != "" then st.sections + [MakeSection(rx, st.name, st.buffer, st.start, docEnd)] else st.sections
  }

  /** The upper bound of `range(doc_start, doc_end)` clipped so that the range is never negative. */
  function LoopEnd(lines: seq<string>): (hi: int)
    ensures DocStart(lines) <= hi <= |lines|
    ensures DocEnd(lines) >= DocStart(lines) ==> hi == DocEnd(lines)
  {
    if DocEnd(lines) > DocStart(lines) then DocEnd(lines) else DocStart(lines)
  }

  /** The loop's final state, for a section recogniser `title`. */
  function ScanWith(rx: Recognizers, title: Title, lines: seq<string>): (st: SecScan)
  {
    SecRun(rx, title, lines, DocStart(lines), LoopEnd(lines))
  }

  /** The sections found with `title`. */
  function SectionsWith(rx: Recognizers, title: Title, lines: seq<string>): (secs: seq<LatexSection>)
  {
    SecFinish(rx, ScanWith(rx, title, lines), DocEnd(lines))
  }

  /** The loop's final state. */
  function Scan(rx: Recognizers, lines: seq<string>): (st: SecScan)
  {
    ScanWith(rx, SectionTitle, lines)
  }

  /** The sections of `parse_latex_resume`. */
  function Sections(rx: Recognizers, lines: seq<string>): (secs: seq<LatexSection>)
  {
    SectionsWith(rx, SectionTitle, lines)
  }

  /** `header_lines` joined. */
  function Header(rx: Recognizers, lines: seq<string>): (h: string)
  {
    Join(Scan(rx, lines).header, "\n")
  }

  /** The section loop of `parse_latex_resume`, with `title` recognising section lines. */
  method ScanSections(rx: Recognizers, title: Title, lines: seq<string>) returns (sections: seq<LatexSection>, header: seq<string>)
    ensures sections == SectionsWith(rx, title, lines)
    ensures header == ScanWith(rx, title, lines).header
  {
    var docEnd := DocEnd(lines);
    var st := SecLoop(rx, title, lines, DocStart(lines), LoopEnd(lines));
    sections := st.sections;
    header := st.header;
    if st.name != "" {
      var content := Join(st.buffer, "\n");
      sections := sections + [LatexSection(st.name, rx.latexToPlain(content), content, st.start + 1, docEnd)];
    }
  }

  /** The iterations `lo .. hi - 1` of the section loop. */
  method SecLoop(rx: Recognizers, title: Title, lines: seq<string>, lo: int, hi: int) returns (st: SecScan)
    requires 0 <= lo <= hi <= |lines|
    ensures st == SecRun(rx, title, lines, lo, hi)
  {
    st := SecStart(lo);
    var i := lo;
    while i < hi
      invariant lo <= i <= hi
      invariant st == SecRun(rx, title, lines, lo, i)
    {
      st := SecLine(rx, title, lines, st, i);
      i := i + 1;
    }
  }

  /** One iteration of the section loop. */
  method SecLine(rx: Recognizers, title: Title, lines: seq<string>, st: SecScan, i: int) returns (st': SecScan)
    requires 0 <= i < |lines|
    ensures st' == SecStep(rx, title, lines, st, i)
  {
    var line := lines[i];
    var t := title(line);
    var sections, header := st.sections, st.header;
    if t.Some? {
      if st.name != "" {
        var content := Join(st.buffer, "\n");
        sections := sections + [LatexSection(st.name, rx.latexToPlain(content), content, st.start + 1, i)];
      } else if !st.found {
        header := st.buffer;
      }
      st' := SecScan(sections, t.value, i, [line], header, true);
    } else {
      st' := st.(buffer := st.buffer + [line]);
    }
  }

  // ---------------------------------------------------------------- invariants of the scan

  /** The buffer is always the lines from the current start up to the loop index. */
  predicate BufferOk(title: Title, lines: seq<string>, lo: int, hi: int, st: SecScan)
    requires 0 <= lo <= hi <= |lines|
  {
    lo <= st.start <= hi && st.buffer == lines[st.start..hi]
    && (st.found ==> st.start < hi && SectionAt(title, lines, st.start, st.name))
    && (!st.found ==> st.start == lo && st.name == "" && st.sections == [] && st.header == [] && NoSectionIn(title, lines, lo, hi))
  }

  lemma BufferStep(rx: Recognizers, title: Title, lines: seq<string>, lo: int, hi: int, st: SecScan)
    requires 0 <= lo < hi <= |lines|
    requires BufferOk(title, lines, lo, hi - 1, st)
    ensures BufferOk(title, lines, lo, hi, SecStep(rx, title, lines, st, hi - 1))
  {
    var i := hi - 1;
    var st' := SecStep(rx, title, lines, st, i);
    match title(lines[i])
    case Some(g) =>
      assert st'.start == i && st'.buffer == [lines[i]] && st'.found && st'.name == g;
      assert lines[i..i + 1] == [lines[i]];
    case None =>
      assert st' == st.(buffer := st.buffer + [lines[i]]);
      assert lines[st.start..i + 1] == lines[st.start..i] + [lines[i]];
  }

  lemma {:induction false} RunBuffer(rx: Recognizers, title: Title, lines: seq<string>, lo: int, hi: int)
    requires 0 <= lo <= hi <= |lines|
    ensures BufferOk(title, lines, lo, hi, SecRun(rx, title, lines, lo, hi))
    decreases hi - lo
  {
    if hi > lo {
      RunBuffer(rx, title, lines, lo, hi - 1);
      BufferStep(rx, title, lines, lo, hi, SecRun(rx, title, lines, lo, hi - 1));
    }
  }

  /** A stored section addresses its own lines: its content is exactly lines `startLine .. endLine`, the first a section line. */
  predicate Addressed(title: Title, lines: seq<string>, lo: int, bound: int, s: LatexSection)
    requires bound <= |lines|
  {
    1 <= s.startLine && lo < s.startLine <= s.endLine <= bound
    && s.latexContent == Join(lines[s.startLine - 1..s.endLine], "\n")
    && s.name != "" && SectionAt(title, lines, s.startLine - 1, s.name)
  }

  predicate StoredOk(title: Title, lines: seq<string>, lo: int, bound: int, secs: seq<LatexSection>)
    requires bound <= |lines|
  {
    (forall k :: 0 <= k < |secs| ==> Addressed(title, lines, lo, bound, secs[k]))
    && (forall k :: 0 <= k < |secs| - 1 ==> secs[k].endLine < secs[k + 1].startLine)
  }

  lemma StoredWeaken(title: Title, lines: seq<string>, lo: int, b1: int, b2: int, secs: seq<LatexSection>)
    requires b1 <= b2 <= |lines|
    requires StoredOk(title, lines, lo, b1, secs)
    ensures StoredOk(title, lines, lo, b2, secs)
  {
  }

  lemma StoredSnoc(title: Title, lines: seq<string>, lo: int, bound: int, secs: seq<LatexSection>, s: LatexSection)
    requires bound <= |lines|
    requires StoredOk(title, lines, lo, bound, secs)
    requires Addressed(title, lines, lo, bound, s)
    requires |secs| > 0 ==> secs[|secs| - 1].endLine < s.startLine
    ensures StoredOk(title, lines, lo, bound, secs + [s])
  {
    var r := secs + [s];
    forall k | 0 <= k < |r| ensures Addressed(title, lines, lo, bound, r[k]) {
      if k < |secs| {
        assert r[k] == secs[k];
      }
    }
    forall k | 0 <= k < |r| - 1 ensures r[k].endLine < r[k + 1].startLine {
      assert r[k] == secs[k];
      if k + 1 < |secs| {
        assert r[k + 1] == secs[k + 1];
      }
    }
  }

  /** Stored sections address lines below the current start, in strictly increasing order. */
  predicate StoredInv(title: Title, lines: seq<string>, lo: int, st: SecScan) {
    st.start <= |lines|
    && StoredOk(title, lines, lo, st.start, st.sections)
    && forall k :: 0 <= k < |st.sections| ==> st.sections[k].endLine <= st.start
  }

  lemma StoredStep(rx: Recognizers, title: Title, lines: seq<string>, lo: int, hi: int, st: SecScan)
    requires 0 <= lo < hi <= |lines|
    requires BufferOk(title, lines, lo, hi - 1, st) && StoredInv(title, lines, lo, st)
    ensures StoredInv(title, lines, lo, SecStep(rx, title, lines, st, hi - 1))
  {
    var i := hi - 1;
    if title(lines[i]).Some? {
      StoredWeaken(title, lines, lo, st.start, i, st.sections);
      if st.name != "" {
        var s := MakeSection(rx, st.name, st.buffer, st.start, i);
        assert Addressed(title, lines, lo, i, s);
        StoredSnoc(title, lines, lo, i, st.sections, s);
        var r := st.sections + [s];
        forall k | 0 <= k < |r| ensures r[k].endLine <= i {
          if k < |st.sections| {
            assert r[k] == st.sections[k];
          }
        }
      }
    }
  }

  lemma {:induction false} RunStored(rx: Recognizers, title: Title, lines: seq<string>, lo: int, hi: int)
    requires 0 <= lo <= hi <= |lines|
    ensures StoredInv(title, lines, lo, SecRun(rx, title, lines, lo, hi))
    decreases hi - lo
  {
    if hi > lo {
      RunStored(rx, title, lines, lo, hi - 1);
      RunBuffer(rx, title, lines, lo, hi - 1);
      StoredStep(rx, title, lines, lo, hi, SecRun(rx, title, lines, lo, hi - 1));
    }
  }

  /** Consecutive sections are adjacent: each ends on the line before the next one starts. */
  predicate Adjacent(secs: seq<LatexSection>) {
    forall k :: 0 <= k < |secs| - 1 ==> secs[k].endLine + 1 == secs[k + 1].startLine
  }

  /** The chain of stored sections starts at the first section line and reaches the current start. */
  predicate AdjInv(title: Title, lines: seq<string>, lo: int, hi: int, st: SecScan)
    requires 0 <= lo <= hi <= |lines|
  {
    (st.found ==> st.name != "" && FirstSectionIn(title, lines, lo, hi).Some?)
    && Adjacent(st.sections)
    && (|st.sections| > 0 ==> st.sections[|st.sections| - 1].endLine == st.start)
    && (|st.sections| > 0 ==> FirstSectionIn(title, lines, lo, hi).Some? && st.sections[0].startLine == FirstSectionIn(title, lines, lo, hi).value + 1)
    && (st.found && |st.sections| == 0 ==> FirstSectionIn(title, lines, lo, hi).Some? && st.start == FirstSectionIn(title, lines, lo, hi).value)
  }

  lemma AdjStep(rx: Recognizers, title: Title, lines: seq<string>, lo: int, hi: int, st: SecScan)
    requires 0 <= lo < hi <= |lines|
    requires TitledIn(title, lines, lo, hi)
    requires BufferOk(title, lines, lo, hi - 1, st) && AdjInv(title, lines, lo, hi - 1, st)
    ensures AdjInv(title, lines, lo, hi, SecStep(rx, title, lines, st, hi - 1))
  {
    var i := hi - 1;
    var st' := SecStep(rx, title, lines, st, i);
    match title(lines[i])
    case Some(g) =>
      assert g != "";
      if st.name != "" {
        var s := MakeSection(rx, st.name, st.buffer, st.start, i);
        assert st'.sections == st.sections + [s];
        forall k | 0 <= k < |st'.sections| - 1 ensures st'.sections[k].endLine + 1 == st'.sections[k + 1].startLine {
          assert st'.sections[k] == st.sections[k];
          if k + 1 < |st.sections| {
            assert st'.sections[k + 1] == st.sections[k + 1];
          }
        }
        assert st'.sections[0] == if |st.sections| > 0 then st.sections[0] else s;
      }
    case None =>
      assert st' == st.(buffer := st.buffer + [lines[i]]);
  }

  lemma TitledPrefix(title: Title, lines: seq<string>, lo: int, h1: int, h2: int)
    requires 0 <= lo <= h1 <= h2 <= |lines|
    requires TitledIn(title, lines, lo, h2)
    ensures TitledIn(title, lines, lo, h1)
  {
  }

  lemma {:induction false} RunAdjacent(rx: Recognizers, title: Title, lines: seq<string>, lo: int, hi: int)
    requires 0 <= lo <= hi <= |lines|
    requires TitledIn(title, lines, lo, hi)
    ensures AdjInv(title, lines, lo, hi, SecRun(rx, title, lines, lo, hi))
    decreases hi - lo
  {
    if hi > lo {
      TitledPrefix(title, lines, lo, hi - 1, hi);
      RunAdjacent(rx, title, lines, lo, hi - 1);
      RunBuffer(rx, title, lines, lo, hi - 1);
      AdjStep(rx, title, lines, lo, hi, SecRun(rx, title, lines, lo, hi - 1));
    }
  }

  /** `header_lines` are the lines from the loop start up to the first section line, none when there is none. */
  predicate HeaderInv(title: Title, lines: seq<string>, lo: int, hi: int, st: SecScan)
    requires 0 <= lo <= hi <= |lines|
  {
    (FirstSectionIn(title, lines, lo, hi).None? ==> st.header == [] && !st.found)
    && (FirstSectionIn(title, lines, lo, hi).Some? ==> st.header == lines[lo..FirstSectionIn(title, lines, lo, hi).value] && st.found)
  }

  lemma HeaderStep(rx: Recognizers, title: Title, lines: seq<string>, lo: int, hi: int, st: SecScan)
    requires 0 <= lo < hi <= |lines|
    requires BufferOk(title, lines, lo, hi - 1, st) && HeaderInv(title, lines, lo, hi - 1, st)
    ensures HeaderInv(title, lines, lo, hi, SecStep(rx, title, lines, st, hi - 1))
  {
  }

  lemma {:induction false} RunHeader(rx: Recognizers, title: Title, lines: seq<string>, lo: int, hi: int)
    requires 0 <= lo <= hi <= |lines|
    ensures HeaderInv(title, lines, lo, hi, SecRun(rx, title, lines, lo, hi))
    decreases hi - lo
  {
    if hi > lo {
      RunHeader(rx, title, lines, lo, hi - 1);
      RunBuffer(rx, title, lines, lo, hi - 1);
      HeaderStep(rx, title, lines, lo, hi, SecRun(rx, title, lines, lo, hi - 1));
    }
  }

  // ---------------------------------------------------------------- properties of the section map
  //
  // Stated for any section recogniser; `Sections` is the instance with `SectionTitle`.

  /**
   * Every section of the map names a section line of the original lines
   * and its text is exactly its 1-indexed inclusive range `startLine .. endLine`,
   * which lies inside the body and ends by `doc_end`; sections come in
   * source order without overlap.
   */
  lemma SectionsAddressLines(rx: Recognizers, title: Title, lines: seq<string>)
    ensures forall k :: 0 <= k < |SectionsWith(rx, title, lines)| ==> Addressed(title, lines, DocStart(lines), |lines|, SectionsWith(rx, title, lines)[k])
    ensures forall k :: 0 <= k < |SectionsWith(rx, title, lines)| ==> SectionsWith(rx, title, lines)[k].endLine <= DocEnd(lines)
    ensures forall k :: 0 <= k < |SectionsWith(rx, title, lines)| - 1 ==> SectionsWith(rx, title, lines)[k].endLine < SectionsWith(rx, title, lines)[k + 1].startLine
  {
    var lo := DocStart(lines);
    var hi := LoopEnd(lines);
    var d := DocEnd(lines);
    var st := SecRun(rx, title, lines, lo, hi);
    RunBuffer(rx, title, lines, lo, hi);
    RunStored(rx, title, lines, lo, hi);
    StoredWeaken(title, lines, lo, st.start, |lines|, st.sections);
    var secs := SectionsWith(rx, title, lines);
    if st.name != "" {
      assert st.found && hi == d;
      var s := MakeSection(rx, st.name, st.buffer, st.start, d);
      assert Addressed(title, lines, lo, |lines|, s);
      StoredSnoc(title, lines, lo, |lines|, st.sections, s);
      assert secs == st.sections + [s];
      forall k | 0 <= k < |secs| ensures secs[k].endLine <= d {
        if k < |st.sections| {
          assert secs[k] == st.sections[k];
        }
      }
    } else {
      assert secs == st.sections;
    }
  }

  /**
   * When no section title of the body is blank, the sections tile the body
   * from the first section line to `doc_end`: each ends on the line before
   * the next one starts, the last one ends at `doc_end`, and there is a
   * section exactly when the body has a section line.
   */
  lemma SectionsContiguous(rx: Recognizers, title: Title, lines: seq<string>)
    requires TitledIn(title, lines, DocStart(lines), LoopEnd(lines))
    ensures Adjacent(SectionsWith(rx, title, lines))
    ensures |SectionsWith(rx, title, lines)| > 0 <==> FirstSectionIn(title, lines, DocStart(lines), LoopEnd(lines)).Some?
    ensures |SectionsWith(rx, title, lines)| > 0 ==>
      (SectionsWith(rx, title, lines)[0].startLine == FirstSectionIn(title, lines, DocStart(lines), LoopEnd(lines)).value + 1)
    ensures |SectionsWith(rx, title, lines)| > 0 ==>
      (SectionsWith(rx, title, lines)[|SectionsWith(rx, title, lines)| - 1].endLine == DocEnd(lines))
  {
    var lo := DocStart(lines);
    var hi := LoopEnd(lines);
    var d := DocEnd(lines);
    var st := SecRun(rx, title, lines, lo, hi);
    RunBuffer(rx, title, lines, lo, hi);
    RunAdjacent(rx, title, lines, lo, hi);
    RunHeader(rx, title, lines, lo, hi);
    var secs := SectionsWith(rx, title, lines);
    if st.name != "" {
      var s := MakeSection(rx, st.name, st.buffer, st.start, d);
      assert secs == st.sections + [s];
      forall k | 0 <= k < |secs| - 1 ensures secs[k].endLine + 1 == secs[k + 1].startLine {
        assert secs[k] == st.sections[k];
        if k + 1 < |st.sections| {
          assert secs[k + 1] == st.sections[k + 1];
        }
      }
      assert secs[0] == if |st.sections| > 0 then st.sections[0] else s;
    } else {
      assert secs == st.sections;
    }
  }

  /** The header is the body's lines before its first section line, and empty when there is no such line. */
  lemma HeaderLines(rx: Recognizers, title: Title, lines: seq<string>)
    ensures FirstSectionIn(title, lines, DocStart(lines), LoopEnd(lines)).None? ==> ScanWith(rx, title, lines).header == []
    ensures FirstSectionIn(title, lines, DocStart(lines), LoopEnd(lines)).Some? ==>
      (ScanWith(rx, title, lines).header == lines[DocStart(lines)..FirstSectionIn(title, lines, DocStart(lines), LoopEnd(lines)).value])
  {
    RunHeader(rx, title, lines, DocStart(lines), LoopEnd(lines));
  }

  /** A body with no section line has no sections and no header lines. */
  lemma NoSectionLineNoSections(rx: Recognizers, title: Title, lines: seq<string>)
    requires NoSectionIn(title, lines, DocStart(lines), LoopEnd(lines))
    ensures SectionsWith(rx, title, lines) == [] && ScanWith(rx, title, lines).header == []
  {
    RunBuffer(rx, title, lines, DocStart(lines), LoopEnd(lines));
  }

  /** A body with a titled section, a blank-titled one and another titled one. */
  const BlankTitleExample: seq<string> := ["\\begin{document}", "\\section{A}", "\\section{ }", "\\section{B}", "\\end{document}"]

  lemma BlankTitleExampleBounds(lines: seq<string>)
    requires lines == BlankTitleExample
    ensures DocStart(lines) == 1 && DocEnd(lines) == 4 && LoopEnd(lines) == 4
  {
    assert Contains(lines[0], "\\begin{document}") by { assert OccursAt(lines[0], "\\begin{document}", 0); }
    assert Contains(lines[4], "\\end{document}") by { assert OccursAt(lines[4], "\\end{document}", 0); }
    assert LastEndDocument(lines) == Some(4);
  }

  lemma TitleOfExample(t: string, line: string)
    requires |t| > 0 && !HasChar(t, '}') && line == "\\section{" + t + "}"
    ensures SectionTitle(line) == Some(Strip(t))
  {
    SectionNameOf(t, "");
    assert line == "\\section{" + t + "}" + "";
  }

  lemma ExampleTitle(line: string, t: string)
    requires |t| == 1 && IsUpperChar(t[0]) && line == "\\section{" + t + "}"
    ensures SectionTitle(line) == Some(t)
  {
    assert !HasChar(t, '}');
    TitleOfExample(t, line);
    assert IsStripped(t);
  }

  lemma BlankExampleTitle(line: string)
    requires line == "\\section{ }"
    ensures SectionTitle(line) == Some("")
  {
    assert line == "\\section{" + " " + "}";
    TitleOfExample(" ", line);
    assert LeadSpaces(" ") == 1;
  }

  /** The scan over the example's body, for any recogniser that titles its lines "A", "" and "B". */
  lemma ExampleRun(rx: Recognizers, title: Title, lines: seq<string>)
    requires |lines| >= 4
    requires title(lines[1]) == Some("A") && title(lines[2]) == Some("") && title(lines[3]) == Some("B")
    ensures SecRun(rx, title, lines, 1, 4) == SecScan([MakeSection(rx, "A", [lines[1]], 1, 2)], "B", 3, [lines[3]], [], true)
  {
    var s1 := SecRun(rx, title, lines, 1, 2);
    assert s1 == SecStep(rx, title, lines, SecStart(1), 1);
    var s2 := SecRun(rx, title, lines, 1, 3);
    assert s2 == SecStep(rx, title, lines, s1, 2);
    assert SecRun(rx, title, lines, 1, 4) == SecStep(rx, title, lines, s2, 3);
  }

  /**
   * A `\section` whose title is blank once stripped is dropped together
   * with its lines: in this example the map holds two sections, the first
   * ending on line 2 and the second starting on line 4, so line 3 belongs
   * to neither.
   */
  lemma BlankTitleDropsLines(rx: Recognizers, lines: seq<string>)
    requires lines == BlankTitleExample
    ensures |Sections(rx, lines)| == 2
    ensures Sections(rx, lines)[0].endLine == 2 && Sections(rx, lines)[1].startLine == 4
  {
    BlankTitleExampleBounds(lines);
    ExampleTitles(lines);
    ExampleSections(rx, SectionTitle, lines);
  }

  lemma ExampleTitles(lines: seq<string>)
    requires lines == BlankTitleExample
    ensures SectionTitle(lines[1]) == Some("A") && SectionTitle(lines[2]) == Some("") && SectionTitle(lines[3]) == Some("B")
  {
    TitleA();
    TitleBlank();
    TitleB();
  }

  lemma TitleA()
    ensures SectionTitle("\\section{A}") == Some("A")
  {
    ExampleTitle("\\section{A}", "A");
  }

  lemma TitleB()
    ensures SectionTitle("\\section{B}") == Some("B")
  {
    ExampleTitle("\\section{B}", "B");
  }

  lemma TitleBlank()
    ensures SectionTitle("\\section{ }") == Some("")
  {
    BlankExampleTitle("\\section{ }");
  }

  /** The example's sections, for any recogniser that titles its lines "A", "" and "B". */
  lemma ExampleSections(rx: Recognizers, title: Title, lines: seq<string>)
    requires |lines| >= 4 && DocStart(lines) == 1 && DocEnd(lines) == 4 && LoopEnd(lines) == 4
    requires title(lines[1]) == Some("A") && title(lines[2]) == Some("") && title(lines[3]) == Some("B")
    ensures |SectionsWith(rx, title, lines)| == 2
    ensures SectionsWith(rx, title, lines)[0].endLine == 2 && SectionsWith(rx, title, lines)[1].startLine == 4
  {
    ExampleRun(rx, title, lines);
    var st := SecRun(rx, title, lines, 1, 4);
    assert SectionsWith(rx, title, lines) == SecFinish(rx, st, 4);
  }
}
