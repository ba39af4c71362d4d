/**
 * The résumé section segmenter `detect_sections` of
 * backend/app/services/resume_parser.py: a line scanner that keeps the
 * sections found so far, the current header and the lines collected under it.
 */
module ResumeSections {
  import opened Wrappers
  import opened Strings
  import opened Dicts
  import opened Seqs
  import opened Vocabulary

  /** `re.sub(r"[^a-z\s]", "", s)`: keep lower-case ASCII letters and whitespace. */
  function LettersAndSpaces(s: string): (r: string)
    ensures |r| <= |s|
    ensures forall i :: 0 <= i < |r| ==> IsLowerChar(r[i]) || IsSpace(r[i])
  {
    if |s| == 0 then []
    else LettersAndSpaces(s[..|s| - 1]) + (if IsLowerChar(s[|s| - 1]) || IsSpace(s[|s| - 1]) then [s[|s| - 1]] else [])
  }

  /** The header a line announces, if any: the first entry of SectionHeaders, in order, that matches. */
  function HeaderOf(line: string): (r: Option<string>)
    ensures r.Some? ==> r.value in SectionHeaders
  {
    var stripped := Strip(line);
    var lower := Lower(stripped);
    var clean := Strip(LettersAndSpaces(lower));
    match FirstWhere(SectionHeaders, h => clean == h || StartsWith(lower, h))
    case Some(h) => Some(h)
    case None =>
      if |stripped| > 0 && IsUpperText(stripped) && |Words(stripped)| <= 4 && |stripped| > 2 then
        FirstWhere(SectionHeaders, h => clean == h || Contains(clean, h))
      else None
  }

  /** A header recogniser: the section a line announces, if any. */
  type HeaderFn = string -> Option<string>

  /** What the scan relies on of its recogniser: it only ever names a (non-empty) section header. */
  ghost predicate NamesHeaders(hd: HeaderFn) {
    forall line: string :: hd(line).Some? ==> hd(line).value in SectionHeaders && hd(line).value != ""
  }

  /** `HeaderOf` only names section headers. */
  lemma HeaderOfNamesHeaders()
    ensures NamesHeaders(HeaderOf)
  {
    HeadersNonEmpty();
  }

  lemma HeadersNonEmpty()
    ensures forall h :: h in SectionHeaders ==> |h| > 0
  {
  }

  /** Scanner state: `sections`, `current_section` ("" when none) and `current_content`. */
  datatype Scan = Scan(sections: Dict<string>, current: string, content: seq<string>)

  const Start := Scan([], "", [])

  /** Store the collected lines under the current header, when there is one and something was collected. */
  function Flush(st: Scan): (d: Dict<string>)
  {
    if st.current != "" && |st.content| > 0 then Put(st.sections, st.current, Strip(Join(st.content, "\n")))
    else st.sections
  }

  /** One iteration of the line loop, with `hd` recognising header lines. */
  function Step(hd: HeaderFn, st: Scan, line: string): (st': Scan)
  {
    match hd(line)
    case Some(h) => Scan(Flush(st), h, [])
    case None =>
      var stripped := Strip(line);
      if st.current != "" || stripped != "" then st.(content := st.content + [stripped]) else st
  }

  /** The state after scanning `lines` from `st`. */
  function Run(hd: HeaderFn, st: Scan, lines: seq<string>): (st': Scan)
  {
    if |lines| == 0 then st else Step(hd, Run(hd, st, lines[..|lines| - 1]), lines[|lines| - 1])
  }

  /** `detect_sections(text)` as a function of the text. */
  function Sections(text: string): (d: Dict<string>)
  {
    Flush(Run(HeaderOf, Start, Split(text, '\n')))
  }

  /** `detect_sections`. */
  method DetectSections(text: string) returns (sections: Dict<string>)
    ensures sections == Sections(text)
  {
    sections := ScanLines(HeaderOf, Split(text, '\n'));
  }

  /** The line loop of `detect_sections`, with the final flush. */
  method ScanLines(hd: HeaderFn, lines: seq<string>) returns (sections: Dict<string>)
    ensures sections == Flush(Run(hd, Start, lines))
  {
    sections := [];
    var current := "";
    var content: seq<string> := [];
    var i := 0;
    while i < |lines|
      invariant 0 <= i <= |lines|
      invariant Scan(sections, current, content) == Run(hd, Start, lines[..i])
    {
      assert lines[..i + 1][..i] == lines[..i];
      sections, current, content := ScanLine(hd, sections, current, content, lines[i]);
      i := i + 1;
    }
    assert lines[..i] == lines;
    if current != "" && |content| > 0 {
      sections := Put(sections, current, Strip(Join(content, "\n")));
    }
  }

  /** One iteration of the line loop of `detect_sections`. */
  method ScanLine(hd: HeaderFn, sections: Dict<string>, current: string, content: seq<string>, line: string)
    returns (sections': Dict<string>, current': string, content': seq<string>)
    ensures Scan(sections', current', content') == Step(hd, Scan(sections, current, content), line)
  {
    sections', current', content' := sections, current, content;
    var stripped := Strip(line);
    var header := hd(line);
    if header.Some? {
      if current != "" && |content| > 0 {
        sections' := Put(sections, current, Strip(Join(content, "\n")));
      }
      current' := header.value;
      content' := [];
    } else if current != "" {
      content' := content + [stripped];
    } else if stripped != "" {
      content' := content + [stripped];
    }
  }

  // ---------------------------------------------------------------- invariants of the scan

  /** Keys and the current header are section headers, keys are distinct and values are stripped. */
  predicate Good(st: Scan) {
    (st.current == "" || st.current in SectionHeaders)
    && DistinctKeys(st.sections)
    && (forall i :: 0 <= i < |st.sections| ==> st.sections[i].0 in SectionHeaders && IsStripped(st.sections[i].1))
  }

  lemma FlushGood(st: Scan)
    requires Good(st)
    ensures DistinctKeys(Flush(st))
    ensures forall i :: 0 <= i < |Flush(st)| ==> Flush(st)[i].0 in SectionHeaders && IsStripped(Flush(st)[i].1)
  {
    if st.current != "" && |st.content| > 0 {
      PutKeys(st.sections, st.current, Strip(Join(st.content, "\n")));
    }
  }

  lemma {:induction false} RunGood(hd: HeaderFn, st: Scan, lines: seq<string>)
    requires NamesHeaders(hd)
    requires Good(st)
    ensures Good(Run(hd, st, lines))
  {
    if |lines| > 0 {
      var prev := Run(hd, st, lines[..|lines| - 1]);
      RunGood(hd, st, lines[..|lines| - 1]);
      FlushGood(prev);
    }
  }

  /**
   * Every key is a section header (the current header is only ever assigned
   * one), no key occurs twice, and every stored text is stripped.
   */
  lemma SectionsWellFormed(text: string)
    ensures DistinctKeys(Sections(text))
    ensures forall i :: 0 <= i < |Sections(text)| ==> Sections(text)[i].0 in SectionHeaders
    ensures forall i :: 0 <= i < |Sections(text)| ==> IsStripped(Sections(text)[i].1)
  {
    HeaderOfNamesHeaders();
    RunGood(HeaderOf, Start, Split(text, '\n'));
    FlushGood(Run(HeaderOf, Start, Split(text, '\n')));
  }

  lemma {:induction false} RunAppend(hd: HeaderFn, st: Scan, a: seq<string>, b: seq<string>)
    ensures Run(hd, st, a + b) == Run(hd, Run(hd, st, a), b)
    decreases |b|
  {
    if |b| == 0 {
      assert a + b == a;
    } else {
      assert (a + b)[..|a + b| - 1] == a + b[..|b| - 1];
      RunAppend(hd, st, a, b[..|b| - 1]);
    }
  }

  /** Before the first header nothing is stored and the current header stays empty. */
  lemma {:induction false} RunPreamble(hd: HeaderFn, pre: seq<string>)
    requires forall k :: 0 <= k < |pre| ==> hd(pre[k]).None?
    ensures Run(hd, Start, pre).sections == [] && Run(hd, Start, pre).current == ""
  {
    if |pre| > 0 {
      RunPreamble(hd, pre[..|pre| - 1]);
    }
  }

  /**
   * Lines before the first header line never reach the result: the text
   * scans as if it started at that header.
   */
  lemma PreambleDropped(hd: HeaderFn, pre: seq<string>, header: string, rest: seq<string>)
    requires forall k :: 0 <= k < |pre| ==> hd(pre[k]).None?
    requires hd(header).Some?
    ensures Run(hd, Start, pre + [header] + rest) == Run(hd, Start, [header] + rest)
  {
    RunPreamble(hd, pre);
    RunAppend(hd, Start, pre, [header]);
    RunAppend(hd, Start, pre + [header], rest);
    RunAppend(hd, Start, [header], rest);
    assert [header][..0] == [];
    assert Run(hd, Start, pre + [header]) == Run(hd, Start, [header]);
  }

  /** A text none of whose lines is a header has no sections. */
  lemma NoHeaderNoSections(text: string)
    requires forall k :: 0 <= k < |Split(text, '\n')| ==> HeaderOf(Split(text, '\n')[k]).None?
    ensures Sections(text) == []
  {
    RunPreamble(HeaderOf, Split(text, '\n'));
  }

  /** A header line is never content: it starts an empty collection under its own name. */
  lemma HeaderLineStartsSection(hd: HeaderFn, st: Scan, line: string)
    requires hd(line).Some?
    ensures Step(hd, st, line).current == hd(line).value
    ensures Step(hd, st, line).content == []
    ensures Step(hd, st, line).sections == Flush(st)
  {
  }

  /**
   * A header seen again replaces the text stored under it (assignment, not
   * append), and every other key keeps its text.
   */
  lemma ReseenHeaderOverwrites(hd: HeaderFn, st: Scan, line: string)
    requires Good(st)
    requires hd(line).Some?
    requires st.current != "" && |st.content| > 0
    ensures Get(Step(hd, st, line).sections, st.current) == Some(Strip(Join(st.content, "\n")))
    ensures forall k :: k != st.current ==> Get(Step(hd, st, line).sections, k) == Get(st.sections, k)
  {
    PutGet(st.sections, st.current, Strip(Join(st.content, "\n")));
  }

  /** A header immediately followed by another header stores nothing for the first. */
  lemma HeaderThenHeader(hd: HeaderFn, st: Scan, h1: string, h2: string)
    requires hd(h1).Some? && hd(h2).Some?
    ensures Step(hd, Step(hd, st, h1), h2).sections == Flush(st)
    ensures Step(hd, Step(hd, st, h1), h2).current == hd(h2).value
  {
    HeaderLineStartsSection(hd, st, h1);
    HeaderLineStartsSection(hd, Step(hd, st, h1), h2);
  }

  /**
   * A header followed by a blank line and then another header stores an
   * empty text under the first header: blank lines are collected once a
   * header is current, so the stored text can be "".
   */
  lemma BlankBodyStoredEmpty(hd: HeaderFn, st: Scan, h1: string, blank: string, h2: string)
    requires NamesHeaders(hd)
    requires hd(h1).Some? && hd(h2).Some?
    requires hd(blank).None? && Strip(blank) == ""
    ensures Step(hd, Step(hd, Step(hd, st, h1), blank), h2).sections == Put(Flush(st), hd(h1).value, "")
  {
    var s1 := Step(hd, st, h1);
    HeaderLineStartsSection(hd, st, h1);
    ContentCollected(hd, s1, blank);
    var s2 := Step(hd, s1, blank);
    assert s2.current == hd(h1).value && s2.content == [""];
    HeaderLineStartsSection(hd, s2, h2);
    BlankFlush(s2);
  }

  /** A current section holding one blank line is flushed as "". */
  lemma BlankFlush(st: Scan)
    requires st.current != "" && st.content == [""]
    ensures Flush(st) == Put(st.sections, st.current, "")
  {
    assert Join([""], "\n") == "";
  }

  /** Non-header lines are collected stripped, blank ones included, once a header is current. */
  lemma ContentCollected(hd: HeaderFn, st: Scan, line: string)
    requires hd(line).None?
    requires st.current != ""
    ensures Step(hd, st, line) == st.(content := st.content + [Strip(line)])
  {
  }
}
