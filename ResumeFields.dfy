/**
 * Contact details and the skills list of a plain-text résumé:
 * `extract_contact_info` and `extract_skills_from_text` of
 * backend/app/services/resume_parser.py.
 */
module ResumeFields {
  import opened Wrappers
  import opened Strings
  import opened Dicts
  import opened Seqs
  import opened Vocabulary
  import opened Recognizers
  import opened TextProcessing

  /** `xs[0] if xs else ""`. */
  function FirstOr(xs: seq<string>): (r: string)
    ensures |xs| > 0 ==> r == xs[0]
    ensures |xs| == 0 ==> r == ""
  {
    if |xs| > 0 then xs[0] else ""
  }

  /** `[s.strip() for s in parts if s.strip()]`. */
  function NonBlankStripped(parts: seq<string>): (r: seq<string>)
    ensures |r| <= |parts|
    ensures forall k :: 0 <= k < |r| ==> |r[k]| > 0 && IsStripped(r[k])
  {
    if |parts| == 0 then []
    else
      var s := Strip(parts[|parts| - 1]);
      NonBlankStripped(parts[..|parts| - 1]) + (if s != "" then [s] else [])
  }

  // ---------------------------------------------------------------- contact

  datatype Contact = Contact(name: string, email: string, phone: string, linkedin: string,
                             github: string, location: string, portfolio: string)

  /** A stripped line that can be the candidate's name. */
  predicate NameLike(line: string) {
    |line| > 0
    && !Contains(line, "@") && !Contains(line, "http") && !Contains(line, "+")
    && !Contains(line, "(") && !Contains(line, ")")
    && |Words(line)| <= 5 && |line| > 2
  }

  /** The lines the name is taken from: the first five lines, stripped. */
  function NameCandidates(text: string): (r: seq<string>)
    ensures |r| <= 5
  {
    var lines := Split(text, '\n');
    StripAll(lines[..if |lines| < 5 then |lines| else 5])
  }

  /** The name: the first of the first five stripped lines that is name-like, else "". */
  function NameOf(text: string): (name: string)
    ensures name == "" <==> forall k :: 0 <= k < |NameCandidates(text)| ==> !NameLike(NameCandidates(text)[k])
    ensures name != "" ==> NameLike(name)
    ensures name != "" ==>
      exists k :: 0 <= k < |NameCandidates(text)| && name == NameCandidates(text)[k] && forall j :: 0 <= j < k ==> !NameLike(NameCandidates(text)[j])
  {
    FirstWhere(NameCandidates(text), NameLike).GetOr("")
  }

  /** The location: group 1 of the first location pattern that matches, stripped, else "". */
  function LocationOf(patterns: seq<string -> Option<string>>, text: string): (loc: string)
    ensures (forall k :: 0 <= k < |patterns| ==> patterns[k](text).None?) ==> loc == ""
    ensures forall k :: (0 <= k < |patterns| && patterns[k](text).Some? && (forall j :: 0 <= j < k ==> patterns[j](text).None?)
      ==> loc == Strip(patterns[k](text).value))
  {
    if |patterns| == 0 then ""
    else match patterns[0](text)
      case Some(g) => Strip(g)
      case None =>
        var loc := LocationOf(patterns[1..], text);
        assert forall k :: 1 <= k < |patterns| ==> patterns[k] == patterns[1..][k - 1];
        loc
  }

  /** `extract_contact_info`. */
  method ExtractContactInfo(rx: Recognizers, text: string) returns (c: Contact)
    ensures c.name == NameOf(text)
    ensures c.email == FirstOr(rx.findEmails(text))
    ensures c.phone == FirstOr(AllMatches(rx.phonePatterns, text))
    ensures c.linkedin == FirstOr(LinkedInUrls(rx.findUrls(text)))
    ensures c.github == FirstOr(GitHubUrls(rx.findUrls(text)))
    ensures c.location == LocationOf(rx.locationPatterns, text)
    ensures c.portfolio == FirstOr(OtherUrls(rx.findUrls(text)))
  {
    var emails := rx.findEmails(text);
    var phones := ExtractPhones(rx, text);
    var urls := ExtractUrls(rx, text);
    c := Contact(NameOf(text), FirstOr(emails), FirstOr(phones), FirstOr(urls.linkedin),
                 FirstOr(urls.github), LocationOf(rx.locationPatterns, text), FirstOr(urls.other));
  }

  // ---------------------------------------------------------------- skills

  /** The skills text: the first skills alias present with a non-empty text, else the whole text. */
  function SkillsSource(text: string, sections: Dict<string>): (s: string)
    ensures FirstPresent(sections, SkillsAliases).Some? && FirstPresent(sections, SkillsAliases).value.1 != ""
      ==> s == FirstPresent(sections, SkillsAliases).value.1
    ensures FirstPresent(sections, SkillsAliases).Some? && FirstPresent(sections, SkillsAliases).value.1 == ""
      ==> s == text
    ensures FirstPresent(sections, SkillsAliases).None? ==> s == text
  {
    var found := match FirstPresent(sections, SkillsAliases)
      case Some(kv) => kv.1
      case None => "";
    if found == "" then text else found
  }

  const Separators: seq<char> := [',', ';', '•', '·', '|', '\n']

  /** The first separator, in list order, that occurs in the text. */
  function FirstSeparator(s: string): (r: Option<char>)
    ensures r.Some? ==> HasChar(s, r.value)
    ensures r.Some? ==>
      exists i :: 0 <= i < |Separators| && Separators[i] == r.value && forall j :: 0 <= j < i ==> !HasChar(s, Separators[j])
    ensures r.None? <==> forall i :: 0 <= i < |Separators| ==> !HasChar(s, Separators[i])
  {
    FirstWhere(Separators, c => HasChar(s, c))
  }

  predicate IsLeadMark(c: char) { c == '-' || c == '•' || c == '·' || IsSpace(c) }

  /** `re.sub(r"^[-•·\s]+", "", s)`. */
  function DropLeadMarks(s: string): (r: string)
    ensures |r| <= |s|
    ensures |r| > 0 ==> !IsLeadMark(r[0])
    ensures r == s[|s| - |r|..]
    ensures forall k :: 0 <= k < |s| - |r| ==> IsLeadMark(s[k])
  {
    s[RunLen(s, IsLeadMark)..]
  }

  /** The text ends in a colon, possibly followed by whitespace. */
  predicate EndsInColon(s: string) {
    |TrimEnd(s)| > 0 && TrimEnd(s)[|TrimEnd(s)| - 1] == ':'
  }

  /**
   * `re.sub(r"\s*[:]\s*$", "", s)`: a final colon, with the whitespace around it, is removed.
   * What is cut is one colon and whitespace; what is left does not end in whitespace.
   */
  function DropTrailingColon(s: string): (r: string)
    ensures |r| <= |s|
    ensures !EndsInColon(s) ==> r == s
    ensures EndsInColon(s) ==> r == s[..|r|] && |r| < |TrimEnd(s)|
    ensures EndsInColon(s) ==> forall i :: |r| <= i < |s| && i != |TrimEnd(s)| - 1 ==> IsSpace(s[i])
    ensures EndsInColon(s) && |r| > 0 ==> !IsSpace(r[|r| - 1])
  {
    var t := TrimEnd(s);
    if |t| > 0 && t[|t| - 1] == ':' then TrimEnd(t[..|t| - 1]) else s
  }

  /**
   * `re.match(r"^(.+?):\s*(.+)$", p).group(2)`, searching the colon from
   * `c` on. The first group cannot cross a newline; the second group is
   * what follows the colon and its whitespace, and must not contain a newline.
   * (This reading of `$` is exact for a text ending in a non-space
   * character, which every part examined here does.)
   */
  function CategoryFrom(p: string, c: nat): (r: Option<string>)
    requires c >= 1
    decreases |p| - c
  {
    if c >= |p| || p[c - 1] == '\n' then None
    else
      var rest := p[c + 1..];
      var w := LeadSpaces(rest);
      if p[c] == ':' && w < |rest| && !HasChar(rest[w..], '\n') then Some(rest[w..])
      else CategoryFrom(p, c + 1)
  }

  lemma {:induction false} CategoryFromShorter(p: string, c: nat)
    requires c >= 1
    ensures CategoryFrom(p, c).Some? ==> |CategoryFrom(p, c).value| < |p| && |CategoryFrom(p, c).value| > 0
    decreases |p| - c
  {
    if c < |p| && p[c - 1] != '\n' {
      CategoryFromShorter(p, c + 1);
    }
  }

  /** One part after its cleaning: stripped, leading marks and a trailing colon removed. */
  function CleanPart(raw: string): (p: string)
  {
    DropTrailingColon(DropLeadMarks(Strip(raw)))
  }

  /** The skills one part contributes. */
  function PartSkills(raw: string): (r: seq<string>)
  {
    var p := CleanPart(raw);
    if |p| > 0 && |p| < 50 && |p| > 1 then
      match CategoryFrom(p, 1)
      case Some(sub) => NonBlankStripped(Split(sub, ','))
      case None => [p]
    else []
  }

  /** The skills of all parts, in part order, before de-duplication. */
  function PartsSkills(parts: seq<string>): (r: seq<string>)
  {
    if |parts| == 0 then [] else PartsSkills(parts[..|parts| - 1]) + PartSkills(parts[|parts| - 1])
  }

  /** The skills list before de-duplication. */
  function RawSkills(text: string, sections: Dict<string>): (r: seq<string>)
  {
    var s := SkillsSource(text, sections);
    match FirstSeparator(s)
    case None => []
    case Some(sep) => PartsSkills(Split(s, sep))
  }

  lemma PartsSkillsStep(parts: seq<string>, i: nat)
    requires i < |parts|
    ensures PartsSkills(parts[..i + 1]) == PartsSkills(parts[..i]) + PartSkills(parts[i])
  {
    assert parts[..i + 1][..i] == parts[..i];
  }

  /** The part loop of `extract_skills_from_text`: each part's skills appended in part order. */
  method CollectSkills(parts: seq<string>) returns (acc: seq<string>)
    ensures acc == PartsSkills(parts)
  {
    acc := [];
    var i := 0;
    while i < |parts|
      invariant 0 <= i <= |parts|
      invariant acc == PartsSkills(parts[..i])
    {
      PartsSkillsStep(parts, i);
      acc := acc + PartSkills(parts[i]);
      i := i + 1;
    }
    assert parts[..i] == parts;
  }

  /** `extract_skills_from_text`. */
  method ExtractSkills(text: string, sections: Dict<string>) returns (skills: seq<string>)
    ensures skills == Dedupe(RawSkills(text, sections))
  {
    var s := SkillsSource(text, sections);
    var acc: seq<string> := [];
    var sep := FirstSeparator(s);
    if sep.Some? {
      acc := CollectSkills(Split(s, sep.value));
    }
    skills := Dedupe(acc);
  }

  lemma NonBlankStrippedShort(parts: seq<string>, bound: nat)
    requires forall k :: 0 <= k < |parts| ==> |parts[k]| < bound
    ensures forall k :: 0 <= k < |NonBlankStripped(parts)| ==> |NonBlankStripped(parts)[k]| < bound
  {
    if |parts| > 0 {
      NonBlankStrippedShort(parts[..|parts| - 1], bound);
      var s := Strip(parts[|parts| - 1]);
      assert |s| <= |parts[|parts| - 1]|;
    }
  }

  lemma SplitShort(s: string, c: char)
    ensures forall k :: 0 <= k < |Split(s, c)| ==> |Split(s, c)[k]| <= |s|
  {
    forall k | 0 <= k < |Split(s, c)| ensures |Split(s, c)[k]| <= |s| {
      var a := SplitPiece(s, c, k);
    }
  }

  /** Every skill a part contributes is non-empty and shorter than 50 characters. */
  lemma PartSkillsBounded(raw: string)
    ensures forall k :: 0 <= k < |PartSkills(raw)| ==> 0 < |PartSkills(raw)[k]| < 50
  {
    var p := CleanPart(raw);
    if |p| > 0 && |p| < 50 && |p| > 1 {
      CategoryFromShorter(p, 1);
      var sub := CategoryFrom(p, 1);
      if sub.Some? {
        SplitShort(sub.value, ',');
        NonBlankStrippedShort(Split(sub.value, ','), 50);
      }
    }
  }

  lemma {:induction false} PartsSkillsBounded(parts: seq<string>)
    ensures forall k :: 0 <= k < |PartsSkills(parts)| ==> 0 < |PartsSkills(parts)[k]| < 50
  {
    if |parts| > 0 {
      PartsSkillsBounded(parts[..|parts| - 1]);
      PartSkillsBounded(parts[|parts| - 1]);
    }
  }

  /**
   * The skills list has no duplicates, keeps the order of first occurrences,
   * holds exactly the skills the parts contribute, and each of them is
   * non-empty and shorter than 50 characters.
   */
  lemma SkillsProperties(text: string, sections: Dict<string>)
    ensures NoDup(Dedupe(RawSkills(text, sections)))
    ensures forall x :: x in Dedupe(RawSkills(text, sections)) <==> x in RawSkills(text, sections)
    ensures forall i, j :: 0 <= i < j < |Dedupe(RawSkills(text, sections))| ==>
      IndexOf(RawSkills(text, sections), Dedupe(RawSkills(text, sections))[i]) < IndexOf(RawSkills(text, sections), Dedupe(RawSkills(text, sections))[j])
    ensures forall x :: x in Dedupe(RawSkills(text, sections)) ==> 0 < |x| < 50
  {
    var raw := RawSkills(text, sections);
    DedupeKeepsFirstOrder(raw);
    var s := SkillsSource(text, sections);
    if FirstSeparator(s).Some? {
      PartsSkillsBounded(Split(s, FirstSeparator(s).value));
    }
  }

  /** A skills text containing none of the separators yields no skills at all. */
  lemma NoSeparatorNoSkills(text: string, sections: Dict<string>)
    requires forall i :: 0 <= i < |Separators| ==> !HasChar(SkillsSource(text, sections), Separators[i])
    ensures RawSkills(text, sections) == []
  {
  }
}
