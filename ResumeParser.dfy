/**
 * `is_latex` and `parse_resume` of backend/app/services/resume_parser.py:
 * format selection followed by the cleaning, segmentation and extraction
 * passes, composed in the order the source runs them.
 */
module ResumeParser {
  import opened Wrappers
  import opened Strings
  import opened Dicts
  import opened Seqs
  import opened Recognizers
  import opened TextProcessing
  import opened ResumeSections
  import opened ResumeFields
  import opened ResumeEntries

  /** `is_latex`: the text holds a `\documentclass` or a `\begin{document}`. */
  predicate IsLatex(text: string) {
    Contains(text, "\\documentclass") || Contains(text, "\\begin{document}")
  }

  /** A LaTeX text stays one whatever is put before or after it. */
  lemma IsLatexInLonger(pre: string, text: string, post: string)
    requires IsLatex(text)
    ensures IsLatex(pre + text + post)
  {
    if Contains(text, "\\documentclass") {
      ContainsInLonger(pre, text, post, "\\documentclass");
    } else {
      ContainsInLonger(pre, text, post, "\\begin{document}");
    }
  }

  /** A text with neither marker is not LaTeX. */
  lemma PlainTextNotLatex(text: string)
    requires !HasChar(text, '\\')
    ensures !IsLatex(text)
  {
    forall p: string, i | |p| > 0 && p[0] == '\\' && 0 <= i && i + |p| <= |text| ensures !OccursAt(text, p, i) {
      assert text[i..i + |p|][0] == text[i] && text[i] != '\\';
    }
  }

  datatype ParsedResume = ParsedResume(
    rawText: string,
    rawLatex: Option<string>,
    inputFormat: string,
    contact: Contact,
    sections: Dict<string>,
    skills: seq<string>,
    experience: seq<ExperienceEntry>,
    education: seq<EducationEntry>,
    projects: seq<ProjectEntry>,
    certifications: seq<string>,
    wordCount: nat,
    estimatedPages: int
  )

  /** The text the passes read and the format reported, before cleaning. */
  function SourceText(rx: Recognizers, text: string, inputFormat: string, fileBytes: Option<seq<bv8>>): (r: (string, Option<string>, string))
    ensures r.1.Some? ==> r.1.value == text && IsLatex(text) && r.2 == "latex"
    ensures r.1.None? ==> r.2 == inputFormat
  {
    if fileBytes.Some? && |fileBytes.value| > 0 && inputFormat == "pdf" then (rx.pdfToText(fileBytes.value), None, inputFormat)
    else if fileBytes.Some? && |fileBytes.value| > 0 && inputFormat == "docx" then (rx.docxToText(fileBytes.value), None, inputFormat)
    else if IsLatex(text) then (rx.latexToPlain(text), Some(text), "latex")
    else (text, None, inputFormat)
  }

  /** `parse_resume`. */
  method ParseResume(rx: Recognizers, text: string, inputFormat: string, fileBytes: Option<seq<bv8>>) returns (r: ParsedResume)
    ensures (r.rawText, r.rawLatex, r.inputFormat) == (CleanText(SourceText(rx, text, inputFormat, fileBytes).0), SourceText(rx, text, inputFormat, fileBytes).1, SourceText(rx, text, inputFormat, fileBytes).2)
    ensures r.sections == Sections(r.rawText)
    ensures r.contact.name == NameOf(r.rawText) && r.contact.email == FirstOr(rx.findEmails(r.rawText))
    ensures r.contact.phone == FirstOr(AllMatches(rx.phonePatterns, r.rawText))
    ensures r.contact.linkedin == FirstOr(LinkedInUrls(rx.findUrls(r.rawText))) && r.contact.github == FirstOr(GitHubUrls(rx.findUrls(r.rawText)))
    ensures r.contact.location == LocationOf(rx.locationPatterns, r.rawText) && r.contact.portfolio == FirstOr(OtherUrls(rx.findUrls(r.rawText)))
    ensures r.skills == Dedupe(RawSkills(r.rawText, r.sections))
    ensures r.experience == Experience(rx, r.sections)
    ensures r.education == Education(rx, r.sections)
    ensures r.projects == Projects(r.sections)
    ensures r.certifications == Certifications(r.sections)
    ensures r.wordCount == CountWords(r.rawText) && r.estimatedPages == EstimatePages(r.wordCount)
    ensures NoDoubleSpace(r.rawText) && LinesStripped(r.rawText) && !HasChar(r.rawText, '\t') && !HasChar(r.rawText, '\r')
  {
    var source := SourceText(rx, text, inputFormat, fileBytes);
    var cleaned := CleanText(source.0);
    CleanTextProperties(source.0);
    var sections := DetectSections(cleaned);
    var contact := ExtractContactInfo(rx, cleaned);
    var skills := ExtractSkills(cleaned, sections);
    var experience := ExtractExperience(rx, sections);
    var education := ExtractEducation(rx, sections);
    var projects := ExtractProjects(sections);
    var certs := Certifications(sections);
    var wc := CountWords(cleaned);
    r := ParsedResume(cleaned, source.1, source.2, contact, sections, skills, experience, education,
                      projects, certs, wc, EstimatePages(wc));
  }
}
