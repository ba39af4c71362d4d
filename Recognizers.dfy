/**
 * The pattern recognisers and external helpers the scorer calls but whose
 * internals are regular expressions, a lexicon, string-similarity or
 * embedding libraries, or modules outside this model. Each is a function
 * value supplied by the caller; the model proves what the surrounding control
 * flow does with whatever they return.
 */
module Recognizers {
  import opened Wrappers

  /** A similarity in [0, 1] (`fuzz.ratio(...) / 100.0`). */
  type Unit = r: real | 0.0 <= r <= 1.0

  datatype Recognizers = Recognizers(
    /** `re.findall` of the e-mail pattern, in text order. */
    findEmails: string -> seq<string>,
    /** `re.findall` of each phone pattern, in pattern order. */
    phonePatterns: seq<string -> seq<string>>,
    /** `re.findall(r"https?://[^\s,)>\]]+", text)`. */
    findUrls: string -> seq<string>,
    /** The location patterns; each yields group 1 (unstripped) of its first match. */
    locationPatterns: seq<string -> Option<string>>,
    /** `latex_to_plain`: the macro stripper. */
    latexToPlain: string -> string,
    /** Group 1 of the experience date-range pattern (`Jan 2020 - Present`). */
    experienceDates: string -> Option<string>,
    /** Whether a line matches one of the degree patterns. */
    isDegree: string -> bool,
    /** Group 1 of the education year-range pattern (`2016 - 2020`). */
    educationDates: string -> Option<string>,
    /** Group 1 of the GPA pattern. */
    gpa: string -> Option<string>,
    /** `re.findall` of the technology lexicon, case-insensitive, matched text as written. */
    techLexicon: string -> seq<string>,
    /** `get_implied_skills`: skills entailed by a skill set. */
    impliedSkills: set<string> -> set<string>,
    /** `get_all_variations`: the lexical variations of a lower-case keyword, in order. */
    variations: string -> seq<string>,
    /** `fuzz.ratio(a, b) / 100`. */
    ratio: (string, string) -> Unit,
    /** `fuzz.token_set_ratio(a, b) / 100`. */
    tokenSetRatio: (string, string) -> Unit,
    /** `re.findall` of the one-to-three-word windows of a lower-cased résumé text. */
    textWindows: string -> seq<string>,
    /** `re.findall` of the capitalised-phrase pattern of the keyword fallback. */
    capitalizedPhrases: string -> seq<string>,
    /** Group 1 (stripped) of the company-name pattern of a job description. */
    companyName: string -> Option<string>,
    /** The four groups of the first `\resumeSubheading{..}{..}{..}{..}` of a line. */
    subheading: string -> Option<(string, string, string, string)>,
    /** The two groups of the first `\resumeProjectHeading{..}{..}` of a line. */
    projectHeading: string -> Option<(string, string)>,
    /** Group 1 of the first `\resumeItem{(.*?)}` of a line. */
    resumeItem: string -> Option<string>,
    /** `extract_text_from_pdf`: the text layer of a PDF file. */
    pdfToText: seq<bv8> -> string,
    /** `extract_text_from_docx`: the paragraphs of a DOCX file. */
    docxToText: seq<bv8> -> string
  )
}
