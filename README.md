# ATS résumé scorer backend, modelled in Dafny

This project models the deterministic core of the backend of an ATS
(applicant tracking system) résumé scorer. The backend reads a résumé, given
as plain text or as LaTeX source, and a job description. It splits both into
sections and scores the match: keyword matches weighted by category, a
structural rubric, an overall weighted score and recruiter status. It
produces rule-based suggestions. It can also rewrite the résumé with a
language-model call, then check that no skill was invented. For a LaTeX
résumé it edits only the lines it mapped, so every other line keeps its
number.

The model follows the structure of the code, one Dafny module per concern:

- `Wrappers`, `Strings`, `Seqs`, `Dicts`, `Numeric` and `Sorting` are the
  Python building blocks the services use:
  - `str.lower`, `strip`, `split`, `join`, `replace` and substring tests;
  - `dict.fromkeys` deduplication;
  - dictionaries as ordered association lists;
  - `round` (round half to even) and `str(int)`;
  - the stable descending `list.sort`.
- `Recognizers` holds the regular expressions, the technology lexicon, the
  fuzzy ratios and the unseen helper modules. Each is a function value the
  caller supplies.
- `Vocabulary` holds the constant vocabularies of
  `backend/app/utils/constants.py`, in their order.
- `TextProcessing` covers `backend/app/utils/text_processing.py`.
- `ResumeSections`, `ResumeFields`, `ResumeEntries` and `ResumeParser`
  cover `backend/app/services/resume_parser.py`:
  - the sections scanner;
  - the contact, skills and summary extractors;
  - the experience, education, project and certification loops;
  - the top-level parse.
- `JdParser` covers the job-description segmenter, the experience-level
  detector, the keyword classifier and the fallback keyword extractor.
- `KeywordMatcher`, `StructureScorer`, `ScoreAggregator` and
  `SuggestionEngine` form the scoring pipeline.
- `LatexSections`, `LatexEntries` and `LatexParser` cover the LaTeX
  structural map:
  - sections with 1-indexed inclusive line ranges;
  - entries and bullets with their original line numbers;
  - the syntax check.
- `LatexAssembler` edits the original line array in place, by index, with
  null sentinels.
- `OptimizationValidator` validates a rewrite against fabricated skills.
- `ResumeOptimizer` covers the deterministic parts of
  `optimize_resume`:
  - the plain-text section editor;
  - resolving bullet indices to line numbers;
  - assembling the result, including the result when the
    language-model call fails.

The source's loops that build state step by step are written as methods
with loop invariants. Examples are the section scanners, the entry and
bullet extractors, the score accumulators, the suggestion list and the
in-place LaTeX assembler. Each method is proved equal to a functional
specification over the prefix of input it has read. The properties of that
specification are lemmas. Pure code (early-return scans, threshold
functions, comprehensions) is written as functions.

## Model

| member | source | states |
|---|---|---|
| `Strings.Lower` | backend/app/utils/text_processing.py:31 | lowering keeps the length and maps each character through the ASCII lower-case map |
| `Strings.LowerIdempotent` | backend/app/utils/text_processing.py:55 | lowering an already lowered text changes nothing |
| `Strings.Strip` | backend/app/utils/text_processing.py:8 | the stripped text has no whitespace at either end, is the slice of the input that starts after its leading whitespace, and every character cut from its tail is whitespace; a stripped text is its own strip |
| `Strings.StripEmptyIffAllSpace` | backend/app/utils/text_processing.py:8 | a text strips to the empty string exactly when all its characters are whitespace |
| `Strings.SplitNoSep` | backend/app/services/resume_optimizer.py:345 | no piece of a one-character split contains the separator |
| `Strings.JoinSplit` | backend/app/services/resume_optimizer.py:345 | joining the pieces of a split with the separator gives back the text |
| `Strings.SplitLines` | backend/app/services/latex_parser.py:81 | no line returned by the line splitter contains a line-break character |
| `Strings.JoinSplitLines` | backend/app/services/latex_parser.py:81 | on a text whose only line breaks are newlines, joining its lines with newlines gives the text back, less one trailing newline |
| `Strings.Words` | backend/app/utils/text_processing.py:42 | whitespace splitting returns non-empty pieces that contain no whitespace |
| `Numeric.RoundHalfEven` | backend/app/services/score_aggregator.py:36 | the rounded integer lies within one half of the rounded value, and a value exactly halfway between two integers rounds to the even one |
| `Numeric.RoundMonotone` | backend/app/services/score_aggregator.py:36 | rounding preserves order |
| `Numeric.RoundBetweenInts` | backend/app/services/score_aggregator.py:36 | a value between two integers rounds to an integer between them |
| `Numeric.Round2Bounds` | backend/app/services/keyword_matcher.py:49 | rounding to two places a score in [0, 0.9] or [0, 0.7] stays within that bound |
| `Numeric.Round3OfOne` | backend/app/services/jd_parser.py:92 | the top word of the frequency fallback gets weight exactly 1 |
| `Numeric.DigitsValueOfNatToString` | backend/app/services/suggestion_engine.py:79 | the decimal rendering of a count reads back as that count |
| `Dicts.Get` | backend/app/services/resume_parser.py:140-141 | a lookup succeeds exactly when the key is present and returns a value stored under it |
| `Dicts.Put` | backend/app/services/resume_parser.py:72 | assignment replaces the value in place when the key is present, and appends a new pair otherwise |
| `Dicts.PutGet` | backend/app/services/resume_parser.py:72 | after an assignment the key reads back the new value and every other key reads back as before |
| `Dicts.FirstPresent` | backend/app/services/resume_parser.py:139-142 | the answer is the value of a preferred key present in the dictionary, and that key comes no later than any other present preferred key, so it is the first one the loop meets; there is none exactly when no preferred key is present |
| `Seqs.Dedupe` | backend/app/services/resume_parser.py:165 | removing later duplicates leaves no repeats and keeps the same set of elements |
| `Seqs.DedupeKeepsFirstOrder` | backend/app/services/resume_parser.py:165 | the survivors appear in the order of their first occurrences |
| `Seqs.LastWhereSpec` | backend/app/services/latex_parser.py:109-128 | the overwriting loop's answer is a matching element with no match after it, and none means nothing matched |
| `Sorting.SortDesc` | backend/app/services/suggestion_engine.py:132 | sorting is a permutation of its input |
| `Sorting.SortDescSorted` | backend/app/services/suggestion_engine.py:132 | the result is ordered by non-increasing key |
| `Sorting.SortDescStable` | backend/app/services/suggestion_engine.py:132 | elements with equal keys keep their original relative order, as Python's stable sort does |
| `Wrappers.GetOr` | backend/app/services/resume_optimizer.py:327 | an absent value is replaced by the default and a present one is kept |
| `TextProcessing.StripAll` | backend/app/utils/text_processing.py:8 | every line is stripped and no line is added or removed |
| `TextProcessing.CleanText` | backend/app/utils/text_processing.py:4-9 | defines `clean_text`; `CleanTextProperties` states it leaves no CR, no tab, no double space and every line stripped |
| `TextProcessing.CollapseNewlinesChars` | backend/app/utils/text_processing.py:6 | collapsing runs of newlines introduces no character other than a newline |
| `TextProcessing.CollapseBlanksProps` | backend/app/utils/text_processing.py:7 | collapsing runs of spaces and tabs leaves no tab and no two adjacent spaces |
| `TextProcessing.CleanTextLinesGood` | backend/app/utils/text_processing.py:8 | after the earlier rewrites, every stripped line is free of tabs, carriage returns and double spaces |
| `TextProcessing.JoinGoodLines` | backend/app/utils/text_processing.py:9 | joining clean stripped lines with newlines gives a text whose every line is stripped |
| `TextProcessing.CleanTextProperties` | backend/app/utils/text_processing.py:4-9 | the cleaned text has no carriage return, no tab, no two adjacent spaces, every line stripped and the whole text stripped |
| `TextProcessing.CountWordsZeroIffBlank` | backend/app/utils/text_processing.py:41-42 | the word count is zero exactly when the text is all whitespace |
| `TextProcessing.CountWords` | backend/app/utils/text_processing.py:41-42 | defines `count_words` as the number of `split()` tokens; `CountWordsZeroIffBlank` and `CountWordsOfJoin` state its meaning |
| `TextProcessing.CountWordsOfJoin` | backend/app/utils/text_processing.py:41-42 | non-empty whitespace-free tokens joined by single spaces are exactly the words of the result, so they are counted once each |
| `TextProcessing.EstimatePages` | backend/app/utils/text_processing.py:45-51 | at least one page; one page up to 500 words, two up to 1000, otherwise the ceiling of words over 500 |
| `TextProcessing.EstimatePagesMonotone` | backend/app/utils/text_processing.py:45-51 | more words never give fewer pages |
| `TextProcessing.ExtractPhones` | backend/app/utils/text_processing.py:16-24 | the loop returns the matches of every phone pattern, pattern by pattern in order |
| `TextProcessing.AllMatchesMembers` | backend/app/utils/text_processing.py:16-24 | a string is reported exactly when one of the patterns matched it |
| `TextProcessing.ExtractUrls` | backend/app/utils/text_processing.py:27-38 | the loop fills the LinkedIn, GitHub and other buckets with those URLs in order and leaves the portfolio bucket empty |
| `TextProcessing.BucketsPartition` | backend/app/utils/text_processing.py:30-37 | the three buckets split the URLs: each URL lands in exactly one, LinkedIn taking precedence over GitHub |
| `TextProcessing.NormalizeKeywordClean` | backend/app/utils/text_processing.py:54-55 | a normalised keyword has no hyphen, dot, slash or upper-case letter |
| `TextProcessing.NormalizeKeyword` | backend/app/utils/text_processing.py:54-55 | defines `normalize_keyword`; `NormalizeKeywordClean` states what it removes |
| `ResumeSections.LettersAndSpaces` | backend/app/services/resume_parser.py:66 | the cleaned line keeps only lower-case letters and whitespace and is no longer than the line |
| `ResumeSections.HeaderOf` | backend/app/services/resume_parser.py:69-88 | a line announces at most one header, and it is one of the section headers |
| `ResumeSections.HeaderOfNamesHeaders` | backend/app/services/resume_parser.py:73 | the current section is only ever set to a section header |
| `ResumeSections.DetectSections` | backend/app/services/resume_parser.py:57-98 | the method returns the section map that the line-by-line specification of the scan gives for the text |
| `ResumeSections.Sections` | backend/app/services/resume_parser.py:57-98 | defines `detect_sections` as the flushed line scan; `SectionsWellFormed`, `PreambleDropped`, `HeaderLineStartsSection` and `ReseenHeaderOverwrites` state its behaviour |
| `ResumeSections.ScanLines` | backend/app/services/resume_parser.py:63-96 | the line loop and the final flush compute the fold of the per-line step over the lines |
| `ResumeSections.ScanLine` | backend/app/services/resume_parser.py:64-93 | one iteration moves the sections, current header and buffer exactly as the step function does |
| `ResumeSections.FlushGood` | backend/app/services/resume_parser.py:95-96 | the final flush keeps keys distinct and section headers, with stripped texts |
| `ResumeSections.RunGood` | backend/app/services/resume_parser.py:63-93 | the scan preserves the invariant: distinct header keys, stripped texts, the current header a section header or empty |
| `ResumeSections.SectionsWellFormed` | backend/app/services/resume_parser.py:57-98 | every key is a section header, no key occurs twice, and every stored text is stripped |
| `ResumeSections.RunAppend` | backend/app/services/resume_parser.py:63 | scanning two blocks of lines one after the other is scanning their concatenation |
| `ResumeSections.RunPreamble` | backend/app/services/resume_parser.py:90-93 | before the first header nothing is stored and no header is current |
| `ResumeSections.PreambleDropped` | backend/app/services/resume_parser.py:92-93 | lines before the first header never reach the result: the text scans as if it began at that header |
| `ResumeSections.NoHeaderNoSections` | backend/app/services/resume_parser.py:95-96 | a text with no header line has no sections at all |
| `ResumeSections.HeaderLineStartsSection` | backend/app/services/resume_parser.py:71-75 | a header line is never content: it flushes the previous section and starts an empty one under its own name |
| `ResumeSections.ReseenHeaderOverwrites` | backend/app/services/resume_parser.py:71-72 | a header met again replaces the text stored under it, and every other key keeps its text |
| `ResumeSections.HeaderThenHeader` | backend/app/services/resume_parser.py:71 | a header immediately followed by another header stores nothing for the first one |
| `ResumeSections.BlankBodyStoredEmpty` | backend/app/services/resume_parser.py:90-91 | a header, a blank line and another header store the empty text under the first header |
| `ResumeSections.BlankFlush` | backend/app/services/resume_parser.py:71-72 | a current section holding one blank line is stored as the empty text |
| `ResumeSections.ContentCollected` | backend/app/services/resume_parser.py:90-91 | once a header is current, every non-header line is collected stripped, blank ones included, and nothing else changes |
| `ResumeFields.FirstOr` | backend/app/services/resume_parser.py:128-133 | the first element of a non-empty list, the empty text otherwise |
| `ResumeFields.NonBlankStripped` | backend/app/services/resume_parser.py:160 | the kept pieces are stripped and non-empty, and there are no more of them than pieces |
| `ResumeFields.NameCandidates` | backend/app/services/resume_parser.py:108 | the name is looked for in at most the first five lines |
| `ResumeFields.NameOf` | backend/app/services/resume_parser.py:106-113 | the name is empty exactly when none of the first five stripped lines is name-like; otherwise it is the first name-like one |
| `ResumeFields.LocationOf` | backend/app/services/resume_parser.py:115-124 | no matching pattern gives the empty location; otherwise the stripped group of the first pattern that matches |
| `ResumeFields.ExtractContactInfo` | backend/app/services/resume_parser.py:101-134 | each contact field is the first found email, phone, LinkedIn, GitHub and other URL (or empty), plus the name and location scans |
| `ResumeFields.SkillsSource` | backend/app/services/resume_parser.py:138-145 | the skills text is the first skills alias present when its text is non-empty, and the whole text when that alias holds the empty text or no alias is present |
| `ResumeFields.FirstSeparator` | backend/app/services/resume_parser.py:148-150 | the separator used is the first one in list order that occurs in the text, and there is none exactly when none occurs |
| `ResumeFields.DropLeadMarks` | backend/app/services/resume_parser.py:154 | the result is a suffix of the part that does not start with a dash, bullet or whitespace, and every character removed is one of those, so exactly the leading mark run is removed |
| `ResumeFields.DropTrailingColon` | backend/app/services/resume_parser.py:155 | a part that does not end in a colon (before trailing whitespace) is unchanged; otherwise the result is a prefix shorter than the trimmed part, what is removed is that one colon and whitespace, and the result does not end in whitespace |
| `ResumeFields.CategoryFromShorter` | backend/app/services/resume_parser.py:157-159 | the skills after a category colon are a non-empty text shorter than the part |
| `ResumeFields.CollectSkills` | backend/app/services/resume_parser.py:152-162 | the part loop appends each part's skills in part order |
| `ResumeFields.ExtractSkills` | backend/app/services/resume_parser.py:137-165 | the result is the collected skills with later duplicates removed |
| `ResumeFields.PartSkillsBounded` | backend/app/services/resume_parser.py:156-162 | every skill a part contributes is non-empty and shorter than 50 characters |
| `ResumeFields.PartsSkillsBounded` | backend/app/services/resume_parser.py:152-162 | every collected skill is non-empty and shorter than 50 characters |
| `ResumeFields.SkillsProperties` | backend/app/services/resume_parser.py:137-165 | the skills have no duplicates, keep first-occurrence order, are exactly the collected skills, and are each 1 to 49 characters long |
| `ResumeFields.NoSeparatorNoSkills` | backend/app/services/resume_parser.py:149-163 | a skills text containing none of the separators yields no skills |
| `ResumeEntries.AliasText` | backend/app/services/resume_parser.py:170-174 | the text of the first alias present, and the empty text when no alias is present |
| `ResumeEntries.NonBlankStrippedMembers` | backend/app/services/resume_parser.py:181 | the kept lines are exactly the non-blank stripped lines |
| `ResumeEntries.StripDecor` | backend/app/services/resume_parser.py:195 | the result is stripped and is a contiguous slice of the input whose removed head and tail consist only of whitespace, pipes and dashes |
| `ResumeEntries.FirstEntryBreak` | backend/app/services/resume_parser.py:179 | the first newline followed by an upper-case letter, or the end of the text |
| `ResumeEntries.SplitEntries` | backend/app/services/resume_parser.py:179 | the entry split always yields at least one piece |
| `ResumeEntries.SplitEntriesJoin` | backend/app/services/resume_parser.py:179 | joining the pieces with the newlines cut out gives the text back, every later piece starts with an upper-case letter, and no piece holds a break |
| `ResumeEntries.EntryLines` | backend/app/services/resume_parser.py:181 | an entry's lines are non-empty and stripped |
| `ResumeEntries.ExpBulletOf` | backend/app/services/resume_parser.py:201-204 | a line opening with a bullet mark gives the suffix after that mark and the whitespace that follows it; any other line gives a bullet exactly when it opens with digits and a full stop, and then the suffix after them and the whitespace that follows; a bullet never starts with whitespace |
| `ResumeEntries.ExpBulletStripped` | backend/app/services/resume_parser.py:201-204 | a bullet taken from a stripped line is stripped |
| `ResumeEntries.Bullets` | backend/app/services/resume_parser.py:200-204 | each line contributes at most one bullet |
| `ResumeEntries.RoleAndDates` | backend/app/services/resume_parser.py:190-198 | the role is stripped, and with no dated line both role and dates are empty |
| `ResumeEntries.RoleAndDatesFirst` | backend/app/services/resume_parser.py:191-198 | the first dated line gives the dates, and the rest of that line with decoration stripped is the role |
| `ResumeEntries.ExperienceEntries` | backend/app/services/resume_parser.py:180-209 | there is at most one experience per entry piece |
| `ResumeEntries.CollectBullets` | backend/app/services/resume_parser.py:200-204 | the loop collects exactly the bullets of the lines, in order |
| `ResumeEntries.ExtractExperience` | backend/app/services/resume_parser.py:168-211 | the method returns the experiences the specification function gives for the sections |
| `ResumeEntries.ExperienceNeedsAlias` | backend/app/services/resume_parser.py:176-177 | with no experience section there are no experiences |
| `ResumeEntries.BulletsStripped` | backend/app/services/resume_parser.py:200-204 | the bullets of stripped lines are stripped |
| `ResumeEntries.ExperienceEntryShape` | backend/app/services/resume_parser.py:181-209 | an entry yields an experience exactly when it has a non-blank line; its company is the first line, its bullets come from the others, and with no dated line role and dates are empty |
| `ResumeEntries.EduFlush` | backend/app/services/resume_parser.py:251-252 | the final flush adds the open entry, if there is one |
| `ResumeEntries.ExtractEducation` | backend/app/services/resume_parser.py:214-254 | the method returns the education entries the specification function gives for the sections |
| `ResumeEntries.EduLine` | backend/app/services/resume_parser.py:232-249 | one iteration updates the finished list and the open entry as the step function does |
| `ResumeEntries.Openers` | backend/app/services/resume_parser.py:234 | at most one opening line per line |
| `ResumeEntries.EduRunCount` | backend/app/services/resume_parser.py:228-252 | an entry is open exactly when there was a line, and the number of entries is the number of opening lines |
| `ResumeEntries.EduRunDegrees` | backend/app/services/resume_parser.py:237 | every entry's degree is one of the scanned lines |
| `ResumeEntries.EducationEntries` | backend/app/services/resume_parser.py:214-254 | one entry per opening line (the first line, then each degree line), none without an education section, and each degree a non-blank stripped line of the section |
| `ResumeEntries.DegreeLineOpens` | backend/app/services/resume_parser.py:234-237 | a degree line always closes the open entry and opens a fresh one |
| `ResumeEntries.DropProjMark` | backend/app/services/resume_parser.py:289 | a line opening with a bullet mark loses exactly that mark and the whitespace after it, leaving a suffix that does not start with whitespace; any other line is unchanged |
| `ResumeEntries.ProjFlush` | backend/app/services/resume_parser.py:291-292 | the final flush adds the open project, if there is one |
| `ResumeEntries.ExtractProjects` | backend/app/services/resume_parser.py:275-293 | the method returns the projects the specification function gives for the sections |
| `ResumeEntries.NameLines` | backend/app/services/resume_parser.py:284 | at most one name line per line |
| `ResumeEntries.ProjRunCount` | backend/app/services/resume_parser.py:280-292 | one project per name line, each named by a non-empty name line |
| `ResumeEntries.ProjRunAppend` | backend/app/services/resume_parser.py:280 | scanning two blocks of lines in turn is scanning their concatenation |
| `ResumeEntries.NoNameNoState` | backend/app/services/resume_parser.py:288 | lines before any name line leave the scan in its start state |
| `ResumeEntries.ProjectsShape` | backend/app/services/resume_parser.py:275-293 | one project per name line of the first project section, none without such a section, and each named by a name line |
| `ResumeEntries.BulletsBeforeFirstNameDropped` | backend/app/services/resume_parser.py:288-290 | bullets before the first project name are dropped: the scan goes on as if they were absent |
| `ResumeEntries.Certifications` | backend/app/services/resume_parser.py:295-299 | no certification section gives no certifications, and every certification is non-empty and stripped |
| `ResumeEntries.CertificationsAreLines` | backend/app/services/resume_parser.py:295-299 | a certification is exactly a non-blank stripped line of the first certification section |
| `ResumeParser.IsLatexInLonger` | backend/app/services/resume_parser.py:15-16 | a LaTeX text stays LaTeX whatever surrounds it |
| `ResumeParser.IsLatex` | backend/app/services/resume_parser.py:15-16 | defines `is_latex` by its two markers; `IsLatexInLonger` and `PlainTextNotLatex` state its properties |
| `ResumeParser.PlainTextNotLatex` | backend/app/services/resume_parser.py:15-16 | a text without a backslash is never LaTeX |
| `ResumeParser.SourceText` | backend/app/services/resume_parser.py:258-266 | the raw LaTeX is kept, and the format becomes "latex", only for a LaTeX text; otherwise the given format stands |
| `ResumeParser.ParseResume` | backend/app/services/resume_parser.py:257-317 | every field of the parsed resume, each of the seven contact fields included, is the corresponding pass applied to the cleaned text and its sections, and the cleaned text has no tab, carriage return or double space, with every line stripped |
| `JdParser.Words1` | backend/app/services/jd_parser.py:9-16 | an alternation of plain words has one literal branch per word |
| `JdParser.JdPatterns` | backend/app/services/jd_parser.py:9-16 | there is one header pattern per section name |
| `JdParser.FirstMatch` | backend/app/services/jd_parser.py:27-34 | the section picked is the name of the first pattern that the lowered line matches, and there is none exactly when no pattern matches |
| `JdParser.FirstMatchAt` | backend/app/services/jd_parser.py:27-34 | a pattern that matches when no earlier one does determines the section |
| `JdParser.JdHeaderNamesOk` | backend/app/services/jd_parser.py:31 | a header line only ever opens one of the six section names |
| `JdParser.ExtractJdSections` | backend/app/services/jd_parser.py:7-42 | the method returns the section map that the line-by-line specification of the scan gives for the text |
| `JdParser.JdSections` | backend/app/services/jd_parser.py:7-42 | defines `extract_jd_sections` as the flushed line scan; `JdSectionKeys`, `NoHeaderIsDescription` and `JdHeaderLine` state its behaviour |
| `JdParser.ScanJdLine` | backend/app/services/jd_parser.py:23-37 | one iteration updates the sections, current section and buffer as the step function does |
| `JdParser.ScanJdLines` | backend/app/services/jd_parser.py:22-40 | the line loop and the final flush compute the fold of the step over the lines |
| `JdParser.JdFlushGood` | backend/app/services/jd_parser.py:39-40 | the final flush keeps keys distinct and among the section names |
| `JdParser.JdRunGood` | backend/app/services/jd_parser.py:22-37 | the scan keeps its invariant: distinct known keys, the current section a section name, non-empty stripped buffer lines |
| `JdParser.JdSectionKeys` | backend/app/services/jd_parser.py:7-42 | every key is one of the six section names, and no key occurs twice |
| `JdParser.JdRunPreamble` | backend/app/services/jd_parser.py:19-37 | before the first header line the non-blank lines are collected, stripped, under "description" |
| `JdParser.NoHeaderIsDescription` | backend/app/services/jd_parser.py:19-40 | a text without header lines is stored entirely under "description", or not at all when blank |
| `JdParser.JdHeaderLine` | backend/app/services/jd_parser.py:28-33 | a header line closes the current section, storing its text over any earlier one when something was collected, and opens an empty one under its own name |
| `JdParser.JdContentLine` | backend/app/services/jd_parser.py:36-37 | a blank line changes nothing and any other non-header line is collected stripped |
| `JdParser.RoleIsResponsibilities` | backend/app/services/jd_parser.py:10-14 | a line mentioning "role" opens "responsibilities" unless a required or preferred pattern matches, so "About the Role" never reaches the description pattern |
| `JdParser.RoleMatch` | backend/app/services/jd_parser.py:10-14 | the same, stated on the lowered line |
| `JdParser.JdPatternsShape` | backend/app/services/jd_parser.py:10-12 | the first three patterns are the required, preferred and responsibilities patterns, and the third name is "responsibilities" |
| `JdParser.RoleSearch` | backend/app/services/jd_parser.py:12 | the responsibilities pattern matches wherever "role" occurs |
| `JdParser.ThirdMatch` | backend/app/services/jd_parser.py:27-34 | when the first two patterns fail and the third matches, the third section name is picked |
| `JdParser.FirstYears` | backend/app/services/jd_parser.py:52 | the search finds the leftmost position where the years pattern matches, and none when it matches nowhere |
| `JdParser.LevelOfYears` | backend/app/services/jd_parser.py:54-62 | a number of years maps to one of the four levels |
| `JdParser.DetectExperienceLevel` | backend/app/services/jd_parser.py:45-64 | the level is always one of entry, mid, senior and lead |
| `JdParser.LeadReadsAsSenior` | backend/app/services/jd_parser.py:47-50 | the phrase table is read in order, so a text with "lead" and no entry or mid phrase is "senior" |
| `JdParser.YearsFallback` | backend/app/services/jd_parser.py:52-64 | with no phrase hit the first "N years" decides the level, and without one it is "mid" |
| `JdParser.Classify` | backend/app/services/jd_parser.py:104-110 | a keyword found in the required text becomes required with its weight raised by half and capped at 1; otherwise one found in the preferred text becomes preferred; otherwise it is unchanged; the text never changes |
| `JdParser.ClassifyKeywords` | backend/app/services/jd_parser.py:97-112 | every keyword object in the array is classified in place, in list order |
| `JdParser.ClassifyList` | backend/app/services/jd_parser.py:140 | classifying in place yields the classified list |
| `JdParser.Classified` | backend/app/services/jd_parser.py:101-112 | the classified list has the same length and classifies each keyword position by position against the required and preferred texts |
| `JdParser.ClassifiedKeepsTexts` | backend/app/services/jd_parser.py:104-111 | classification keeps the length, order and texts of the keywords, and every keyword found in the required text is required |
| `JdParser.DropBullet` | backend/app/services/jd_parser.py:119 | the result is a suffix of the line; a line without a bullet run is unchanged; after a bullet run, exactly that run and the whitespace following it are removed |
| `JdParser.ItemOf` | backend/app/services/jd_parser.py:120 | a line yields an item exactly when the stripped, de-bulleted line is longer than ten characters, and the item is that text |
| `JdParser.KeptFrom` | backend/app/services/jd_parser.py:117-121 | every kept item comes from some line |
| `JdParser.ExtractListItems` | backend/app/services/jd_parser.py:115-122 | the method returns the list items the specification function gives for the lines of the text |
| `JdParser.ListItemsOfLines` | backend/app/services/jd_parser.py:117-121 | the loop appends each line's item in line order |
| `JdParser.KeepEach` | backend/app/services/jd_parser.py:117-121 | the line loop, written for any per-line rule, appends what the rule keeps of each line in line order |
| `JdParser.ListItemsShape` | backend/app/services/jd_parser.py:117-121 | every item is what a stripped line leaves after its bullet marker, longer than ten characters, not starting with a space |
| `JdParser.ItemNoLeadingSpace` | backend/app/services/jd_parser.py:118-119 | an item never starts with whitespace |
| `JdParser.TitleCandidates` | backend/app/services/jd_parser.py:126-128 | the candidates are at most the first five lines of the stripped text, each stripped |
| `JdParser.ExtractTitle` | backend/app/services/jd_parser.py:125-133 | the title is the first title-like candidate, and it is empty exactly when no candidate is title-like |
| `JdParser.TitleShape` | backend/app/services/jd_parser.py:129-132 | a title is stripped, shorter than 100 characters and free of the stop words |
| `JdParser.Frequencies` | backend/app/services/jd_parser.py:85-89 | the frequency table has distinct keys, each longer than two characters and counted at least once |
| `JdParser.CountOneMore` | backend/app/services/jd_parser.py:88-89 | counting one more occurrence of a long enough word keeps the table well formed |
| `JdParser.CountWordsFreq` | backend/app/services/jd_parser.py:86-89 | the count loop computes the frequency table of the words |
| `JdParser.CountWord` | backend/app/services/jd_parser.py:87-89 | one iteration extends the table of the prefix to the table of the next prefix |
| `JdParser.TopWords` | backend/app/services/jd_parser.py:90 | at most 30 words are kept |
| `JdParser.TopWordsSorted` | backend/app/services/jd_parser.py:90 | the kept words are sorted by non-increasing count and drawn from the table |
| `JdParser.FallbackKeywords` | backend/app/services/jd_parser.py:84-94 | the fallback yields at most 30 keywords, all preferred |
| `JdParser.KeywordsOf` | backend/app/services/jd_parser.py:91-94 | one keyword per counted word, with that word's text and the preferred category |
| `JdParser.KeywordsOfOrdered` | backend/app/services/jd_parser.py:92 | counts sorted descending give weights in non-increasing order |
| `JdParser.KeywordsOfFirst` | backend/app/services/jd_parser.py:92 | the first keyword, holding the top count, has weight 1 |
| `JdParser.FallbackWeights` | backend/app/services/jd_parser.py:84-94 | the fallback keywords come in non-increasing weight and the first weighs 1 |
| `JdParser.SkillsWhere` | backend/app/services/jd_parser.py:146-150 | a selection holds no more texts than there are keywords |
| `JdParser.SkillsPartition` | backend/app/services/jd_parser.py:146-150 | every keyword lands in exactly one of the required and preferred lists |
| `JdParser.PartitionSkills` | backend/app/services/jd_parser.py:144-150 | the loop appends required keywords to one list and every other keyword to the other, in order |
| `JdParser.ParseJd` | backend/app/services/jd_parser.py:136-170 | every field of the parsed description is its pass applied to the cleaned text, with the keywords classified against the detected sections |
| `JdParser.ClassifiedFallback` | backend/app/services/jd_parser.py:139-140 | classifying the fallback keywords keeps at most 30 of them with their texts, makes one required exactly when it is found in the required text, and leaves the first weighing 1 |
| `JdParser.ParseJdFallback` | backend/app/services/jd_parser.py:136-170 | without the embedding model the keywords are the frequency fallback of the cleaned text, classified: at most 30, one required or preferred skill each, their texts in fallback order, required exactly when found in the required text, and the first weighing 1 |
| `KeywordMatcher.WordSearchContains` | backend/app/services/keyword_matcher.py:19-20 | a whole-word hit of a variation is in particular an occurrence of the lowered variation |
| `KeywordMatcher.FindSection` | backend/app/services/keyword_matcher.py:80-85 | the first section, in dictionary order, whose lowered text contains the lowered text sought, and "general" when none does |
| `KeywordMatcher.BestWindow` | backend/app/services/keyword_matcher.py:34-40 | the window loop computes the best score and best match that the specification fold gives |
| `KeywordMatcher.BestIsFirstMax` | backend/app/services/keyword_matcher.py:34-40 | the best score is the largest ratio (0 when none is positive), and a positive best is kept at the first window that attains it |
| `KeywordMatcher.BestAbove` | backend/app/services/keyword_matcher.py:38-40 | no window's ratio exceeds the best score |
| `KeywordMatcher.BestBelow` | backend/app/services/keyword_matcher.py:38-42 | when every ratio is below a positive bound, so is the best score |
| `KeywordMatcher.FirstVariation` | backend/app/services/keyword_matcher.py:18-21 | the variation used is one whose whole-word search hits, and there is none exactly when no variation hits |
| `KeywordMatcher.TokenSetHit` | backend/app/services/keyword_matcher.py:56-58 | the first section, in dictionary order, reaching token-set ratio 0.9, with that ratio; none exactly when every section is below 0.9 |
| `KeywordMatcher.MatchIsDecide` | backend/app/services/keyword_matcher.py:8-77 | matching a keyword is the cascade decision applied to the variation, window and token-set results |
| `KeywordMatcher.MatchKeyword` | backend/app/services/keyword_matcher.py:8-77 | defines `match_keyword_in_text` as the cascade; `MatchShape`, `VariationFirst`, `FuzzyAccepted`, `FuzzyRejected` and `TokenSetFound` state its outcomes |
| `KeywordMatcher.DecideShape` | backend/app/services/keyword_matcher.py:22-77 | a result is found exactly when its type is not "not_found"; a miss has score 0 and no text or location, a hit has both; the score is in [0, 1] and is 1 exactly for an exact match |
| `KeywordMatcher.MatchShape` | backend/app/services/keyword_matcher.py:8-77 | every match result has the shape stated by `DecideShape` |
| `KeywordMatcher.VariationFirst` | backend/app/services/keyword_matcher.py:17-30 | a whole-word variation hit always wins and is "exact" exactly when the variation is the stripped lowered keyword; otherwise the result is "fuzzy" or "not_found" |
| `KeywordMatcher.DecideNoVariation` | backend/app/services/keyword_matcher.py:42-77 | without a variation hit, the best window decides first and the token-set section second |
| `KeywordMatcher.DecideTokenSet` | backend/app/services/keyword_matcher.py:59-67 | a token-set hit carries the keyword as text, the section as location and the ratio times 0.7 as score |
| `KeywordMatcher.FuzzyAccepted` | backend/app/services/keyword_matcher.py:42-52 | a window ratio reaching 0.85 makes the result "fuzzy", scored at the best ratio times 0.9 rounded to two places, with the best window as text |
| `KeywordMatcher.FuzzyRejected` | backend/app/services/keyword_matcher.py:42-77 | a single-word keyword with every window ratio below 0.85 is not found |
| `KeywordMatcher.TokenSetFound` | backend/app/services/keyword_matcher.py:55-77 | below the window threshold, a keyword is found exactly when it has several words and some section reaches token-set ratio 0.9 |
| `KeywordMatcher.TokenSetLocation` | backend/app/services/keyword_matcher.py:56-67 | a token-set match names the first section reaching 0.9, takes the keyword as matched text and scores that ratio times 0.7 |
| `KeywordMatcher.MatchEach` | backend/app/services/keyword_matcher.py:96-99 | the loop yields one result per keyword, in order |
| `KeywordMatcher.MatchAll` | backend/app/services/keyword_matcher.py:96-99 | the results are the matches of the keywords with their categories copied in |
| `KeywordMatcher.Totals` | backend/app/services/keyword_matcher.py:104-109 | the second loop computes the total weight and the weighted score |
| `KeywordMatcher.ComputeKeywordScore` | backend/app/services/keyword_matcher.py:88-112 | the method returns the results and the score the specification functions give |
| `KeywordMatcher.ResultsInOrder` | backend/app/services/keyword_matcher.py:96-99 | one result per job keyword, in order, each for its own keyword with its category |
| `KeywordMatcher.ResultScores` | backend/app/services/keyword_matcher.py:96-99 | every result's score lies in [0, 1] |
| `KeywordMatcher.WeightBounds` | backend/app/services/keyword_matcher.py:106-109 | each result weighs at least 1, and the weighted score lies between 0 and the total weight |
| `KeywordMatcher.WeightBounds0` | backend/app/services/keyword_matcher.py:104-108 | the total weight is never negative |
| `KeywordMatcher.MeanBounds` | backend/app/services/keyword_matcher.py:111 | the weighted mean of in-range scores is in [0, 1] |
| `KeywordMatcher.UniformSum` | backend/app/services/keyword_matcher.py:106-109 | when every score is the same, the weighted score is that score times the total weight |
| `KeywordMatcher.ScoreBounds` | backend/app/services/keyword_matcher.py:101-112 | the keyword score lies in [0, 100] |
| `KeywordMatcher.KeywordScore` | backend/app/services/keyword_matcher.py:101-112 | defines the score as the rounded weighted mean in percent; `ScoreBounds`, `ScoreExtremes` and `TwoRequiredExample` state its range and values |
| `KeywordMatcher.ScoreExtremes` | backend/app/services/keyword_matcher.py:101-112 | nothing found scores 0, and every result scoring 1 gives 100 |
| `KeywordMatcher.TwoRequiredExample` | backend/app/services/keyword_matcher.py:104-112 | two required keywords scoring 0.9 and 0 give a keyword score of 45 |
| `StructureScorer.Present` | backend/app/services/structure_scorer.py:18-37 | no more items are present than were checked |
| `StructureScorer.MissingCount` | backend/app/services/structure_scorer.py:18-81 | one issue per absent item, each one of the item messages |
| `StructureScorer.PointsUniform` | backend/app/services/structure_scorer.py:18-37 | with equal points per item, the score is those points times the number present |
| `StructureScorer.Points5` | backend/app/services/structure_scorer.py:62-81 | the points of five items are the sum of the points of the present ones |
| `StructureScorer.ScoreItem` | backend/app/services/structure_scorer.py:18-37 | one rubric step adds the item's points when present and its issue otherwise |
| `StructureScorer.ContactFlags` | backend/app/services/structure_scorer.py:12-16 | five contact items, GitHub standing for GitHub or portfolio |
| `StructureScorer.ScoreContact` | backend/app/services/structure_scorer.py:11-37 | the contact score is 5 per present item, with one issue per missing item |
| `StructureScorer.SectionFlags` | backend/app/services/structure_scorer.py:41-60 | five section items, each matched against its alias list |
| `StructureScorer.ScoreSections` | backend/app/services/structure_scorer.py:40-81 | the sections score is the sum of the points of the present sections, with one issue per missing section |
| `StructureScorer.SectionsBounds` | backend/app/services/structure_scorer.py:62-81 | section points are 4 for summary, 6 for experience and 5 each for education, skills and projects, at most 25 |
| `StructureScorer.ScoreLength` | backend/app/services/structure_scorer.py:84-99 | the length block computes the band score and its issue |
| `StructureScorer.LengthBands` | backend/app/services/structure_scorer.py:88-99 | 25 exactly on 300 to 800 words, 15 exactly on 200 to 299 and 801 to 1000, 5 otherwise; one issue exactly outside 300 to 800 |
| `StructureScorer.NonStandard` | backend/app/services/structure_scorer.py:108-111 | no more non-standard keys than keys |
| `StructureScorer.NonStandardZero` | backend/app/services/structure_scorer.py:108-114 | no key is non-standard exactly when every lowered key is a standard header |
| `StructureScorer.CountNonStandard` | backend/app/services/structure_scorer.py:108-111 | the loop counts the keys whose lowered form is not a standard header |
| `StructureScorer.DatesIffYear` | backend/app/services/structure_scorer.py:124-129 | dates are found exactly when four digits stand together, because every alternative contains four digits |
| `StructureScorer.ScoreFormatting` | backend/app/services/structure_scorer.py:102-129 | formatting is 10, plus 10, 5 or 0 by the number of non-standard headers, plus 5 when a date is found |
| `StructureScorer.ComputeStructureScore` | backend/app/services/structure_scorer.py:6-144 | each block score, the detail flags and the issues are those of the rubric, and the total is their sum |
| `StructureScorer.TotalBounds` | backend/app/services/structure_scorer.py:133 | contact points are a multiple of 5 up to 25, formatting is in [10, 25], and the total is in [15, 100] |
| `StructureScorer.IssueCount` | backend/app/services/structure_scorer.py:18-121 | one issue per missing contact item, per missing section, for a length outside 300 to 800 and for any non-standard header |
| `StructureScorer.Example85` | backend/app/services/structure_scorer.py:6-144 | a resume missing LinkedIn, GitHub and projects, with 450 words, standard headers and a year, scores 15 + 20 + 25 + 25 = 85 |
| `ScoreAggregator.Band` | backend/app/services/score_aggregator.py:4-23 | the band is 3 exactly from 80 on, at least 2 exactly from 65, at least 1 exactly from 50 |
| `ScoreAggregator.StatusAndRankShareBands` | backend/app/services/score_aggregator.py:4-23 | the recruiter status and the rank estimate are read off the same band |
| `ScoreAggregator.RankEstimate` | backend/app/services/score_aggregator.py:15-23 | the rank is one of the four labels |
| `ScoreAggregator.RecruiterStatus` | backend/app/services/score_aggregator.py:4-12 | the status is one of the four labels |
| `ScoreAggregator.StatusDeterminesRank` | backend/app/services/score_aggregator.py:4-23 | two scores share a status exactly when they share a rank |
| `ScoreAggregator.BandsMonotone` | backend/app/services/score_aggregator.py:4-23 | a higher score never gets a worse status or rank |
| `ScoreAggregator.OverallScoreRange` | backend/app/services/score_aggregator.py:26-36 | sub-scores in [0, 100] give an overall score in [0, 100], and three equal sub-scores give that value back |
| `ScoreAggregator.OverallScore` | backend/app/services/score_aggregator.py:26-36 | the overall score is within one half of the 0.40/0.35/0.25 weighted sum |
| `ScoreAggregator.OverallMonotone` | backend/app/services/score_aggregator.py:26-36 | the overall score never decreases when a sub-score grows |
| `SuggestionEngine.MissingOfMembers` | backend/app/services/suggestion_engine.py:16-19 | the missing list holds exactly the not-found results of the category, and is empty exactly when none is missing |
| `SuggestionEngine.FirstFiveNames` | backend/app/services/suggestion_engine.py:21 | the message names the keywords of the first five missing results, in order |
| `SuggestionEngine.When` | backend/app/services/suggestion_engine.py:47-54 | a rule contributes its suggestion exactly when its condition holds, and nothing otherwise |
| `SuggestionEngine.Take` | backend/app/services/suggestion_engine.py:112 | a slice `[:n]` is the prefix of length min(n, length) |
| `SuggestionEngine.GapLoop` | backend/app/services/suggestion_engine.py:112-119 | the gap loop appends one gap suggestion per gap, in order |
| `SuggestionEngine.HintLoop` | backend/app/services/suggestion_engine.py:121-129 | the hint loop appends one keyword suggestion per dictionary hint, in order |
| `SuggestionEngine.KeywordRules` | backend/app/services/suggestion_engine.py:15-43 | the keyword block gives the required rule's suggestion, then the preferred rule's |
| `SuggestionEngine.ProfileRuleLoop` | backend/app/services/suggestion_engine.py:46-72 | the summary, LinkedIn and GitHub rules give their suggestions in that order |
| `SuggestionEngine.LengthRuleStep` | backend/app/services/suggestion_engine.py:74-89 | the length block gives the word-count rule's suggestion |
| `SuggestionEngine.SemanticRuleLoop` | backend/app/services/suggestion_engine.py:92-108 | the semantic block gives the skills rule's suggestion, then the experience rule's |
| `SuggestionEngine.LlmRuleLoop` | backend/app/services/suggestion_engine.py:111-129 | the LLM block gives the gap suggestions, then the keyword hints, and nothing without an analysis |
| `SuggestionEngine.GenerateSuggestions` | backend/app/services/suggestion_engine.py:7-133 | the result is the suggestions of all triggered rules, in rule order, sorted by impact |
| `SuggestionEngine.Triggered` | backend/app/services/suggestion_engine.py:7-131 | defines the unsorted list as the rules in evaluation order; `AtMostFourteen`, `ImpactRange` and `OrderedPermutation` state its size, impacts and sorting |
| `SuggestionEngine.OrderedPermutation` | backend/app/services/suggestion_engine.py:132 | the output reorders the triggered suggestions by non-increasing impact, keeping rule order among equal impacts |
| `SuggestionEngine.GapCount` | backend/app/services/suggestion_engine.py:112-119 | one gap suggestion per gap, carrying that gap |
| `SuggestionEngine.HintCount` | backend/app/services/suggestion_engine.py:121-129 | one suggestion per dictionary hint, never more than there are hints, each with impact 3 and high priority |
| `SuggestionEngine.LlmRuleCounts` | backend/app/services/suggestion_engine.py:111-129 | no analysis gives nothing; an analysis gives one suggestion per gap among the first three gaps and one per dictionary among the first three hints |
| `SuggestionEngine.RequiredRuleFires` | backend/app/services/suggestion_engine.py:16-28 | the required rule fires exactly when a required keyword is missing, with impact min(15, 3n) for n missing and high priority |
| `SuggestionEngine.PreferredRuleFires` | backend/app/services/suggestion_engine.py:31-43 | the preferred rule fires exactly when a preferred keyword is missing, with impact min(8, 2n) and medium priority |
| `SuggestionEngine.LengthRulesExclusive` | backend/app/services/suggestion_engine.py:74-89 | at most one length suggestion: impact 8 and high under 300 words, impact 4 and medium over 1000, none between |
| `SuggestionEngine.AtMostFourteen` | backend/app/services/suggestion_engine.py:13-133 | there are at most 14 suggestions |
| `SuggestionEngine.ProfileImpacts` | backend/app/services/suggestion_engine.py:47-72 | the summary and profile-link impacts are between 2 and 5 |
| `SuggestionEngine.KeywordImpacts` | backend/app/services/suggestion_engine.py:27 | the keyword rule impacts are between 2 and 15 |
| `SuggestionEngine.StructureImpacts` | backend/app/services/suggestion_engine.py:46-89 | the structure rule impacts are between 2 and 15 |
| `SuggestionEngine.SemanticImpacts` | backend/app/services/suggestion_engine.py:92-108 | the semantic rule impacts are between 2 and 15 |
| `SuggestionEngine.SortedImpacts` | backend/app/services/suggestion_engine.py:132 | sorting keeps the impact bounds |
| `SuggestionEngine.ImpactRange` | backend/app/services/suggestion_engine.py:13-133 | every suggestion's impact lies between 2 and 15 |
| `SuggestionEngine.NothingToSuggest` | backend/app/services/suggestion_engine.py:15-108 | with every keyword found, a summary and both links, 300 to 1000 words, high similarities and no analysis, there is no suggestion |
| `LatexSections.SectionName` | backend/app/services/latex_parser.py:111 | a section line yields a non-empty title group free of closing braces |
| `LatexSections.SectionNameOf` | backend/app/services/latex_parser.py:111 | a `\section{t}` line with a non-empty brace-free title yields exactly `t`, whatever follows |
| `LatexSections.SectionTitle` | backend/app/services/latex_parser.py:111-127 | a title exists exactly for a section line, and it is the stripped group |
| `LatexSections.TitleOfExample` | backend/app/services/latex_parser.py:127 | the title of `\section{t}` is `t` stripped |
| `LatexSections.FirstSectionIn` | backend/app/services/latex_parser.py:109-113 | the first section line of a range, and none exactly when the range has no section line |
| `LatexSections.DocStart` | backend/app/services/latex_parser.py:84-88 | one past the first line containing `\begin{document}`, and 0 when no line contains it |
| `LatexSections.LastEndDocument` | backend/app/services/latex_parser.py:93-97 | the last line containing `\end{document}`, and none when no line contains it |
| `LatexSections.DocEnd` | backend/app/services/latex_parser.py:93-97 | the last `\end{document}` line, or the last line when there is none |
| `LatexSections.LoopEnd` | backend/app/services/latex_parser.py:109 | the section loop runs from the body start to the body end, and not at all when the end comes first |
| `LatexSections.ScanSections` | backend/app/services/latex_parser.py:102-142 | the section loop and the final flush give the sections and header lines of the specification scan |
| `LatexSections.Sections` | backend/app/services/latex_parser.py:102-142 | defines the section list of `parse_latex_resume`; `SectionsAddressLines` and `SectionsContiguous` state its line addressing |
| `LatexSections.SecLoop` | backend/app/services/latex_parser.py:109-131 | the loop iterations compute the fold of the step over the body lines |
| `LatexSections.SecLine` | backend/app/services/latex_parser.py:110-131 | one iteration updates the scan state as the step function does |
| `LatexSections.RunBuffer` | backend/app/services/latex_parser.py:109-131 | the buffer always holds the current section's lines, from its section line to the line before the one being read |
| `LatexSections.RunStored` | backend/app/services/latex_parser.py:114-122 | every stored section names a section line and holds exactly its line range, in source order |
| `LatexSections.RunAdjacent` | backend/app/services/latex_parser.py:114-129 | with no blank title, each stored section ends on the line before the next section line |
| `LatexSections.RunHeader` | backend/app/services/latex_parser.py:123-124 | the header lines are the lines before the first section line |
| `LatexSections.SectionsAddressLines` | backend/app/services/latex_parser.py:102-142 | every section names a section line, its text is exactly its 1-indexed inclusive line range inside the body ending by the body end, and sections come in source order without overlap |
| `LatexSections.SectionsContiguous` | backend/app/services/latex_parser.py:109-142 | with no blank title the sections tile the body from the first section line to the body end, and there is a section exactly when the body has a section line |
| `LatexSections.HeaderLines` | backend/app/services/latex_parser.py:106-124 | the header is the body's lines before its first section line, and empty when there is none |
| `LatexSections.NoSectionLineNoSections` | backend/app/services/latex_parser.py:134-142 | a body without section lines has no sections and no header |
| `LatexSections.BlankTitleDropsLines` | backend/app/services/latex_parser.py:113-129 | a section whose title strips to nothing is dropped together with its lines: the example map holds two sections and its line 3 belongs to neither |
| `LatexSections.ExampleSections` | backend/app/services/latex_parser.py:113-142 | the example body titled "A", blank, "B" gives two sections, the first ending on line 2 and the second starting on line 4 |
| `LatexEntries.HeadingOf` | backend/app/services/latex_parser.py:198-213 | an experience line opens an experience heading (company, dates, role) and a project line a project heading (plain name) |
| `LatexEntries.ItemTexts` | backend/app/services/latex_parser.py:217-223 | a line carries a bullet exactly when it holds a `\resumeItem`; the bullet's plain text is the converted argument and its LaTeX text the stripped line |
| `LatexEntries.BulletAt` | backend/app/services/latex_parser.py:217-223 | a bullet read from 0-based line `i` has line number `i + 1` |
| `LatexEntries.RangeLo` | backend/app/services/latex_parser.py:194-196 | the scan starts at `start_line - 1`, cut at the number of lines |
| `LatexEntries.RangeHi` | backend/app/services/latex_parser.py:194-196 | the scan stops at `end_line`, cut at the number of lines by the break |
| `LatexEntries.RangeIsSection` | backend/app/services/latex_parser.py:194 | for a section inside the text the scan reads exactly its lines `start_line - 1 .. end_line - 1` |
| `LatexEntries.SelectSection` | backend/app/services/latex_parser.py:182-186 | the scanned section is the first whose lowered name contains "experience" (or "project"), and there is none when no name does |
| `LatexEntries.ScanEntries` | backend/app/services/latex_parser.py:191-229 | the entry loop over one section returns the entries the specification scan gives |
| `LatexEntries.EntLine` | backend/app/services/latex_parser.py:195-223 | one iteration updates the entries, open entry, bullets and block as the step function does |
| `LatexEntries.ExtractEntries` | backend/app/services/latex_parser.py:178-280 | picking the section and scanning it gives the entries of the specification |
| `LatexEntries.HeadsOf` | backend/app/services/latex_parser.py:208-213 | one heading per entry |
| `LatexEntries.RunHeads` | backend/app/services/latex_parser.py:203-214 | the scan keeps its heading invariant: the entries opened so far are the heading lines read so far |
| `LatexEntries.OpenedIffCurrent` | backend/app/services/latex_parser.py:203-215 | an entry is open exactly when some heading line has been read |
| `LatexEntries.RunBullets` | backend/app/services/latex_parser.py:215-223 | every bullet collected so far addresses a bullet line already read |
| `LatexEntries.RunLines` | backend/app/services/latex_parser.py:215-223 | the bullets collected so far are exactly the bullet lines read so far, in order |
| `LatexEntries.EntriesBullets` | backend/app/services/latex_parser.py:225-227 | the entries' bullets are exactly the bullets of the final scan state |
| `LatexEntries.EntryPerHeading` | backend/app/services/latex_parser.py:203-227 | one entry per heading line of the section, in order, with that line's heading fields; a section without a heading line has no entries |
| `LatexEntries.BulletsAddressLines` | backend/app/services/latex_parser.py:215-223 | every bullet's line number lies in the section and in the text, and names a bullet line whose bullet it is |
| `LatexEntries.BulletsIncrease` | backend/app/services/latex_parser.py:194-223 | bullet line numbers strictly increase across the entry list |
| `LatexEntries.BulletLinesRecorded` | backend/app/services/latex_parser.py:203-223 | the bullets are exactly the section's lines that carry an item, are not heading lines and follow a heading line, one each, in order |
| `LatexEntries.SectionBullets` | backend/app/services/latex_parser.py:215-223 | each bullet of a scanned section lies in it, has its stripped line as LaTeX text and the converted item argument as plain text, and follows a heading line |
| `LatexParser.FindSkillsAbout` | backend/app/services/latex_parser.py:149-161 | the selection loop keeps the last skills-like section and the last about-like section, a name matching both counting only as skills |
| `LatexParser.Classify` | backend/app/services/latex_parser.py:155-161 | one iteration reassigns the skills pick for a skills-like name, and otherwise the about pick for an about-like name |
| `LatexParser.SkillsTakePriority` | backend/app/services/latex_parser.py:156-159 | the chosen about section is never skills-like |
| `LatexParser.ContentOf` | backend/app/services/latex_parser.py:158-161 | a block is present exactly when its section is, and is that section's LaTeX |
| `LatexParser.PostambleLines` | backend/app/services/latex_parser.py:93-99 | the postamble is the lines from the body end on, and empty for an empty text |
| `LatexParser.SectionsPositioned` | backend/app/services/latex_parser.py:120 | every section starts on a positive line |
| `LatexParser.ParseLatexResume` | backend/app/services/latex_parser.py:80-175 | the method builds the map that the specification of parsing gives for the source |
| `LatexParser.LatexMap` | backend/app/services/latex_parser.py:80-175 | defines the parsed map; `MapBlocks`, `SectionsPositioned` and `PostambleLines` state its parts |
| `LatexParser.MapBlocks` | backend/app/services/latex_parser.py:149-175 | the skills and about blocks are the LaTeX of the chosen sections, which are sections of the map, and are absent exactly when no section qualifies |
| `LatexParser.CountChar` | backend/app/services/latex_parser.py:286-287 | a count never exceeds the length and is zero exactly when the character is absent |
| `LatexParser.CountCharAppend` | backend/app/services/latex_parser.py:286-287 | counts add up over concatenation |
| `LatexParser.WordRun` | backend/app/services/latex_parser.py:291-292 | the longest run of word characters from a position |
| `LatexParser.EnvAt` | backend/app/services/latex_parser.py:291-292 | a match at a position yields a non-empty name and ends after it |
| `LatexParser.FindEnvs` | backend/app/services/latex_parser.py:291-292 | every environment name found is non-empty |
| `LatexParser.FindEnvsAt` | backend/app/services/latex_parser.py:291-292 | a `\begin{name}` at a position is reported ahead of the names found after it |
| `LatexParser.WordRunOf` | backend/app/services/latex_parser.py:291 | a run of word characters ended by a non-word character is the word run |
| `LatexParser.ValidateLatexSyntax` | backend/app/services/latex_parser.py:283-301 | valid exactly when there is no error, exactly when the braces balance, the begin and end names agree as multisets, and both document markers occur |
| `LatexParser.ErrorListPerTest` | backend/app/services/latex_parser.py:284-299 | each failing test adds exactly one error, in test order, and the brace error carries both counts |
| `LatexParser.PieceRanks` | backend/app/services/latex_parser.py:284-299 | at most one error per test, in test order |
| `LatexParser.ErrorsPerTest` | backend/app/services/latex_parser.py:283-301 | the same, for the tests of a given text |
| `OptimizationValidator.LowerSet` | backend/app/services/optimization_validator.py:11 | the lowered set holds exactly the lowered members |
| `OptimizationValidator.SkillsInText` | backend/app/services/optimization_validator.py:7-11 | the skills of a text are exactly the lowered lexicon matches |
| `OptimizationValidator.Fabricated` | backend/app/services/optimization_validator.py:23-27 | a term is fabricated exactly when it is a skill of the optimised text outside the lowered original and implied skills |
| `OptimizationValidator.ValidateOptimization` | backend/app/services/optimization_validator.py:18-36 | valid exactly when nothing is fabricated, reporting the fabricated set |
| `OptimizationValidator.IgnoresOriginalText` | backend/app/services/optimization_validator.py:18-36 | the result does not depend on the original text |
| `OptimizationValidator.MoreSkillsFewerFabricated` | backend/app/services/optimization_validator.py:24-27 | more original skills can only shrink the fabricated set, so a valid result stays valid, when the implication map is monotone |
| `OptimizationValidator.NoLexiconTermValid` | backend/app/services/optimization_validator.py:10-11 | a text with no lexicon term always passes |
| `OptimizationValidator.FabricatedOccurs` | backend/app/services/optimization_validator.py:10-11 | every reported term is lower-case and occurs in the lowered optimised text |
| `OptimizationValidator.ValidateLatexOutput` | backend/app/services/optimization_validator.py:39-41 | the result is exactly the syntax check's flag and error list |
| `LatexAssembler.Slotted` | backend/app/services/latex_assembler.py:10 | every split line starts in its own present slot |
| `LatexAssembler.Present` | backend/app/services/latex_assembler.py:43 | the join keeps only present slots |
| `LatexAssembler.PresentAppend` | backend/app/services/latex_assembler.py:43 | the filter distributes over concatenation |
| `LatexAssembler.PresentSlotted` | backend/app/services/latex_assembler.py:43 | when nothing was emptied, the filter gives the lines back |
| `LatexAssembler.EditFor` | backend/app/services/latex_assembler.py:14 | the text applied to a line is the last edit for that line number, and there is none when no edit names it |
| `LatexAssembler.ApplyBullets` | backend/app/services/latex_assembler.py:13-17 | each slot holds the last edit for its line number or its old content, line numbers outside the text change nothing, and the slot count is kept |
| `LatexAssembler.Blank` | backend/app/services/latex_assembler.py:26-27 | emptying a range keeps the slot count |
| `LatexAssembler.ReplaceBlock` | backend/app/services/latex_assembler.py:20-30 | the replacement fails exactly where the source raises; otherwise the section line's slot holds that line, a newline and the block, the rest of the range is emptied, and every other slot is unchanged |
| `LatexAssembler.ReplaceIgnoresRange` | backend/app/services/latex_assembler.py:25-30 | whatever the section's later slots held, the replacement is the same, so a bullet edit inside a replaced section is lost |
| `LatexAssembler.ReplaceIf` | backend/app/services/latex_assembler.py:20-33 | a replacement runs only for a non-empty text and a present section |
| `LatexAssembler.FinalSlots` | backend/app/services/latex_assembler.py:12-41 | the edits keep one slot per line |
| `LatexAssembler.Assembled` | backend/app/services/latex_assembler.py:4-43 | the assembly succeeds exactly when the edits do |
| `LatexAssembler.ParsedMapPlaced` | backend/app/services/latex_assembler.py:21-34 | the sections of every parsed map start on a positive line |
| `LatexAssembler.ApplyBulletsInPlace` | backend/app/services/latex_assembler.py:13-17 | the in-place loop leaves the slot array holding the bullet edits |
| `LatexAssembler.ReplaceInPlace` | backend/app/services/latex_assembler.py:20-30 | the in-place replacement succeeds exactly when the specification does and then leaves its slots; on failure the array is unchanged |
| `LatexAssembler.AssembleOptimizedLatex` | backend/app/services/latex_assembler.py:4-43 | the method returns the assembly the specification gives |
| `LatexAssembler.NoEditsRoundTrip` | backend/app/services/latex_assembler.py:10-43 | with no edits the output is the source's lines joined again with newlines |
| `LatexAssembler.Edited` | backend/app/services/latex_assembler.py:13-17 | the bullet edits keep one line per line |
| `LatexAssembler.BulletEditsOnly` | backend/app/services/latex_assembler.py:13-17 | bullet edits alone never fail, and each output line is the last edit for its number or the original line |
| `LatexAssembler.UntriggeredReplacement` | backend/app/services/latex_assembler.py:20-33 | an empty replacement text or a missing section leaves the output as if the block were not asked for |
| `LatexAssembler.UntouchedLine` | backend/app/services/latex_assembler.py:12-43 | a line named by no edit and outside both replaced ranges keeps its slot and content |
| `LatexAssembler.SkillsReplacementShape` | backend/app/services/latex_assembler.py:20-30 | a replaced section keeps its first slot, holding its line followed by the new block, and empties its later slots whatever the bullet edits did |
| `LatexAssembler.AboutReplacementShape` | backend/app/services/latex_assembler.py:20-41 | the about replacement, which runs after skills, keeps the slot it finds on its section line followed by the new block and empties the rest of its section. The assembly fails when that line lies inside the replaced skills section. With the same start line both blocks follow it |
| `ResumeOptimizer.EditRun` | backend/app/services/resume_optimizer.py:350-365 | the line scan of `_replace_section` is inside a section only after it has replaced one |
| `ResumeOptimizer.ReplaceSectionLoop` | backend/app/services/resume_optimizer.py:344-370 | the loop over the lines returns the section-replacement function of the text, the name and the new content |
| `ResumeOptimizer.ReplaceSection` | backend/app/services/resume_optimizer.py:344-370 | defines `_replace_section` by the line scan; `ReplacedIff`, `NoMatchUnchanged`, `ReplaceKeepsHead`, `ReplaceOneSection` and `ReplaceThenRestart` state its result |
| `ResumeOptimizer.ReplacedIff` | backend/app/services/resume_optimizer.py:350-367 | a replacement happens exactly when some line names the section |
| `ResumeOptimizer.NoMatchUnchanged` | backend/app/services/resume_optimizer.py:367-370 | no line naming the section if and only if the text comes back unchanged with no replacement made |
| `ResumeOptimizer.CopiedRun` | backend/app/services/resume_optimizer.py:365 | outside a section, lines that name nothing are copied one for one |
| `ResumeOptimizer.DroppedRun` | backend/app/services/resume_optimizer.py:359-363 | inside a section, lines up to a closing one are dropped and the scan does not change |
| `ResumeOptimizer.OutputGrows` | backend/app/services/resume_optimizer.py:350-365 | the output of a prefix of the lines is a prefix of the output of the whole |
| `ResumeOptimizer.ReplaceKeepsHead` | backend/app/services/resume_optimizer.py:350-357 | when line k first names the section, the result starts with the lines up to and including k followed by the new content |
| `ResumeOptimizer.KeepsHeadRun` | backend/app/services/resume_optimizer.py:350-357 | the same on the line scan for any naming and closing tests, and a replacement is recorded |
| `ResumeOptimizer.ReplaceOneSection` | backend/app/services/resume_optimizer.py:350-370 | one section named at k and closed at j (or at the end), with no naming line after j: the result is the lines up to k, the new content, then the lines from j on; `ReplaceThenRestart` and `SecondReplacement` cover a later naming line |
| `ResumeOptimizer.OneSectionRun` | backend/app/services/resume_optimizer.py:350-370 | the same on the line scan, with no naming line after j, and the scan still in the section exactly when no closing line came |
| `ResumeOptimizer.OpenedUntil` | backend/app/services/resume_optimizer.py:352-363 | up to the closing line the scan holds the lines before the section, the naming line and the new content |
| `ResumeOptimizer.ClosedRun` | backend/app/services/resume_optimizer.py:360-362 | after the closing line at j, the rest of the document is copied unchanged and the section is closed |
| `ResumeOptimizer.ClosedAt` | backend/app/services/resume_optimizer.py:360-362 | a closing line ends the open section and is itself kept |
| `ResumeOptimizer.RunAfterClosed` | backend/app/services/resume_optimizer.py:350-365 | outside a section the scan of the remaining lines is that of a fresh document, appended to the output so far |
| `ResumeOptimizer.RestartAfterClose` | backend/app/services/resume_optimizer.py:352-365 | after the closing line the rest is edited afresh, so a later naming line starts another replacement |
| `ResumeOptimizer.ReplaceThenRestart` | backend/app/services/resume_optimizer.py:350-370 | a section named at k and closed at j gives the lines up to k, the new content, the closing line, then the rest with its own sections replaced |
| `ResumeOptimizer.SecondReplacement` | backend/app/services/resume_optimizer.py:352-365 | after a closed section, the next naming line is kept and followed by the new content again |
| `ResumeOptimizer.MissingKeywords` | backend/app/services/resume_optimizer.py:173-180 | the missing list is, position by position, the keywords of the not-found results of the category |
| `ResumeOptimizer.MissingKeywordsMembers` | backend/app/services/resume_optimizer.py:173-180 | a keyword is in the missing list exactly when some not-found result of that category carries it |
| `ResumeOptimizer.WeakSectionsMembers` | backend/app/services/resume_optimizer.py:182-185 | a section is weak exactly when its similarity is below 50 |
| `ResumeOptimizer.Request` | backend/app/services/resume_optimizer.py:188-198 | the request carries both texts, the raw LaTeX, the current score and the parsed skills; it is marked LaTeX exactly for a LaTeX input; its missing lists hold exactly the not-found keywords of each category, and its weak sections exactly the sections scoring below 50 |
| `ResumeOptimizer.SummaryOf` | backend/app/services/resume_optimizer.py:219 | the summary is empty exactly when both the summary field and the about field are |
| `ResumeOptimizer.SkillsOf` | backend/app/services/resume_optimizer.py:220 | the skills text is empty exactly when both skills fields are |
| `ResumeOptimizer.Changes` | backend/app/services/resume_optimizer.py:285-307 | one rewrite record for a non-empty summary, first, and one for a non-empty skills text, last, each with its section, an empty original, the new text (converted to plain text for LaTeX), the LaTeX text only for a LaTeX input, and its reason |
| `ResumeOptimizer.Response` | backend/app/services/resume_optimizer.py:320-341 | the response keeps the original text and score, takes the estimate or the original score plus 5, sets the delta, and reports as removed exactly the skills the validation flags |
| `ResumeOptimizer.PyIndex` | backend/app/services/resume_optimizer.py:235-238 | Python indexing below the length: a non-negative index selects that element and only an index below minus the length raises |
| `ResumeOptimizer.OutcomeOf` | backend/app/services/resume_optimizer.py:228-251 | a change without optimized LaTeX is skipped; otherwise the defaulted section and indices are looked up, a raising lookup fails, and a positive line gives an edit of that line carrying the change's section, indices, texts, keywords and reason |
| `ResumeOptimizer.ResolveAborts` | backend/app/services/resume_optimizer.py:227-251 | once a lookup raises, the whole resolution fails |
| `ResumeOptimizer.Resolve` | backend/app/services/resume_optimizer.py:227-251 | each applied change comes from its own change, targets a positive line and is recorded as that line's edit with its new text |
| `ResumeOptimizer.ResolveBullets` | backend/app/services/resume_optimizer.py:227-251 | the loop over the bullet changes computes the resolution function, failing exactly where Python raises |
| `ResumeOptimizer.LineOfNonNegative` | backend/app/services/resume_optimizer.py:230-238 | for non-negative indices a change resolves exactly when the entry and the bullet exist, to that bullet's line; any section but "experience" looks among the projects |
| `ResumeOptimizer.LineOf` | backend/app/services/resume_optimizer.py:230-238 | defines the index lookup; `LineOfNonNegative` and `RaisesOnlyNegative` state when it resolves and when it raises |
| `ResumeOptimizer.RaisesOnlyNegative` | backend/app/services/resume_optimizer.py:235-238 | only a negative index can raise |
| `ResumeOptimizer.LastEditWins` | backend/app/services/resume_optimizer.py:240-241 | the bullet map has an entry for a line exactly when some change resolves to it, and the entry is the text of the last such change |
| `ResumeOptimizer.EditsOf` | backend/app/services/resume_optimizer.py:227-241 | the changes contribute at most one edit each |
| `ResumeOptimizer.ResolveEdits` | backend/app/services/resume_optimizer.py:240-241 | a successful resolution records exactly the edits of its changes, in order |
| `ResumeOptimizer.LastWinsOf` | backend/app/services/resume_optimizer.py:240-241 | the last edit of a line, for any edit function, is the one the map keeps |
| `ResumeOptimizer.ResolveFailsOnNegative` | backend/app/services/resume_optimizer.py:235-238 | a failed resolution has a change with LaTeX text and a negative index |
| `ResumeOptimizer.CollectBullets` | backend/app/services/resume_optimizer.py:262-272 | the loop collects the plain bullet changes as the collection function does |
| `ResumeOptimizer.SubstituteLoop` | backend/app/services/resume_optimizer.py:280-282 | the loop applies the bullet substitutions in order, as the substitution function does |
| `ResumeOptimizer.PlainEdits` | backend/app/services/resume_optimizer.py:274-282 | the plain branch replaces the summary, then the skills, then substitutes the bullets |
| `ResumeOptimizer.NoSubstitutions` | backend/app/services/resume_optimizer.py:280-282 | bullet changes with an empty original or an empty replacement leave the text unchanged |
| `ResumeOptimizer.NonEmpty` | backend/app/services/resume_optimizer.py:255-257 | a section replacement is passed to the assembler exactly when its text is non-empty |
| `ResumeOptimizer.LatexBranch` | backend/app/services/resume_optimizer.py:222-260 | the LaTeX branch computes the outcome function: parse, resolve the bullets, assemble |
| `ResumeOptimizer.OptimizeResume` | backend/app/services/resume_optimizer.py:162-341 | the whole operation computes the optimisation function of the inputs and the model call |
| `ResumeOptimizer.Optimize` | backend/app/services/resume_optimizer.py:162-341 | defines `optimize_resume` as the response to the model's answer; `FailureKeepsOriginal`, `ScoreDelta`, `ValidatesOptimizedText`, `PlainPath`, `LatexPath` and `LatexFailure` state its results |
| `ResumeOptimizer.Respond` | backend/app/services/resume_optimizer.py:200-341 | defines the response for any answer and any LaTeX branch; `RespondScore`, `RespondValidates`, `RespondFails` and `RespondLatex` state its fields |
| `ResumeOptimizer.FailureKeepsOriginal` | backend/app/services/resume_optimizer.py:200-209 | a call that returns nothing gives the original text and score, a zero delta, no changes and an invalid validation |
| `ResumeOptimizer.Failed` | backend/app/services/resume_optimizer.py:200-209 | defines the degraded response; `FailureKeepsOriginal` states its text, score, delta, changes and validity |
| `ResumeOptimizer.ScoreDelta` | backend/app/services/resume_optimizer.py:327-328 | the delta is the estimate minus the original score; the estimate defaults to the original score plus 5, or is the original score when the call failed |
| `ResumeOptimizer.RespondScore` | backend/app/services/resume_optimizer.py:327-328 | the same for the response built from any call result and any LaTeX branch |
| `ResumeOptimizer.ValidatesOptimizedText` | backend/app/services/resume_optimizer.py:310-332 | after a successful call the validation checks the optimised text against the original skills, and the removed skills are exactly the flagged ones |
| `ResumeOptimizer.RespondValidates` | backend/app/services/resume_optimizer.py:310-332 | the same for the response built from any LaTeX branch |
| `ResumeOptimizer.PlainPath` | backend/app/services/resume_optimizer.py:261-282 | a plain-text résumé never fails, is edited section by section and sets no LaTeX fields |
| `ResumeOptimizer.NothingToRewrite` | backend/app/services/resume_optimizer.py:274-282 | with no summary, no skills and no bullet changes a plain-text résumé comes back as it was |
| `ResumeOptimizer.LatexFailure` | backend/app/services/resume_optimizer.py:235-253 | the operation fails only for a LaTeX input whose call succeeded and whose bullets raise or whose assembly fails |
| `ResumeOptimizer.RespondFails` | backend/app/services/resume_optimizer.py:235-253 | only the LaTeX branch can make the response fail |
| `ResumeOptimizer.OutcomeFails` | backend/app/services/resume_optimizer.py:235-253 | the LaTeX branch fails only when the bullets raise or the assembly fails |
| `ResumeOptimizer.LatexPath` | backend/app/services/resume_optimizer.py:222-260 | for a LaTeX résumé the optimised source is the assembly of the parsed map with the resolved bullets, its plain form is the text, and the validation and bullet list are set |
| `ResumeOptimizer.RespondLatex` | backend/app/services/resume_optimizer.py:222-260 | the response of the LaTeX branch carries its source, its plain form, its validation and its bullet list |
| `ResumeOptimizer.OutcomeParts` | backend/app/services/resume_optimizer.py:222-260 | a successful LaTeX branch returns the assembled source and the applied bullet changes |

## Left out

- PDF and DOCX extraction with fitz and python-docx (backend/app/services/resume_parser.py:19-32): foreign libraries. Each extractor is an opaque function of the file bytes. The model uses only whether bytes are present, not what they contain.
- The KeyBERT branch of keyword extraction (backend/app/services/jd_parser.py:68-82): a foreign library. Only the fallback branch is modelled.
- `rapidfuzz` `fuzz.ratio` and `token_set_ratio`: foreign library. They are abstract functions into [0, 1].
- backend/app/services/semantic_scorer.py: sentence embeddings, cosine similarity and a lazily loaded global model. Its section similarities are an input of the optimiser model.
- The language-model calls: backend/app/services/llm_analyzer.py, backend/app/utils/llm_helpers.py, and `_call_optimization_llm` and `_parse_json` in backend/app/services/resume_optimizer.py with their prompts. They are network calls plus JSON parsing. The call is a function parameter returning an optional record.
- JSON values of an unexpected type inside the model's reply. A JSON null is treated as an absent field.
- `get_all_variations` and `get_implied_skills`: the modules that define them are not part of this model. They are uninterpreted fields of `Recognizers`.
- Exact regular-expression semantics are not modelled. Each is a recogniser whose result the model passes on without inspecting, for:
  - `latex_to_plain`;
  - the e-mail, phone and URL patterns;
  - the location, date, degree, year and GPA patterns;
  - the `\resumeSubheading`, `\resumeProjectHeading` and `\resumeItem` patterns;
  - the technology lexicon.
- Some small patterns are written out exactly instead:
  - the job-description section headers;
  - the "N years" pattern;
  - word-boundary matching of variations;
  - the four-digit date test of the structure rubric;
  - `\begin`/`\end` environment names.
- Floating point: scores and weights are exact reals, so float rounding error is not modelled. `round` rounds halves to even, as Python's does.
- `str.lower` and `isupper` cover ASCII letters only. `\w` and `\d` are ASCII. Whitespace is the full set of Python's `str.isspace`, which `\s`, `strip` and `split()` also use: ASCII whitespace, `\x1c`-`\x1f`, `\x85`, `\xa0`, `\u1680`, `\u2000`-`\u200a`, `\u2028`, `\u2029`, `\u202f`, `\u205f` and `\u3000`.
- Python's `sort(reverse=True)` (Timsort) is modelled as a stable insertion sort, which gives the same result. Timsort's algorithm and cost are not modelled.
- Dictionaries are ordered association lists. Assigning an existing key keeps its position, as in Python.
- Exceptions that the code lets escape are the `None` result of an optional type. These are an out-of-range negative index in bullet resolution, and the assembler's `IndexError` and `TypeError`. The exception type and message are not modelled.
- Validation messages: their wording is not part of this model. Only the validity flag and the sets are.
- backend/app/models/schemas is not part of this model. Its records are datatypes holding the fields the services read or write.
- HTTP and database plumbing: backend/app/routers, backend/app/main.py, backend/app/config.py, and the history persistence. These are I/O.
- The frontend sources and backend/test_quick.py. The frontend is UI code, and test_quick.py only prints results.
- `async`: the services are modelled as sequential functions.

## Where the documentation and the code differ

The model follows the code in each of these points:

- `detect_sections`: a header seen a second time replaces that section's earlier text; it is not appended to it (`ResumeSections.ReseenHeaderOverwrites` and the scanner lemmas).
- A stored section text can be empty, for example a header followed only by blank lines before the next header.
- In the LaTeX map, the last skills-like section and the last about-like section are the ones chosen. "technologies" is a skills keyword (`LatexParser.FindSkillsAbout`).
- Take two required keywords, one matched as a variation and one not found. Each weighs 2, so the score is 45 (`KeywordMatcher.TwoRequiredExample`).
- In the structure-rubric example, missing projects cost 5 points of the sections score, so the total is 85 (`StructureScorer.Example85`).
- The line round trip of the LaTeX map is `"\n".join(text.splitlines())`. It drops a trailing newline; it is not byte for byte.
- A `\section{ }` whose title strips to empty does not start a section. Its lines then belong to no section (`LatexSections.BlankTitleDropsLines`).
- In `extract_experience` the test `company or role` (backend/app/services/resume_parser.py:206) always holds. An entry with no non-blank line is skipped first (:182), so `company`, its first stripped line (:185), is never empty (`ResumeEntries.ExperienceEntryShape`). The LaTeX `\resumeSubheading` entries (backend/app/services/latex_parser.py:198-213) have no such test, and their fields can be empty.
