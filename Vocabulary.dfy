/**
 * The fixed vocabularies of `backend/app/utils/constants.py`, in their
 * original order (several scans take the first entry that matches).
 */
module Vocabulary {

  /** The recognised résumé section headers. */
  const SectionHeaders: seq<string> := [
    "summary", "about", "objective", "profile",
    "experience", "work experience", "employment", "professional experience",
    "education", "academic", "academics",
    "skills", "technical skills", "core competencies", "technologies",
    "projects", "personal projects", "academic projects",
    "certifications", "certificates", "licenses",
    "awards", "achievements", "honors",
    "publications", "research",
    "volunteer", "volunteering", "community",
    "languages", "interests", "hobbies"
  ]

  /** The experience-level phrase table, in dict order: entry, mid, senior, lead. */
  const ExperienceLevels: seq<(string, seq<string>)> := [
    ("entry", ["entry level", "junior", "0-1 years", "0-2 years", "new grad", "graduate", "intern"]),
    ("mid", ["mid level", "mid-level", "2-4 years", "3-5 years", "2+ years", "3+ years"]),
    ("senior", ["senior", "5+ years", "7+ years", "5-10 years", "lead", "principal", "staff"]),
    ("lead", ["lead", "manager", "director", "head of", "vp", "10+ years"])
  ]

  /** Header aliases written out in resume_parser.py and structure_scorer.py, each in its order. */
  const SummaryAliases: seq<string> := ["summary", "about", "objective", "profile"]
  const ExperienceAliases: seq<string> := ["experience", "work experience", "employment", "professional experience"]
  const EducationAliases: seq<string> := ["education", "academic", "academics"]
  const SkillsAliases: seq<string> := ["skills", "technical skills", "core competencies", "technologies"]
  const ProjectAliases: seq<string> := ["projects", "personal projects", "academic projects"]
  const CertificationAliases: seq<string> := ["certifications", "certificates", "licenses"]
}
