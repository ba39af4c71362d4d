/**
 * backend/app/services/optimization_validator.py: the truthfulness check
 * that flags lexicon skills an optimised text mentions but the original
 * skill set neither has nor implies, and the LaTeX output check.
 */
module OptimizationValidator {
  import opened Strings
  import opened Recognizers
  import opened LatexParser

  /** `{s.lower() for s in xs}`. */
  function LowerSet(xs: set<string>): (r: set<string>)
    ensures forall s :: s in xs ==> Lower(s) in r
    ensures forall t :: t in r ==> exists s :: s in xs && t == Lower(s)
  {
    set s | s in xs :: Lower(s)
  }

  /** `extract_skills_from_text`: the lexicon matches of a text, lower-cased. */
  function SkillsInText(rx: Recognizers, text: string): (r: set<string>)
    ensures forall t :: t in r <==> exists m :: m in rx.techLexicon(text) && t == Lower(m)
  {
    set m | m in rx.techLexicon(text) :: Lower(m)
  }

  /** The skills the validation accepts: the original skills and those they imply, lower-cased. */
  function Allowed(rx: Recognizers, originalSkills: set<string>): (r: set<string>)
  {
    LowerSet(originalSkills + rx.impliedSkills(originalSkills)) + LowerSet(originalSkills)
  }

  /** The fabricated set: the optimised text's skills outside the allowed ones. */
  function Fabricated(rx: Recognizers, optimizedText: string, originalSkills: set<string>): (f: set<string>)
    ensures forall t :: t in f <==> t in SkillsInText(rx, optimizedText) && t !in Allowed(rx, originalSkills)
  {
    SkillsInText(rx, optimizedText) - LowerSet(originalSkills + rx.impliedSkills(originalSkills)) - LowerSet(originalSkills)
  }

  /**
   * `ValidationResult`. The fabricated skills form a set (Python reports
   * `list(fabricated)` in set iteration order); the message is left out.
   */
  datatype Validation = Validation(valid: bool, fabricatedSkills: set<string>)

  /** `validate_optimization(original_text, optimized_text, original_skills)`. */
  function ValidateOptimization(rx: Recognizers, originalText: string, optimizedText: string, originalSkills: set<string>): (r: Validation)
    ensures r.valid <==> r.fabricatedSkills == {}
    ensures r.fabricatedSkills == Fabricated(rx, optimizedText, originalSkills)
  {
    var fabricated := Fabricated(rx, optimizedText, originalSkills);
    if fabricated != {} then Validation(false, fabricated) else Validation(true, {})
  }

  /** The original text plays no part: the parameter is never read. */
  lemma IgnoresOriginalText(rx: Recognizers, t1: string, t2: string, optimizedText: string, originalSkills: set<string>)
    ensures ValidateOptimization(rx, t1, optimizedText, originalSkills) == ValidateOptimization(rx, t2, optimizedText, originalSkills)
  {
  }

  /**
   * Enlarging the original skills can only shrink the fabricated set, so a
   * valid optimisation stays valid, provided the implication map is
   * monotone (a larger skill set implies at least as much).
   */
  lemma MoreSkillsFewerFabricated(rx: Recognizers, optimizedText: string, s1: set<string>, s2: set<string>)
    requires s1 <= s2
    requires rx.impliedSkills(s1) <= rx.impliedSkills(s2)
    ensures Fabricated(rx, optimizedText, s2) <= Fabricated(rx, optimizedText, s1)
    ensures ValidateOptimization(rx, "", optimizedText, s1).valid ==> ValidateOptimization(rx, "", optimizedText, s2).valid
  {
    assert LowerSet(s1 + rx.impliedSkills(s1)) <= LowerSet(s2 + rx.impliedSkills(s2));
    assert LowerSet(s1) <= LowerSet(s2);
  }

  /** A text in which the lexicon finds nothing always passes. */
  lemma NoLexiconTermValid(rx: Recognizers, originalText: string, optimizedText: string, originalSkills: set<string>)
    requires rx.techLexicon(optimizedText) == []
    ensures ValidateOptimization(rx, originalText, optimizedText, originalSkills).valid
  {
    assert SkillsInText(rx, optimizedText) == {};
  }

  lemma LowerSlice(s: string, i: int, j: int)
    requires 0 <= i <= j <= |s|
    ensures Lower(s)[i..j] == Lower(s[i..j])
  {
  }

  /**
   * Every reported term is lower-case and occurs in the lower-cased
   * optimised text, at least when the lexicon reports pieces of the text
   * it searched, as `re.findall` does.
   */
  lemma FabricatedOccurs(rx: Recognizers, optimizedText: string, originalSkills: set<string>)
    requires forall m :: m in rx.techLexicon(optimizedText) ==> Contains(optimizedText, m)
    ensures forall t :: t in Fabricated(rx, optimizedText, originalSkills) ==> HasNoUpper(t) && Contains(Lower(optimizedText), t)
  {
    forall t | t in Fabricated(rx, optimizedText, originalSkills)
      ensures HasNoUpper(t) && Contains(Lower(optimizedText), t)
    {
      var m :| m in rx.techLexicon(optimizedText) && t == Lower(m);
      LowerHasNoUpper(m);
      var i :| 0 <= i <= |optimizedText| - |m| && OccursAt(optimizedText, m, i);
      LowerSlice(optimizedText, i, i + |m|);
      assert OccursAt(Lower(optimizedText), t, i);
    }
  }

  /** `LatexValidation`. */
  datatype LatexValidation = LatexValidation(valid: bool, errors: seq<LatexError>)

  /** `validate_latex_output`: the syntax check's flag and errors, passed through. */
  function ValidateLatexOutput(tex: string): (r: LatexValidation)
    ensures r.valid <==> r.errors == []
    ensures r.valid == ValidateLatexSyntax(tex).valid && r.errors == ValidateLatexSyntax(tex).errors
  {
    var check := ValidateLatexSyntax(tex);
    LatexValidation(check.valid, check.errors)
  }
}
