/**
 * The rule-based score of a candidate against a job: four component scores in
 * [0, 1], their weighted sum rounded to two decimals, and the label of that score.
 */
module Matcher {
  import opened Wrappers
  import opened PyStr
  import opened MatcherUtils
  import opened Rounding
  import opened Models

  // ---------------------------------------------------------------------------
  // Helpers on sets and reals

  lemma {:induction false} SubsetCard<T>(a: set<T>, b: set<T>)
    requires a <= b
    ensures |a| <= |b|
    decreases a
  {
    if a != {} {
      var x :| x in a;
      SubsetCard(a - {x}, b - {x});
    }
  }

  lemma FractionInUnit(m: nat, n: nat)
    requires 0 < n && m <= n
    ensures 0.0 <= m as real / n as real <= 1.0
    ensures m == n ==> m as real / n as real == 1.0
    ensures m == 0 ==> m as real / n as real == 0.0
  {
    DivideMonotone(m as real, n as real, n as real);
    if m == n {
      assert m as real / n as real == n as real / n as real;
    }
  }

  lemma ProductMonotone(a: real, b: real, c: real, d: real)
    requires 0.0 <= a <= b && 0.0 <= c <= d
    ensures a * c <= b * d
  {
    assert a * c <= b * c;
    assert b * c <= b * d;
  }

  /** `0.5 ** n`, the penalty for `n` missing required skills. */
  function HalfPow(n: nat): (p: real)
    ensures 0.0 < p <= 1.0
  {
    if n == 0 then 1.0 else 0.5 * HalfPow(n - 1)
  }

  /** Each further missing skill halves the penalty factor again, so more missing never helps. */
  lemma {:induction false} HalfPowAntitone(m: nat, n: nat)
    requires m <= n
    ensures HalfPow(n) <= HalfPow(m)
    decreases n
  {
    if m < n {
      HalfPowAntitone(m, n - 1);
    }
  }

  // ---------------------------------------------------------------------------
  // required_skills_score

  /** The unrounded required score: the matched fraction times `0.5 ** missing`. */
  function RawRequiredScore(cand: set<string>, required: set<string>): (r: real)
    requires required != {}
    ensures 0.0 <= r <= 1.0
  {
    SubsetCard(required * cand, required);
    FractionInUnit(|required * cand|, |required|);
    ProductMonotone(0.0, |required * cand| as real / |required| as real, 0.0, HalfPow(|required| - |required * cand|));
    ProductMonotone(|required * cand| as real / |required| as real, 1.0, HalfPow(|required| - |required * cand|), 1.0);
    (|required * cand| as real / |required| as real) * HalfPow(|required| - |required * cand|)
  }

  /**
   * `required_skills_score`: 1 when nothing is required; otherwise the rounded
   * raw score, which is 1 exactly when every required skill is present and 0
   * exactly when none is.
   */
  function RequiredSkillsScore(cand: set<string>, required: set<string>): (r: real)
    ensures required == {} ==> r == 1.0
    ensures required != {} ==> r == Round3(RawRequiredScore(cand, required))
    ensures 0.0 <= r <= 1.0
    ensures required <= cand ==> r == 1.0
    ensures required != {} && required !! cand ==> r == 0.0
  {
    if required == {} then 1.0
    else
      var raw := RawRequiredScore(cand, required);
      RoundUnitInterval(raw, 1000);
      if required <= cand then
        assert required * cand == required;
        assert raw == 1.0;
        RoundExact(1.0, 1000, 1000);
        Round3(raw)
      else if required !! cand then
        assert required * cand == {};
        assert raw == 0.0;
        RoundExact(0.0, 0, 1000);
        Round3(raw)
      else
        Round3(raw)
  }

  /** A candidate holding more skills never gets a lower required score. */
  lemma RequiredScoreMonotone(cand: set<string>, more: set<string>, required: set<string>)
    requires cand <= more
    ensures RequiredSkillsScore(cand, required) <= RequiredSkillsScore(more, required)
  {
    if required != {} {
      var m, m' := |required * cand|, |required * more|;
      var n := |required|;
      SubsetCard(required * cand, required * more);
      SubsetCard(required * more, required);
      HalfPowAntitone(n - m', n - m);
      assert m as real / n as real <= m' as real / n as real;
      ProductMonotone(m as real / n as real, m' as real / n as real, HalfPow(n - m), HalfPow(n - m'));
      RoundMonotone(RawRequiredScore(cand, required), RawRequiredScore(more, required), 1000);
    }
  }

  /** Skills outside the required set do not affect the required score. */
  lemma RequiredScoreIgnoresOthers(cand: set<string>, others: set<string>, required: set<string>)
    requires others !! required
    ensures RequiredSkillsScore(cand + others, required) == RequiredSkillsScore(cand * required, required)
    ensures RequiredSkillsScore(cand, required) == RequiredSkillsScore(cand * required, required)
  {
    assert required * (cand + others) == required * cand;
    assert required * (cand * required) == required * cand;
    if required != {} {
      assert RawRequiredScore(cand + others, required) == RawRequiredScore(cand, required);
      assert RawRequiredScore(cand * required, required) == RawRequiredScore(cand, required);
    }
  }

  // ---------------------------------------------------------------------------
  // preferred_skill_score

  /** `preferred_skill_score`: 1 when nothing is preferred, else the fraction of preferred skills held. */
  function PreferredSkillScore(cand: set<string>, preferred: set<string>): (r: real)
    ensures preferred == {} ==> r == 1.0
    ensures preferred != {} ==> r * (|preferred| as real) == |cand * preferred| as real
    ensures 0.0 <= r <= 1.0
  {
    if preferred == {} then 1.0
    else
      SubsetCard(cand * preferred, preferred);
      |cand * preferred| as real / |preferred| as real
  }

  /** Holding more skills never lowers the preferred score; holding all of them gives 1. */
  lemma PreferredScoreMonotone(cand: set<string>, more: set<string>, preferred: set<string>)
    requires cand <= more
    ensures PreferredSkillScore(cand, preferred) <= PreferredSkillScore(more, preferred)
    ensures preferred <= cand ==> PreferredSkillScore(cand, preferred) == 1.0
  {
    if preferred != {} {
      SubsetCard(cand * preferred, more * preferred);
      DivideMonotone(|cand * preferred| as real, |more * preferred| as real, |preferred| as real);
      if preferred <= cand {
        assert cand * preferred == preferred;
      }
    }
  }

  // ---------------------------------------------------------------------------
  // experience_score

  /**
   * `experience_score`: one year short gives half credit and more than one
   * gives none; a falsy maximum (None or 0) or a candidate inside [min, max]
   * gives full credit; each year over a truthy maximum costs 0.05, floored at 0.7.
   * The source's final fall-through return cannot be reached.
   */
  function ExperienceScore(years: int, j: Job): (r: real)
    ensures years < j.minExperience - 1 ==> r == 0.0
    ensures years == j.minExperience - 1 ==> r == 0.5
    ensures years >= j.minExperience && !Truthy(j.maxExperience) ==> r == 1.0
    ensures Truthy(j.maxExperience) && j.minExperience <= years <= j.maxExperience.value ==> r == 1.0
    ensures years >= j.minExperience && Truthy(j.maxExperience) && years > j.maxExperience.value ==>
      r == (if 1.0 - 0.05 * (years - j.maxExperience.value) as real < 0.7 then 0.7
            else 1.0 - 0.05 * (years - j.maxExperience.value) as real)
    ensures r == 0.0 || r == 0.5 || 0.7 <= r <= 1.0
  {
    if years < j.minExperience then
      if years >= j.minExperience - 1 then 0.5 else 0.0
    else if !Truthy(j.maxExperience) || (j.minExperience <= years <= j.maxExperience.value) then
      1.0
    else if years > j.maxExperience.value then
      var over := years - j.maxExperience.value;
      var penalty := over as real * 0.05;
      if 0.7 >= 1.0 - penalty then 0.7 else 1.0 - penalty
    else
      assert false;
      1.0
  }

  /** Meeting the minimum always earns at least 0.7; falling short earns at most 0.5. */
  lemma ExperienceThreshold(years: int, j: Job)
    ensures years >= j.minExperience ==> ExperienceScore(years, j) >= 0.7
    ensures years < j.minExperience ==> ExperienceScore(years, j) <= 0.5
  {
  }

  /** A maximum of 0 is falsy and behaves exactly like no maximum. */
  lemma ExperienceZeroMaxIsOpen(years: int, j: Job)
    ensures ExperienceScore(years, j.(maxExperience := Some(0))) == ExperienceScore(years, j.(maxExperience := None))
  {
  }

  /** Past a truthy maximum, more years never score higher, and six or more years over hit the 0.7 floor. */
  lemma ExperienceOverMaxAntitone(years: int, more: int, j: Job)
    requires Truthy(j.maxExperience) && j.minExperience <= years <= more
    requires years > j.maxExperience.value
    ensures ExperienceScore(more, j) <= ExperienceScore(years, j)
    ensures more - j.maxExperience.value >= 6 ==> ExperienceScore(more, j) == 0.7
  {
  }

  // ---------------------------------------------------------------------------
  // education_score

  /** `e.get("raw", "")`. */
  function RawText(e: EducationEntry): (r: string)
    ensures "raw" in e ==> r == e["raw"]
    ensures "raw" !in e ==> r == ""
  {
    if "raw" in e then e["raw"] else ""
  }

  /** The lower-cased raw texts of the entries, one per entry, in order. */
  function LoweredTexts(education: seq<EducationEntry>): (r: seq<string>)
    ensures |r| == |education|
    ensures forall i :: 0 <= i < |education| ==> r[i] == Lower(RawText(education[i]))
  {
    seq(|education|, i requires 0 <= i < |education| => Lower(RawText(education[i])))
  }

  /** The text searched for keywords: the lower-cased raw texts joined by single spaces. */
  function EducationCorpus(education: seq<EducationEntry>): (r: string)
    ensures forall i :: 0 <= i < |education| ==> IsInfix(Lower(RawText(education[i])), r)
  {
    var texts := LoweredTexts(education);
    forall i | 0 <= i < |education| ensures IsInfix(Lower(RawText(education[i])), Join(" ", texts)) {
      JoinContainsPart(" ", texts, i);
    }
    Join(" ", texts)
  }

  /** How many keywords occur, lower-cased, in `text` (a keyword listed twice counts twice). */
  function KeywordHits(keywords: seq<string>, text: string): (n: nat)
    ensures n <= |keywords|
  {
    if keywords == [] then 0
    else
      KeywordHits(keywords[..|keywords| - 1], text)
      + (if IsInfix(Lower(keywords[|keywords| - 1]), text) then 1 else 0)
  }

  /** The positions of the keywords that occur, lower-cased, in `text`. */
  function HitPositions(keywords: seq<string>, text: string): set<nat> {
    set i: nat | i < |keywords| && IsInfix(Lower(keywords[i]), text)
  }

  /** The running count is the number of keyword positions that hit. */
  lemma {:induction false} KeywordHitsCountsPositions(keywords: seq<string>, text: string)
    ensures KeywordHits(keywords, text) == |HitPositions(keywords, text)|
  {
    if keywords != [] {
      var n := |keywords| - 1;
      var front := keywords[..n];
      KeywordHitsCountsPositions(front, text);
      var hs, fs := HitPositions(keywords, text), HitPositions(front, text);
      if IsInfix(Lower(keywords[n]), text) {
        assert hs == fs + {n};
      } else {
        assert hs == fs;
      }
    }
  }

  /** Every keyword found gives the full count; none found gives zero. */
  lemma {:induction false} KeywordHitsExtremes(keywords: seq<string>, text: string)
    ensures (forall i :: 0 <= i < |keywords| ==> IsInfix(Lower(keywords[i]), text)) ==>
      KeywordHits(keywords, text) == |keywords|
    ensures (forall i :: 0 <= i < |keywords| ==> !IsInfix(Lower(keywords[i]), text)) ==>
      KeywordHits(keywords, text) == 0
  {
    if keywords != [] {
      var n := |keywords| - 1;
      KeywordHitsExtremes(keywords[..n], text);
    }
  }

  /**
   * `education_score`: 1 when there are no keywords (None or empty), else the
   * fraction of keywords found in the corpus.
   */
  function EducationScore(education: seq<EducationEntry>, keywords: Option<seq<string>>): (r: real)
    ensures !NonEmpty(keywords) ==> r == 1.0
    ensures NonEmpty(keywords) ==>
      r * (|keywords.value| as real) == |HitPositions(keywords.value, EducationCorpus(education))| as real
    ensures 0.0 <= r <= 1.0
  {
    if !NonEmpty(keywords) then 1.0 else HitFraction(keywords.value, EducationCorpus(education))
  }

  /** The fraction of the (non-empty) keyword list found in `text`. */
  function HitFraction(keywords: seq<string>, text: string): (r: real)
    requires keywords != []
    ensures r * (|keywords| as real) == |HitPositions(keywords, text)| as real
    ensures 0.0 <= r <= 1.0
  {
    KeywordHitsCountsPositions(keywords, text);
    FractionInUnit(KeywordHits(keywords, text), |keywords|);
    KeywordHits(keywords, text) as real / |keywords| as real
  }

  /** A keyword occurring in the raw text of one entry, compared lower-cased, is found. */
  lemma KeywordInEntryIsFound(education: seq<EducationEntry>, j: nat, keyword: string)
    requires j < |education| && IsInfix(Lower(keyword), Lower(RawText(education[j])))
    ensures IsInfix(Lower(keyword), EducationCorpus(education))
  {
    JoinContainsPart(" ", LoweredTexts(education), j);
    InfixTransitive(Lower(keyword), Lower(RawText(education[j])), EducationCorpus(education));
  }

  /** All keywords found gives 1, none found gives 0. */
  lemma EducationScoreExtremes(education: seq<EducationEntry>, keywords: seq<string>)
    requires keywords != []
    ensures (forall i :: 0 <= i < |keywords| ==> IsInfix(Lower(keywords[i]), EducationCorpus(education))) ==>
      EducationScore(education, Some(keywords)) == 1.0
    ensures (forall i :: 0 <= i < |keywords| ==> !IsInfix(Lower(keywords[i]), EducationCorpus(education))) ==>
      EducationScore(education, Some(keywords)) == 0.0
  {
    var text := EducationCorpus(education);
    KeywordHitsExtremes(keywords, text);
    FractionInUnit(KeywordHits(keywords, text), |keywords|);
    assert EducationScore(education, Some(keywords)) == KeywordHits(keywords, text) as real / |keywords| as real;
  }

  // ---------------------------------------------------------------------------
  // final_match_score and matcher

  /** The four component scores of a candidate against a job. */
  datatype Components = Components(required: real, preferred: real, experience: real, education: real)

  function Scores(c: Candidate, j: Job): (b: Components)
    ensures 0.0 <= b.required <= 1.0 && 0.0 <= b.preferred <= 1.0
    ensures 0.0 <= b.experience <= 1.0 && 0.0 <= b.education <= 1.0
  {
    var cand := NormalizeList(c.skills);
    Components(
      RequiredSkillsScore(cand, NormalizeList(j.requiredSkills)),
      PreferredSkillScore(cand, NormalizeList(j.preferredSkills)),
      ExperienceScore(c.experience, j),
      EducationScore(c.education, j.educationKeywords))
  }

  /** The weights 0.60, 0.15, 0.15 and 0.10 sum to 1, so the weighted sum stays in [0, 1]. */
  function Weighted(b: Components): (r: real)
    requires 0.0 <= b.required <= 1.0 && 0.0 <= b.preferred <= 1.0
    requires 0.0 <= b.experience <= 1.0 && 0.0 <= b.education <= 1.0
    ensures 0.0 <= r <= 1.0
    ensures b == Components(1.0, 1.0, 1.0, 1.0) ==> r == 1.0
  {
    0.60 * b.required + 0.15 * b.preferred + 0.15 * b.experience + 0.10 * b.education
  }

  /** `final_match_score`: the weighted sum rounded to two decimals, in [0, 1]. */
  function FinalMatchScore(c: Candidate, j: Job): (r: real)
    ensures 0.0 <= r <= 1.0
  {
    var w := Weighted(Scores(c, j));
    RoundUnitInterval(w, 100);
    Round2(w)
  }

  /** `matcher`: the label of the final score. */
  function MatchLabel(c: Candidate, j: Job): (name: string)
    ensures name in {"Top Talent", "Strong Match", "Potential Fit", "Low Relevance", "Not Recommended"}
    ensures name == "Top Talent" <==> FinalMatchScore(c, j) >= 0.85
    ensures name == "Not Recommended" <==> FinalMatchScore(c, j) <= 0.15
  {
    MatchLevelOf(FinalMatchScore(c, j))
  }

  /** Only the normal forms of the skills matter: respelling them changes nothing. */
  lemma ScoreSeesNormalFormsOnly(c: Candidate, skills: seq<string>, j: Job)
    requires NormalizeList(skills) == NormalizeList(c.skills)
    ensures FinalMatchScore(c.(skills := skills), j) == FinalMatchScore(c, j)
  {
    assert Scores(c.(skills := skills), j) == Scores(c, j);
  }

  /** Adding a skill to a resume never lowers the final score nor the rank of its label. */
  lemma AddingSkillNeverHurts(c: Candidate, skill: string, j: Job)
    ensures FinalMatchScore(c, j) <= FinalMatchScore(c.(skills := c.skills + [skill]), j)
    ensures Classify(FinalMatchScore(c, j)).Rank() <= Classify(FinalMatchScore(c.(skills := c.skills + [skill]), j)).Rank()
  {
    var c' := c.(skills := c.skills + [skill]);
    NormalizeListAppend(c.skills, skill);
    var cand, more := NormalizeList(c.skills), NormalizeList(c'.skills);
    assert cand <= more;
    RequiredScoreMonotone(cand, more, NormalizeList(j.requiredSkills));
    PreferredScoreMonotone(cand, more, NormalizeList(j.preferredSkills));
    var b, b' := Scores(c, j), Scores(c', j);
    assert b.experience == b'.experience && b.education == b'.education;
    assert Weighted(b) <= Weighted(b');
    RoundMonotone(Weighted(b), Weighted(b'), 100);
    ClassifyMonotone(FinalMatchScore(c, j), FinalMatchScore(c', j));
  }

  /**
   * The candidate holds every required and preferred skill (after normalising),
   * is within the experience range and matches every education keyword.
   */
  predicate MeetsEverything(c: Candidate, j: Job) {
    && NormalizeList(j.requiredSkills) <= NormalizeList(c.skills)
    && NormalizeList(j.preferredSkills) <= NormalizeList(c.skills)
    && c.experience >= j.minExperience
    && (Truthy(j.maxExperience) ==> c.experience <= j.maxExperience.value)
    && (NonEmpty(j.educationKeywords) ==>
         forall i :: 0 <= i < |j.educationKeywords.value| ==>
           IsInfix(Lower(j.educationKeywords.value[i]), EducationCorpus(c.education)))
  }

  /** The component scores of a candidate who meets every criterion are all 1. */
  lemma PerfectComponents(c: Candidate, j: Job)
    requires MeetsEverything(c, j)
    ensures Scores(c, j) == Components(1.0, 1.0, 1.0, 1.0)
  {
    var cand := NormalizeList(c.skills);
    PreferredScoreMonotone(cand, cand, NormalizeList(j.preferredSkills));
    if NonEmpty(j.educationKeywords) {
      EducationScoreExtremes(c.education, j.educationKeywords.value);
    }
  }

  lemma FullMarksRoundToOne(b: Components)
    requires b == Components(1.0, 1.0, 1.0, 1.0)
    ensures Round2(Weighted(b)) == 1.0
  {
    RoundExact(1.0, 100, 100);
  }

  /** Full marks in every component give a final score of exactly 1. */
  lemma FullComponentsScoreOne(c: Candidate, j: Job)
    requires Scores(c, j) == Components(1.0, 1.0, 1.0, 1.0)
    ensures FinalMatchScore(c, j) == 1.0
  {
    FullMarksRoundToOne(Scores(c, j));
  }

  /** A candidate who meets every criterion scores exactly 1 and is top talent. */
  lemma PerfectCandidate(c: Candidate, j: Job)
    requires MeetsEverything(c, j)
    ensures FinalMatchScore(c, j) == 1.0
    ensures MatchLabel(c, j) == "Top Talent"
  {
    PerfectComponents(c, j);
    FullComponentsScoreOne(c, j);
  }

  /** A job that asks for nothing gives every candidate at the minimum experience a perfect score. */
  lemma EmptyJobScoresFull(c: Candidate, j: Job)
    requires j.requiredSkills == [] && j.preferredSkills == [] && !NonEmpty(j.educationKeywords)
    requires c.experience >= j.minExperience && !Truthy(j.maxExperience)
    ensures FinalMatchScore(c, j) == 1.0
  {
    assert NormalizeList(j.requiredSkills) == {};
    assert NormalizeList(j.preferredSkills) == {};
    PerfectCandidate(c, j);
  }
}
