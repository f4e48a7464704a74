/**
 * The candidate and job records the scorer reads, with the job's defaults and
 * its text rendering (`Job.__str__`).
 */
module Models {
  import opened Wrappers
  import opened PyStr

  /** One education entry: a dictionary whose "raw" key, when present, holds the entry's text. */
  type EducationEntry = map<string, string>

  /** A parsed resume. Skills keep their spelling; case and padding only matter for display. */
  datatype Candidate = Candidate(
    name: string,
    email: Option<string>,
    phone: Option<string>,
    skills: seq<string>,
    education: seq<EducationEntry>,
    experience: int,
    resumeLink: Option<string>,
    aiSummary: Option<string>)

  /** `Candidate(...)` with the two optional fields left at their defaults. */
  function NewCandidate(name: string, email: Option<string>, phone: Option<string>,
                        skills: seq<string>, education: seq<EducationEntry>, experience: int): (c: Candidate)
    ensures c.name == name && c.email == email && c.phone == phone
    ensures c.skills == skills && c.education == education && c.experience == experience
    ensures c.resumeLink == None && c.aiSummary == None
  {
    Candidate(name, email, phone, skills, education, experience, None, None)
  }

  datatype RoleType = IC | IcSenior | Leadership {
    function Name(): string {
      match this
      case IC => "IC"
      case IcSenior => "IC_SENIOR"
      case Leadership => "LEADERSHIP"
    }
  }

  /**
   * A job posting. `requiredSkills` is the single list of required skills the
   * rule-based scorer and the report read; the other fields are the posting's own.
   */
  datatype Job = Job(
    title: string,
    description: string,
    company: string,
    location: string,
    hardRequiredSkills: seq<string>,
    softRequiredSkills: seq<string>,
    preferredSkills: seq<string>,
    minExperience: int,
    roleType: RoleType,
    maxExperience: Option<int>,
    minSalary: Option<int>,
    maxSalary: Option<int>,
    educationKeywords: Option<seq<string>>,
    requiredSkills: seq<string>)

  /** `Job(...)` with every field that has a default left at it. */
  function NewJob(title: string, description: string, company: string, location: string,
                  hardRequiredSkills: seq<string>, softRequiredSkills: seq<string>,
                  preferredSkills: seq<string>, minExperience: int, requiredSkills: seq<string>): (j: Job)
    ensures j.title == title && j.description == description && j.company == company && j.location == location
    ensures j.hardRequiredSkills == hardRequiredSkills && j.softRequiredSkills == softRequiredSkills
    ensures j.preferredSkills == preferredSkills && j.requiredSkills == requiredSkills
    ensures j.minExperience == minExperience
    ensures j.roleType == IC
    ensures j.maxExperience == None && j.minSalary == None && j.maxSalary == None
    ensures j.educationKeywords == None
  {
    Job(title, description, company, location, hardRequiredSkills, softRequiredSkills, preferredSkills,
        minExperience, IC, None, None, None, None, requiredSkills)
  }

  /** Python truthiness of an optional integer: present and non-zero. */
  predicate Truthy(n: Option<int>) {
    n.Some? && n.value != 0
  }

  /** Python truthiness of an optional list: present and non-empty. */
  predicate NonEmpty(xs: Option<seq<string>>) {
    xs.Some? && xs.value != []
  }

  /** The experience range: closed when the maximum is truthy, open-ended otherwise. */
  function ExperienceRange(j: Job): (r: string)
    ensures Truthy(j.maxExperience) ==>
      r == IntToString(j.minExperience) + "-" + IntToString(j.maxExperience.value) + " years"
    ensures !Truthy(j.maxExperience) ==> r == IntToString(j.minExperience) + "+ years"
  {
    if Truthy(j.maxExperience) then
      IntToString(j.minExperience) + "-" + IntToString(j.maxExperience.value) + " years"
    else
      IntToString(j.minExperience) + "+ years"
  }

  /**
   * The salary line: present only when one of the bounds is truthy; an absent
   * bound prints as 0, and both are printed with thousands separators.
   */
  function SalaryLine(j: Job): (r: string)
    ensures r == "" <==> !(Truthy(j.minSalary) || Truthy(j.maxSalary))
    ensures r != "" ==>
      r == "Salary: $" + WithThousands(j.minSalary.GetOr(0)) + " - $" + WithThousands(j.maxSalary.GetOr(0)) + "\n"
  {
    if Truthy(j.minSalary) || Truthy(j.maxSalary) then
      "Salary: $" + WithThousands(j.minSalary.GetOr(0)) + " - $" + WithThousands(j.maxSalary.GetOr(0)) + "\n"
    else
      ""
  }

  /** The education keywords, comma-joined, or "None" when there are none. */
  function EducationText(j: Job): (r: string)
    ensures !NonEmpty(j.educationKeywords) ==> r == "None"
    ensures NonEmpty(j.educationKeywords) ==> r == Join(", ", j.educationKeywords.value)
  {
    if NonEmpty(j.educationKeywords) then Join(", ", j.educationKeywords.value) else "None"
  }

  /** The description cut to its first 100 characters, always followed by "...". */
  function DescriptionPreview(d: string): (r: string)
    ensures |r| == (if |d| < 100 then |d| else 100) + 3
    ensures r[..|r| - 3] == d[..|r| - 3] && r[|r| - 3..] == "..."
    ensures |d| <= 100 ==> r == d + "..."
  {
    (if |d| < 100 then d else d[..100]) + "..."
  }

  /** The lines between the title and the salary line, each ending in a newline but the last. */
  function Middle(j: Job): string {
    "Company: " + j.company + "\n"
    + "Location: " + j.location + "\n"
    + "Description: " + DescriptionPreview(j.description) + "\n"
    + "Hard Required Skills: " + Join(", ", j.hardRequiredSkills) + "\n"
    + "Soft Required Skills: " + Join(", ", j.softRequiredSkills) + "\n"
    + "Preferred Skills: " + Join(", ", j.preferredSkills) + "\n"
    + "Experience: " + ExperienceRange(j) + "\n"
    + "Role Type: " + j.roleType.Name()
  }

  lemma PrefixAndSuffix(a: string, b: string, c: string)
    ensures (a + b + c)[..|a|] == a
    ensures (a + b + c)[|a + b + c| - |c|..] == c
  {
  }

  /** `str(job)`: the posting as labelled lines, in a fixed order, the salary line only when present. */
  function Render(j: Job): (r: string)
    ensures |"Job Title: " + j.title + "\n"| <= |r|
    ensures r[..|"Job Title: " + j.title + "\n"|] == "Job Title: " + j.title + "\n"
    ensures EndsWith(r, "\n" + SalaryLine(j) + "Education: " + EducationText(j))
  {
    var head := "Job Title: " + j.title + "\n";
    var tail := "\n" + SalaryLine(j) + "Education: " + EducationText(j);
    PrefixAndSuffix(head, Middle(j), tail);
    head + Middle(j) + tail
  }

  /**
   * Falsy values render as absent ones: a maximum experience of 0 renders
   * open-ended, a salary bound of 0 like a missing one, and an empty keyword
   * list like no list.
   */
  lemma RenderZeroIsAbsent(j: Job)
    ensures Render(j.(maxExperience := Some(0))) == Render(j.(maxExperience := None))
    ensures Render(j.(minSalary := Some(0))) == Render(j.(minSalary := None))
    ensures Render(j.(maxSalary := Some(0))) == Render(j.(maxSalary := None))
    ensures Render(j.(educationKeywords := Some([]))) == Render(j.(educationKeywords := None))
  {
    ZeroMaxExperienceIsAbsent(j);
    ZeroSalaryIsAbsent(j);
    EmptyKeywordsAreAbsent(j);
  }

  /** Two jobs whose title, middle lines, salary line and education text agree render alike. */
  lemma RenderAgrees(j: Job, k: Job)
    requires j.title == k.title && Middle(j) == Middle(k)
    requires SalaryLine(j) == SalaryLine(k) && EducationText(j) == EducationText(k)
    ensures Render(j) == Render(k)
  {
  }

  lemma ZeroMaxExperienceIsAbsent(j: Job)
    ensures Render(j.(maxExperience := Some(0))) == Render(j.(maxExperience := None))
  {
    var a, b := j.(maxExperience := Some(0)), j.(maxExperience := None);
    assert ExperienceRange(a) == ExperienceRange(b);
    RenderAgrees(a, b);
  }

  lemma ZeroSalaryIsAbsent(j: Job)
    ensures Render(j.(minSalary := Some(0))) == Render(j.(minSalary := None))
    ensures Render(j.(maxSalary := Some(0))) == Render(j.(maxSalary := None))
  {
    var a, b := j.(minSalary := Some(0)), j.(minSalary := None);
    assert Middle(a) == Middle(j) == Middle(b);
    RenderAgrees(a, b);
    var c, d := j.(maxSalary := Some(0)), j.(maxSalary := None);
    assert Middle(c) == Middle(j) == Middle(d);
    RenderAgrees(c, d);
  }

  lemma EmptyKeywordsAreAbsent(j: Job)
    ensures Render(j.(educationKeywords := Some([]))) == Render(j.(educationKeywords := None))
  {
    var a, b := j.(educationKeywords := Some([])), j.(educationKeywords := None);
    assert Middle(a) == Middle(j) == Middle(b);
    RenderAgrees(a, b);
  }

  /** A job with no truthy salary bound has no salary line at all. */
  lemma RenderWithoutSalary(j: Job)
    requires !Truthy(j.minSalary) && !Truthy(j.maxSalary)
    ensures EndsWith(Render(j), "\nEducation: " + EducationText(j))
  {
    var tail := "\n" + SalaryLine(j) + "Education: " + EducationText(j);
    assert SalaryLine(j) == "";
    assert tail == "\nEducation: " + EducationText(j);
  }

  /** Both salary figures read back, separators aside, as the bounds they print (0 when absent). */
  lemma SalaryFiguresReadBack(j: Job)
    requires j.minSalary.GetOr(0) >= 0 && j.maxSalary.GetOr(0) >= 0
    ensures DigitsValue(RemoveCommas(WithThousands(j.minSalary.GetOr(0)))) == j.minSalary.GetOr(0)
    ensures DigitsValue(RemoveCommas(WithThousands(j.maxSalary.GetOr(0)))) == j.maxSalary.GetOr(0)
  {
    ThousandsRoundTrip(j.minSalary.GetOr(0));
    ThousandsRoundTrip(j.maxSalary.GetOr(0));
  }
}
