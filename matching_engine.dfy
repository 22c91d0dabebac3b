/**
 * `matching_engine`: the match score of one job against one resume
 * (`calculate_match_score`) and the ordering of scored jobs (`rank_jobs`).
 *
 * Scores are computed in exact rational arithmetic; years of experience are in
 * tenths, as `TextSimilarity.YearsOfExperience` returns them. The fuzzy ratio
 * and the clock are parameters.
 */
module MatchingEngine {
  import opened Wrappers
  import opened Text
  import opened Sorting
  import opened TextSimilarity
  import SkillExtraction

  /** A job document as the scorer reads it; `idText` is `str(job.get("_id"))`. */
  datatype Job = Job(
    jobId: Option<string>,
    idText: string,
    title: string,
    company: Option<string>,
    location: Option<string>,
    applyLink: Option<string>,
    source: Option<string>,
    postedDate: Option<string>,
    description: string)

  /** The resume fields the scorer reads. */
  datatype Resume = Resume(skills: seq<string>, experience: seq<string>, location: Option<string>)

  /** The dictionary `calculate_match_score` returns. */
  datatype MatchResult = MatchResult(
    jobId: string,
    title: string,
    company: Option<string>,
    location: Option<string>,
    matchScore: int,
    matchingSkills: seq<string>,
    missingSkills: seq<string>,
    experienceDifference: string,
    reason: string,
    applyLink: Option<string>,
    source: Option<string>,
    postedDate: Option<string>,
    description: string)

  /** The keywords searched for in every job (`common_tech_stack`). */
  const TechStack: seq<string> := ["python", "javascript", "react", "node", "aws", "docker", "sql", "java", "c++",
    "typescript", "go", "rust", "kubernetes", "html", "css", "django", "fastapi", "flask", "next.js", "vue"]

  // ---------------------------------------------------------------------------
  // Skills

  /** `(title + " " + description).lower()`. */
  function JobText(job: Job): string {
    Lower(job.title + " " + job.description)
  }

  /** The resume skills found as whole words in the job text, in resume order (duplicates kept). */
  function WordsFound(skills: seq<string>, text: string): (r: seq<string>)
    ensures forall x :: x in r <==> x in skills && HasWord(text, x)
  {
    if skills == [] then []
    else
      var n := |skills| - 1;
      assert forall x :: x in skills <==> x in skills[..n] || x == skills[n];
      WordsFound(skills[..n], text) + (if HasWord(text, skills[n]) then [skills[n]] else [])
  }

  /** The stack keywords whose pattern matches the job text, in stack order. */
  function TechHits(techs: seq<string>, text: string): (r: seq<string>)
    ensures forall x :: x in r <==> x in techs && SkillExtraction.VariationFound(text, x)
  {
    if techs == [] then []
    else
      var n := |techs| - 1;
      assert forall x :: x in techs <==> x in techs[..n] || x == techs[n];
      TechHits(techs[..n], text) + (if SkillExtraction.VariationFound(text, techs[n]) then [techs[n]] else [])
  }

  /** `implied` extended, in order, by the entries of `extra` not already present. */
  function AddAbsent(implied: seq<string>, extra: seq<string>): (r: seq<string>)
    ensures |implied| <= |r|
  {
    if extra == [] then implied
    else
      var n := |extra| - 1;
      var prefix := AddAbsent(implied, extra[..n]);
      if extra[n] in prefix then prefix else prefix + [extra[n]]
  }

  /** The entries of `xs` whose membership in `ys` is `inside`, in order. */
  function FilterIn(xs: seq<string>, ys: seq<string>, inside: bool): (r: seq<string>)
    ensures |r| <= |xs|
  {
    if xs == [] then []
    else
      var n := |xs| - 1;
      FilterIn(xs[..n], ys, inside) + (if (xs[n] in ys) == inside then [xs[n]] else [])
  }

  /** `job_implied_skills`: stack hits, then matched resume skills not already present. */
  function Implied(text: string, resumeSkills: seq<string>): seq<string> {
    AddAbsent(TechHits(TechStack, text), WordsFound(resumeSkills, text))
  }

  /** `matching_skills` after the refinement: the implied skills the resume has. */
  function MatchingOf(implied: seq<string>, resumeSkills: seq<string>): seq<string> {
    if implied == [] then [] else FilterIn(implied, resumeSkills, true)
  }

  /** `missing_skills[:5]`: the first five implied skills the resume lacks. */
  function MissingOf(implied: seq<string>, resumeSkills: seq<string>): seq<string> {
    var missing := FilterIn(implied, resumeSkills, false);
    if |missing| <= 5 then missing else missing[..5]
  }

  /** The skill component: the covered share of the implied skills, or 0.5 when none is implied. */
  function SkillScore(implied: seq<string>, resumeSkills: seq<string>): real {
    if implied == [] then 0.5
    else |FilterIn(implied, resumeSkills, true)| as real / |implied| as real
  }

  // ---------------------------------------------------------------------------
  // Role and experience

  /** The first line of the first experience entry, or "". */
  function CurrentRole(experience: seq<string>): string {
    if experience == [] then "" else SplitAll(experience[0], "\n")[0]
  }

  /** The role component: the similarity of the current role and the job title, over 100. */
  function RoleScore(experience: seq<string>, title: string, partialRatio: (string, string) -> Ratio): real {
    CalculateSimilarity(CurrentRole(experience), title, partialRatio) as real / 100.0
  }

  /** The required experience in tenths: what the description states, 1.0 years when it states nothing. */
  function RequiredTenths(description: string, now: YearMonth): nat {
    var t := YearsOfExperience([description], now);
    if t == 0 then 10 else t
  }

  /** The experience component: 1 when the requirement is met, else the fraction of it the candidate has. */
  function ExpScore(have: nat, need: nat): real
    requires need > 0
  {
    if have >= need then 1.0 else have as real / need as real
  }

  /** A number of tenths of a year as Python prints the float, e.g. "2.5". */
  function FormatTenths(t: nat): string {
    NatToString(t / 10) + "." + NatToString(t % 10)
  }

  /** `experience_difference`. */
  function ExpDifference(have: nat, need: nat): string {
    var core := "You have " + FormatTenths(have) + " years (Job needs " + FormatTenths(need) + "+)";
    if have >= need then core else "Gap: " + core
  }

  // ---------------------------------------------------------------------------
  // Location, score and reasons

  /** `(location or "").lower().strip()`. */
  function CleanLocation(location: Option<string>): string {
    Strip(Lower(location.GetOr("")))
  }

  /** The hard location filter. */
  predicate LocationEligible(userLocation: string, jobLocation: string) {
    userLocation == "" || Contains(jobLocation, userLocation) || Contains(userLocation, jobLocation)
    || Contains(jobLocation, "remote")
  }

  /** The bonus for a job in the candidate's own location. */
  function LocationBonus(userLocation: string, jobLocation: string): real {
    if userLocation != "" && Contains(jobLocation, userLocation) then 0.15 else 0.0
  }

  /** `min(int(final_score * 100), 100)`. */
  function FinalScore(skill: real, role: real, exp: real, bonus: real): int {
    var n := ((skill * 0.5 + role * 0.3 + exp * 0.2 + bonus) * 100.0).Floor;
    if n < 100 then n else 100
  }

  /** The reason notes, in their fixed order. */
  function ReasonNotes(isRemote: bool, bonus: real, skill: real, role: real, exp: real): seq<string> {
    LocationNote(isRemote, bonus) + SkillNote(skill) + RoleNote(role) + ExpNote(exp)
  }

  function LocationNote(isRemote: bool, bonus: real): seq<string> {
    if isRemote then ["Remote job"] else if bonus > 0.0 then ["Location match"] else []
  }

  function SkillNote(skill: real): seq<string> {
    if skill > 0.7 then ["Strong skill match"] else if skill > 0.4 then ["Good skill overlap"] else []
  }

  function RoleNote(role: real): seq<string> {
    if role > 0.8 then ["Role aligns perfectly"] else if role > 0.5 then ["Similar role"] else []
  }

  function ExpNote(exp: real): seq<string> {
    if exp == 1.0 then ["Experience requirement met"] else []
  }

  function ReasonText(notes: seq<string>): string {
    if notes == [] then "Partial match based on profile" else Join(notes, ", ")
  }

  /** The description preview: its first 200 characters and "...". */
  function Preview(description: string): string {
    (if |description| <= 200 then description else description[..200]) + "..."
  }

  function ResultJobId(job: Job): string {
    if job.jobId.Some? && job.jobId.value != "" then job.jobId.value else job.idText
  }

  /** What `calculate_match_score(job, resume)` returns. */
  function MatchScore(job: Job, resume: Resume, partialRatio: (string, string) -> Ratio, now: YearMonth): MatchResult {
    var resumeSkills := NormalizeSkills(resume.skills);
    var text := JobText(job);
    var implied := Implied(text, resumeSkills);
    var skill := SkillScore(implied, resumeSkills);
    var role := RoleScore(resume.experience, job.title, partialRatio);
    var have := YearsOfExperience(resume.experience, now);
    var need := RequiredTenths(job.description, now);
    var exp := ExpScore(have, need);
    var userLocation := CleanLocation(resume.location);
    var jobLocation := CleanLocation(job.location);
    if !LocationEligible(userLocation, jobLocation) then
      MatchResult(ResultJobId(job), job.title, job.company, job.location, 0, [], [], "Location mismatch",
        "Location does not match profile", job.applyLink, job.source, job.postedDate, Preview(job.description))
    else
      var bonus := LocationBonus(userLocation, jobLocation);
      var notes := ReasonNotes(Contains(jobLocation, "remote"), bonus, skill, role, exp);
      MatchResult(ResultJobId(job), job.title, job.company, job.location, FinalScore(skill, role, exp, bonus),
        MatchingOf(implied, resumeSkills), MissingOf(implied, resumeSkills), ExpDifference(have, need),
        ReasonText(notes), job.applyLink, job.source, job.postedDate, Preview(job.description))
  }

  // ---------------------------------------------------------------------------
  // The scorer, with its loops

  method FindWords(skills: seq<string>, text: string) returns (found: seq<string>)
    ensures found == WordsFound(skills, text)
  {
    found := [];
    for i := 0 to |skills|
      invariant found == WordsFound(skills[..i], text)
    {
      assert skills[..i + 1][..i] == skills[..i];
      if HasWord(text, skills[i]) {
        found := found + [skills[i]];
      }
    }
    assert skills[..|skills|] == skills;
  }

  method FindTechs(text: string) returns (hits: seq<string>)
    ensures hits == TechHits(TechStack, text)
  {
    hits := [];
    for i := 0 to |TechStack|
      invariant hits == TechHits(TechStack[..i], text)
    {
      assert TechStack[..i + 1][..i] == TechStack[..i];
      if SkillExtraction.VariationFound(text, TechStack[i]) {
        hits := hits + [TechStack[i]];
      }
    }
    assert TechStack[..|TechStack|] == TechStack;
  }

  method AppendAbsent(implied: seq<string>, extra: seq<string>) returns (r: seq<string>)
    ensures r == AddAbsent(implied, extra)
  {
    r := implied;
    for i := 0 to |extra|
      invariant r == AddAbsent(implied, extra[..i])
    {
      assert extra[..i + 1][..i] == extra[..i];
      if extra[i] !in r {
        r := r + [extra[i]];
      }
    }
    assert extra[..|extra|] == extra;
  }

  /** The skills half of `calculate_match_score`: both skill lists and the skill component. */
  method ScoreSkills(resumeSkills: seq<string>, jobText: string)
    returns (matchingSkills: seq<string>, missingSkills: seq<string>, skillScore: real)
    ensures var implied := Implied(jobText, resumeSkills);
      && matchingSkills == MatchingOf(implied, resumeSkills)
      && missingSkills == MissingOf(implied, resumeSkills)
      && skillScore == SkillScore(implied, resumeSkills)
  {
    matchingSkills := FindWords(resumeSkills, jobText);
    var jobImplied := FindTechs(jobText);
    jobImplied := AppendAbsent(jobImplied, matchingSkills);
    if jobImplied == [] {
      skillScore := 0.5;
      missingSkills := [];
      matchingSkills := [];
    } else {
      var intersection := FilterIn(jobImplied, resumeSkills, true);
      skillScore := |intersection| as real / |jobImplied| as real;
      matchingSkills := intersection;
      missingSkills := FilterIn(jobImplied, resumeSkills, false);
    }
    missingSkills := if |missingSkills| <= 5 then missingSkills else missingSkills[..5];
  }

  /** The reason notes, appended one tier at a time. */
  method BuildReasons(isRemote: bool, locationScore: real, skillScore: real, roleSimilarity: real, expScore: real)
    returns (reasons: seq<string>)
    ensures reasons == ReasonNotes(isRemote, locationScore, skillScore, roleSimilarity, expScore)
  {
    reasons := [];
    if isRemote {
      reasons := reasons + ["Remote job"];
    } else if locationScore > 0.0 {
      reasons := reasons + ["Location match"];
    }
    assert reasons == LocationNote(isRemote, locationScore);
    if skillScore > 0.7 {
      reasons := reasons + ["Strong skill match"];
    } else if skillScore > 0.4 {
      reasons := reasons + ["Good skill overlap"];
    }
    assert reasons == LocationNote(isRemote, locationScore) + SkillNote(skillScore);
    if roleSimilarity > 0.8 {
      reasons := reasons + ["Role aligns perfectly"];
    } else if roleSimilarity > 0.5 {
      reasons := reasons + ["Similar role"];
    }
    assert reasons == LocationNote(isRemote, locationScore) + SkillNote(skillScore) + RoleNote(roleSimilarity);
    if expScore == 1.0 {
      reasons := reasons + ["Experience requirement met"];
    }
  }

  /** `calculate_match_score(job, resume)`. */
  method CalculateMatchScore(job: Job, resume: Resume, partialRatio: (string, string) -> Ratio, now: YearMonth)
    returns (r: MatchResult)
    ensures r == MatchScore(job, resume, partialRatio, now)
  {
    var resumeSkills := NormalizeSkills(resume.skills);
    var matchingSkills, missingSkills, skillScore := ScoreSkills(resumeSkills, JobText(job));
    var roleSimilarity := RoleScore(resume.experience, job.title, partialRatio);
    var userExpYears := ExtractYearsOfExperience(resume.experience, now);
    var jobReqExp := ExtractYearsOfExperience([job.description], now);
    if jobReqExp == 0 {
      jobReqExp := 10;
    }
    var expScore: real;
    if userExpYears >= jobReqExp {
      expScore := 1.0;
    } else {
      expScore := userExpYears as real / jobReqExp as real;
    }
    var expDiff := ExpDifference(userExpYears, jobReqExp);
    var userLocation := CleanLocation(resume.location);
    var jobLocation := CleanLocation(job.location);
    var isRemote := Contains(jobLocation, "remote");
    if !LocationEligible(userLocation, jobLocation) {
      return MatchResult(ResultJobId(job), job.title, job.company, job.location, 0, [], [], "Location mismatch",
        "Location does not match profile", job.applyLink, job.source, job.postedDate, Preview(job.description));
    }
    var locationScore := 0.0;
    if userLocation != "" && Contains(jobLocation, userLocation) {
      locationScore := 0.15;
    }
    var finalScore := FinalScore(skillScore, roleSimilarity, expScore, locationScore);
    var reasons := BuildReasons(isRemote, locationScore, skillScore, roleSimilarity, expScore);
    r := MatchResult(ResultJobId(job), job.title, job.company, job.location, finalScore, matchingSkills, missingSkills,
      expDiff, ReasonText(reasons), job.applyLink, job.source, job.postedDate, Preview(job.description));
  }

  // ---------------------------------------------------------------------------
  // Properties of the score

  /** The components lie in [0, 1]. */
  lemma SkillScoreBounds(implied: seq<string>, resumeSkills: seq<string>)
    ensures 0.0 <= SkillScore(implied, resumeSkills) <= 1.0
  {
    if implied != [] {
      var k := |FilterIn(implied, resumeSkills, true)| as real;
      var n := |implied| as real;
      assert k <= n;
      assert k / n <= 1.0 by {
        assert k / n * n == k;
      }
    }
  }

  lemma ExpScoreSpec(have: nat, need: nat)
    requires need > 0
    ensures 0.0 <= ExpScore(have, need) <= 1.0
    ensures ExpScore(have, need) == 1.0 <==> have >= need
  {
    if have < need {
      var h := have as real;
      var n := need as real;
      assert h / n * n == h;
    }
  }

  lemma RoleScoreBounds(experience: seq<string>, title: string, partialRatio: (string, string) -> Ratio)
    ensures 0.0 <= RoleScore(experience, title, partialRatio) <= 1.0
  {
  }

  /** With every component in [0, 1] and a bonus of 0 or 0.15, the score lies in 0..100. */
  lemma FinalScoreBounds(skill: real, role: real, exp: real, bonus: real)
    requires 0.0 <= skill <= 1.0 && 0.0 <= role <= 1.0 && 0.0 <= exp <= 1.0 && 0.0 <= bonus
    ensures 0 <= FinalScore(skill, role, exp, bonus) <= 100
  {
  }

  /** A perfect profile scores 100, with or without the location bonus. */
  lemma FinalScorePerfect(bonus: real)
    requires bonus >= 0.0
    ensures FinalScore(1.0, 1.0, 1.0, bonus) == 100
  {
  }

  /** The score never decreases when a component or the bonus grows. */
  lemma FinalScoreMonotone(skill: real, role: real, exp: real, bonus: real,
                           skill': real, role': real, exp': real, bonus': real)
    requires skill <= skill' && role <= role' && exp <= exp' && bonus <= bonus'
    ensures FinalScore(skill, role, exp, bonus) <= FinalScore(skill', role', exp', bonus')
  {
  }

  /** Every score `calculate_match_score` returns lies in 0..100. */
  lemma MatchScoreBounds(job: Job, resume: Resume, partialRatio: (string, string) -> Ratio, now: YearMonth)
    ensures 0 <= MatchScore(job, resume, partialRatio, now).matchScore <= 100
  {
    var resumeSkills := NormalizeSkills(resume.skills);
    var implied := Implied(JobText(job), resumeSkills);
    SkillScoreBounds(implied, resumeSkills);
    RoleScoreBounds(resume.experience, job.title, partialRatio);
    var need := RequiredTenths(job.description, now);
    ExpScoreSpec(YearsOfExperience(resume.experience, now), need);
    var bonus := LocationBonus(CleanLocation(resume.location), CleanLocation(job.location));
    FinalScoreBounds(SkillScore(implied, resumeSkills), RoleScore(resume.experience, job.title, partialRatio),
      ExpScore(YearsOfExperience(resume.experience, now), need), bonus);
  }

  /**
   * The location gate: an ineligible job scores 0 with no skills and the mismatch
   * texts, and an eligible one never carries the mismatch text.
   */
  lemma LocationGate(job: Job, resume: Resume, partialRatio: (string, string) -> Ratio, now: YearMonth)
    ensures var r := MatchScore(job, resume, partialRatio, now);
      var u := CleanLocation(resume.location);
      var j := CleanLocation(job.location);
      && (!LocationEligible(u, j) ==>
            r.matchScore == 0 && r.matchingSkills == [] && r.missingSkills == []
            && r.experienceDifference == "Location mismatch" && r.reason == "Location does not match profile")
      && (LocationEligible(u, j) ==> r.experienceDifference != "Location mismatch")
  {
    var have := YearsOfExperience(resume.experience, now);
    var need := RequiredTenths(job.description, now);
    var d := ExpDifference(have, need);
    assert d[0] == 'Y' || d[0] == 'G';
  }

  /**
   * The notes are empty exactly when no tier applies; a remote job is always noted
   * first, and a met requirement always last.
   */
  lemma ReasonNotesSpec(isRemote: bool, bonus: real, skill: real, role: real, exp: real)
    ensures var notes := ReasonNotes(isRemote, bonus, skill, role, exp);
      && (notes == [] <==> !isRemote && bonus <= 0.0 && skill <= 0.4 && role <= 0.5 && exp != 1.0)
      && (isRemote <==> notes != [] && notes[0] == "Remote job")
      && (exp == 1.0 <==> notes != [] && notes[|notes| - 1] == "Experience requirement met")
      && |notes| <= 4
  {
  }

  /** An empty profile location, or a remote job, always passes the gate. */
  lemma EligibleCases(userLocation: string, jobLocation: string)
    ensures userLocation == "" ==> LocationEligible(userLocation, jobLocation)
    ensures Contains(jobLocation, "remote") ==> LocationEligible(userLocation, jobLocation)
    ensures Contains(jobLocation, userLocation) ==> LocationEligible(userLocation, jobLocation)
    ensures jobLocation == "" ==> LocationEligible(userLocation, jobLocation)
  {
    ContainsEmpty(userLocation);
  }

  // ---------------------------------------------------------------------------
  // Properties of the skill lists

  lemma {:induction false} FilterInSpec(xs: seq<string>, ys: seq<string>, inside: bool)
    ensures forall x :: x in FilterIn(xs, ys, inside) <==> x in xs && (x in ys) == inside
  {
    if xs != [] {
      var n := |xs| - 1;
      FilterInSpec(xs[..n], ys, inside);
      assert forall x :: x in xs <==> x in xs[..n] || x == xs[n];
    }
  }

  /** The covered and the missing implied skills together are the implied skills. */
  lemma {:induction false} FilterInSplit(xs: seq<string>, ys: seq<string>)
    ensures |FilterIn(xs, ys, true)| + |FilterIn(xs, ys, false)| == |xs|
  {
    if xs != [] {
      FilterInSplit(xs[..|xs| - 1], ys);
    }
  }

  lemma {:induction false} FilterInDistinct(xs: seq<string>, ys: seq<string>, inside: bool)
    requires Distinct(xs)
    ensures Distinct(FilterIn(xs, ys, inside))
  {
    if xs != [] {
      var n := |xs| - 1;
      assert Distinct(xs[..n]) by {
        forall i, j | 0 <= i < j < n ensures xs[..n][i] != xs[..n][j] {
          assert xs[..n][i] == xs[i] && xs[..n][j] == xs[j];
        }
      }
      FilterInDistinct(xs[..n], ys, inside);
      FilterInSpec(xs[..n], ys, inside);
      assert xs[n] !in xs[..n];
    }
  }

  /** No value occurs twice. */
  predicate Distinct(s: seq<string>) {
    forall i, j :: 0 <= i < j < |s| ==> s[i] != s[j]
  }

  /** Appending only absent entries keeps a list distinct and adds exactly the entries of `extra`. */
  lemma {:induction false} AddAbsentSpec(implied: seq<string>, extra: seq<string>)
    requires Distinct(implied)
    ensures Distinct(AddAbsent(implied, extra))
    ensures forall x :: x in AddAbsent(implied, extra) <==> x in implied || x in extra
    ensures AddAbsent(implied, extra)[..|implied|] == implied
  {
    if extra != [] {
      var n := |extra| - 1;
      AddAbsentSpec(implied, extra[..n]);
      assert forall x :: x in extra <==> x in extra[..n] || x == extra[n];
    }
  }

  lemma StackDistinct()
    ensures Distinct(TechStack)
  {
    assert forall j :: 1 <= j < 20 ==> TechStack[j] != TechStack[0];
    assert forall i, j :: 1 <= i < j < 10 ==> TechStack[i] != TechStack[j];
    assert forall i, j :: 1 <= i < 10 <= j < 20 ==> TechStack[i] != TechStack[j];
    assert forall i, j :: 10 <= i < j < 20 ==> TechStack[i] != TechStack[j];
  }

  lemma {:induction false} TechHitsDistinct(techs: seq<string>, text: string)
    requires Distinct(techs)
    ensures Distinct(TechHits(techs, text))
  {
    if techs != [] {
      var n := |techs| - 1;
      assert Distinct(techs[..n]) by {
        forall i, j | 0 <= i < j < n ensures techs[..n][i] != techs[..n][j] {
          assert techs[..n][i] == techs[i] && techs[..n][j] == techs[j];
        }
      }
      TechHitsDistinct(techs[..n], text);
      assert techs[n] !in techs[..n];
    }
  }

  /**
   * The implied skills are distinct, and a skill is implied iff it is a stack keyword
   * whose pattern matches or a resume skill found as a whole word.
   */
  lemma ImpliedSpec(text: string, resumeSkills: seq<string>)
    ensures Distinct(Implied(text, resumeSkills))
    ensures forall x :: x in Implied(text, resumeSkills) <==>
      (x in TechStack && SkillExtraction.VariationFound(text, x)) || (x in resumeSkills && HasWord(text, x))
  {
    StackDistinct();
    TechHitsDistinct(TechStack, text);
    AddAbsentSpec(TechHits(TechStack, text), WordsFound(resumeSkills, text));
  }

  /**
   * `matching_skills` are exactly the implied skills the resume has and
   * `missing_skills` at most five implied skills it lacks, both distinct, and the
   * skill component is the covered share of the implied skills.
   */
  lemma SkillListsSpec(text: string, rs: seq<string>)
    ensures var implied := Implied(text, rs);
      var matching := MatchingOf(implied, rs);
      var missing := MissingOf(implied, rs);
      && (forall x :: x in matching <==> x in implied && x in rs)
      && (forall x :: x in missing ==> x in implied && x !in rs)
      && |missing| <= 5
      && Distinct(matching) && Distinct(missing)
      && (implied != [] ==>
            && |matching| + |FilterIn(implied, rs, false)| == |implied|
            && SkillScore(implied, rs) == |matching| as real / |implied| as real)
  {
    var implied := Implied(text, rs);
    ImpliedSpec(text, rs);
    FilterInSpec(implied, rs, true);
    FilterInSpec(implied, rs, false);
    FilterInDistinct(implied, rs, true);
    FilterInDistinct(implied, rs, false);
    FilterInSplit(implied, rs);
    var missing := FilterIn(implied, rs, false);
    if |missing| > 5 {
      assert forall x :: x in missing[..5] ==> x in missing;
    }
  }

  /** What the result's skill lists are, once the location gate is passed. */
  lemma MatchScoreSkills(job: Job, resume: Resume, partialRatio: (string, string) -> Ratio, now: YearMonth)
    requires LocationEligible(CleanLocation(resume.location), CleanLocation(job.location))
    ensures var r := MatchScore(job, resume, partialRatio, now);
      var rs := NormalizeSkills(resume.skills);
      var implied := Implied(JobText(job), rs);
      r.matchingSkills == MatchingOf(implied, rs) && r.missingSkills == MissingOf(implied, rs)
  {
  }

  // ---------------------------------------------------------------------------
  // rank_jobs

  function ScoreOf(r: MatchResult): int { r.matchScore }

  /** `x.get("posted_date") or ""`. */
  function DateOf(r: MatchResult): string { r.postedDate.GetOr("") }

  /** `>` on strings, the order of a `reverse=True` sort by a string key. */
  function LexGreater(a: string, b: string): bool { LexLess(b, a) }

  lemma LexGreaterIsOrder()
    ensures StrictTotalOrder(LexGreater)
  {
    forall a ensures !LexGreater(a, a) {
      LexIrreflexive(a);
    }
    forall a, b, c | LexGreater(a, b) && LexGreater(b, c) ensures LexGreater(a, c) {
      LexTransitive(c, b, a);
    }
    forall a, b | a != b ensures LexGreater(a, b) || LexGreater(b, a) {
      LexTotal(a, b);
    }
  }

  /** `rank_jobs(jobs, sort_key)`. */
  function RankJobs(jobs: seq<MatchResult>, sortKey: string): seq<MatchResult> {
    if sortKey == "match" then SortBy(jobs, ScoreOf, Descending)
    else if sortKey == "latest" then SortBy(jobs, DateOf, LexGreater)
    else jobs
  }

  /**
   * "match" orders by non-increasing score and "latest" by non-increasing date text,
   * each a stable permutation; every other key returns the input unchanged.
   */
  lemma RankJobsSpec(jobs: seq<MatchResult>, sortKey: string)
    ensures multiset(RankJobs(jobs, sortKey)) == multiset(jobs)
    ensures sortKey == "match" ==>
      && SortedBy(RankJobs(jobs, sortKey), ScoreOf, Descending)
      && forall k :: WithKey(RankJobs(jobs, sortKey), ScoreOf, k) == WithKey(jobs, ScoreOf, k)
    ensures sortKey == "latest" ==>
      && SortedBy(RankJobs(jobs, sortKey), DateOf, LexGreater)
      && forall k :: WithKey(RankJobs(jobs, sortKey), DateOf, k) == WithKey(jobs, DateOf, k)
    ensures sortKey != "match" && sortKey != "latest" ==> RankJobs(jobs, sortKey) == jobs
  {
    if sortKey == "match" {
      DescendingIsOrder();
      SortBySorted(jobs, ScoreOf, Descending);
      forall k ensures WithKey(RankJobs(jobs, sortKey), ScoreOf, k) == WithKey(jobs, ScoreOf, k) {
        SortByStable(jobs, ScoreOf, Descending, k);
      }
    } else if sortKey == "latest" {
      LexGreaterIsOrder();
      SortBySorted(jobs, DateOf, LexGreater);
      forall k ensures WithKey(RankJobs(jobs, sortKey), DateOf, k) == WithKey(jobs, DateOf, k) {
        SortByStable(jobs, DateOf, LexGreater, k);
      }
    }
  }

  /** Ranking by match puts a highest score first. */
  lemma RankByMatchFirst(jobs: seq<MatchResult>)
    requires jobs != []
    ensures forall x :: x in jobs ==> x.matchScore <= RankJobs(jobs, "match")[0].matchScore
  {
    var r := RankJobs(jobs, "match");
    RankJobsSpec(jobs, "match");
    SortByMembers(jobs, ScoreOf, Descending);
    forall x | x in jobs ensures x.matchScore <= r[0].matchScore {
      var i :| 0 <= i < |r| && r[i] == x;
      if i > 0 {
        assert !Descending(ScoreOf(r[i]), ScoreOf(r[0]));
      }
    }
  }
}
