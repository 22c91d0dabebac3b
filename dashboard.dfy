/**
 * The dashboard routes: `/summary` (tracking counts, profile completion and the
 * three most recently updated saved and applied jobs) and `/skills` (how often
 * thirty common skills occur in a sample of cached jobs, the top ten, and the
 * ones the user's resume lacks).
 */
module Dashboard {
  import opened Wrappers
  import opened Text
  import opened Sorting
  import opened Postings
  import TextSimilarity
  import ResumeParser
  import ResumeRoutes
  import Recommend
  import JobTracking

  type Entry = JobTracking.Entry
  type StoredDoc = Recommend.StoredDoc
  type StoredResume = ResumeRoutes.StoredResume

  // ---------------------------------------------------------------------------
  // Summary

  /** The points each completed step adds to `profile_completion`, and its cap. */
  const ResumePoints := 30
  const SkillsPoints := 20
  const ExperiencePoints := 20
  const TrackingPoints := 10
  const CachePoints := 20
  const MaxCompletion: nat := 100

  /** How many entries of each status the recent-activity lists show. */
  const RecentLimit := 3

  datatype Stats = Stats(recommended: nat, saved: nat, applied: nat, notInterested: nat)

  /** `experienceTenths` is `experience_years` in tenths of a year. */
  datatype Profile = Profile(skillsCount: nat, experienceTenths: nat, completion: nat)

  /** One formatted tracking entry; `id` is the string form of its `_id`. */
  datatype Activity = Activity(id: string, jobId: string, title: JobTracking.Value, company: JobTracking.Value,
                               status: string, updatedAt: Instant)

  datatype Summary = Summary(stats: Stats, profile: Profile, savedJobs: seq<Activity>, appliedJobs: seq<Activity>)

  /** The number of the user's tracking entries with the given status. */
  function CountWith(entries: seq<Entry>, userId: string, status: string): nat {
    |JobTracking.Selected(entries, userId, status)|
  }

  function StatsOf(entries: seq<Entry>, cached: seq<StoredDoc>, userId: string): Stats {
    Stats(|cached|, CountWith(entries, userId, "saved"), CountWith(entries, userId, "applied"),
          CountWith(entries, userId, "not_interested"))
  }

  /** The points earned by one step: `points` when it is completed. */
  function Earned(done: bool, points: nat): nat {
    if done then points else 0
  }

  /**
   * `profile_completion`: the skills and experience steps count only with a resume,
   * and the total is capped at 100.
   */
  function Completion(hasResume: bool, skillsCount: nat, experienceTenths: nat, tracked: nat, recommended: nat): (c: nat)
    ensures c <= MaxCompletion
    ensures c == MaxCompletion <==> hasResume && skillsCount > 0 && experienceTenths > 0 && tracked > 0 && recommended > 0
    ensures !hasResume ==> c <= ResumePoints
  {
    var total := Earned(hasResume, ResumePoints) + Earned(hasResume && skillsCount > 0, SkillsPoints)
      + Earned(hasResume && experienceTenths > 0, ExperiencePoints)
      + Earned(tracked > 0, TrackingPoints) + Earned(recommended > 0, CachePoints);
    if total <= MaxCompletion then total else MaxCompletion
  }

  /** The user's resume fields as `find_one` returns them, if any. */
  function ResumeOf(resumes: seq<StoredResume>, userId: string): Option<ResumeRoutes.ResumeFields> {
    var i := ResumeRoutes.FindResume(resumes, userId);
    if i >= 0 then Some(resumes[i].fields) else None
  }

  function ProfileOf(resume: Option<ResumeRoutes.ResumeFields>, stats: Stats, now: TextSimilarity.YearMonth): Profile {
    var skillsCount := if resume.Some? then |resume.value.skills| else 0;
    var experience := if resume.Some? then TextSimilarity.YearsOfExperience(resume.value.experience, now) else 0;
    Profile(skillsCount, experience,
            Completion(resume.Some?, skillsCount, experience, stats.saved + stats.applied + stats.notInterested,
                       stats.recommended))
  }

  /** The formatted entry: title and company fall back to "Unknown Title" and "Unknown Company". */
  function ActivityOf(e: Entry): (a: Activity)
    ensures a.status == e.status && a.updatedAt == e.updatedAt && a.jobId == e.jobId
    ensures "title" !in e.jobData ==> a.title == JobTracking.Text("Unknown Title")
    ensures "company" !in e.jobData ==> a.company == JobTracking.Text("Unknown Company")
  {
    Activity(NatToString(e.id), e.jobId,
             if "title" in e.jobData then e.jobData["title"] else JobTracking.Text("Unknown Title"),
             if "company" in e.jobData then e.jobData["company"] else JobTracking.Text("Unknown Company"),
             e.status, e.updatedAt)
  }

  function Activities(docs: seq<Entry>): (r: seq<Activity>)
    ensures |r| == |docs|
  {
    seq(|docs|, k requires 0 <= k < |docs| => ActivityOf(docs[k]))
  }

  /** `find(user, status).sort("updated_at", -1).limit(3)`. */
  function Recent(entries: seq<Entry>, userId: string, status: string): seq<Entry> {
    ResumeParser.Take(JobTracking.ByUpdate(JobTracking.Selected(entries, userId, status)), RecentLimit)
  }

  function SummaryOf(entries: seq<Entry>, resumes: seq<StoredResume>, cached: seq<StoredDoc>, userId: string,
                     now: TextSimilarity.YearMonth): Summary
  {
    var stats := StatsOf(entries, cached, userId);
    Summary(stats, ProfileOf(ResumeOf(resumes, userId), stats, now),
            Activities(Recent(entries, userId, "saved")), Activities(Recent(entries, userId, "applied")))
  }

  /** `format_activity`: one formatted item per tracking entry, in order. */
  method FormatActivity(docs: seq<Entry>) returns (activity: seq<Activity>)
    ensures activity == Activities(docs)
  {
    activity := [];
    for i := 0 to |docs|
      invariant activity == Activities(docs[..i])
    {
      activity := activity + [ActivityOf(docs[i])];
    }
    assert docs[..|docs|] == docs;
  }

  /** `get_dashboard_summary`, with the completion accumulated step by step. */
  method GetDashboardSummary(entries: seq<Entry>, resumes: seq<StoredResume>, cached: seq<StoredDoc>, userId: string,
                             now: TextSimilarity.YearMonth) returns (summary: Summary)
    ensures summary == SummaryOf(entries, resumes, cached, userId, now)
  {
    var totalRecommended := |cached|;
    var savedCount := CountWith(entries, userId, "saved");
    var appliedCount := CountWith(entries, userId, "applied");
    var notInterestedCount := CountWith(entries, userId, "not_interested");
    var resume := ResumeOf(resumes, userId);
    var skillsCount := 0;
    var experienceYears := 0;
    var profileCompletion := 0;
    if resume.Some? {
      skillsCount := |resume.value.skills|;
      experienceYears := TextSimilarity.ExtractYearsOfExperience(resume.value.experience, now);
      profileCompletion := profileCompletion + ResumePoints;
      if skillsCount > 0 {
        profileCompletion := profileCompletion + SkillsPoints;
      }
      if experienceYears > 0 {
        profileCompletion := profileCompletion + ExperiencePoints;
      }
    }
    var totalTracking := savedCount + appliedCount + notInterestedCount;
    if totalTracking > 0 {
      profileCompletion := profileCompletion + TrackingPoints;
    }
    if totalRecommended > 0 {
      profileCompletion := profileCompletion + CachePoints;
    }
    if profileCompletion > MaxCompletion {
      profileCompletion := MaxCompletion;
    }
    var savedJobs := FormatActivity(Recent(entries, userId, "saved"));
    var appliedJobs := FormatActivity(Recent(entries, userId, "applied"));
    summary := Summary(Stats(totalRecommended, savedCount, appliedCount, notInterestedCount),
                       Profile(skillsCount, experienceYears, profileCompletion), savedJobs, appliedJobs);
  }

  /** The five steps add up to exactly 100, so the cap never lowers the total. */
  lemma CapNeverBinds(hasResume: bool, skillsCount: nat, experienceTenths: nat, tracked: nat, recommended: nat)
    ensures Completion(hasResume, skillsCount, experienceTenths, tracked, recommended)
         == Earned(hasResume, ResumePoints) + Earned(hasResume && skillsCount > 0, SkillsPoints)
          + Earned(hasResume && experienceTenths > 0, ExperiencePoints)
          + Earned(tracked > 0, TrackingPoints) + Earned(recommended > 0, CachePoints)
  {
  }

  /**
   * Without a resume the profile shows no skills and no experience, and
   * completion is at most 30 (tracking and cached jobs only).
   */
  lemma NoResumeProfile(entries: seq<Entry>, resumes: seq<StoredResume>, cached: seq<StoredDoc>, userId: string,
                        now: TextSimilarity.YearMonth)
    requires forall k :: 0 <= k < |resumes| ==> resumes[k].userId != userId
    ensures var p := SummaryOf(entries, resumes, cached, userId, now).profile;
      p.skillsCount == 0 && p.experienceTenths == 0 && p.completion <= ResumePoints
  {
  }

  /** Full completion needs a resume with skills and experience, some tracking and some cached job. */
  lemma FullCompletion(entries: seq<Entry>, resumes: seq<StoredResume>, cached: seq<StoredDoc>, userId: string,
                       now: TextSimilarity.YearMonth)
    ensures var s := SummaryOf(entries, resumes, cached, userId, now);
      var resume := ResumeOf(resumes, userId);
      s.profile.completion == MaxCompletion <==>
        (&& resume.Some? && resume.value.skills != []
         && TextSimilarity.YearsOfExperience(resume.value.experience, now) > 0
         && s.stats.saved + s.stats.applied + s.stats.notInterested > 0
         && cached != [])
  {
  }

  /**
   * The tracking counts are the numbers of the user's entries with each status,
   * and any of them is positive iff the user tracks a job with that status.
   */
  lemma {:induction false} CountWithSpec(entries: seq<Entry>, userId: string, status: string)
    requires status != ""
    ensures CountWith(entries, userId, status) > 0 <==>
      exists k :: 0 <= k < |entries| && entries[k].userId == userId && entries[k].status == status
    ensures CountWith(entries, userId, status) <= |entries|
  {
    JobTracking.SelectedMembers(entries, userId, status);
    var sel := JobTracking.Selected(entries, userId, status);
    if sel != [] {
      assert sel[0] in sel;
      var k :| 0 <= k < |entries| && entries[k] == sel[0];
    } else {
      forall k | 0 <= k < |entries| ensures !(entries[k].userId == userId && entries[k].status == status) {
        assert entries[k] in entries;
      }
    }
  }

  /**
   * The recent list shows the user's entries with the status, at most three, newest
   * update first; it shows all of them when there are at most three, and otherwise
   * every entry it leaves out was updated no later than the last one shown.
   */
  lemma RecentSpec(entries: seq<Entry>, userId: string, status: string)
    requires status != ""
    ensures var sel := JobTracking.Selected(entries, userId, status);
      var r := Recent(entries, userId, status);
      && |r| == (if |sel| <= RecentLimit then |sel| else RecentLimit)
      && (forall k :: 0 <= k < |r| ==> r[k] in entries && r[k].userId == userId && r[k].status == status)
      && (forall i, j :: 0 <= i < j < |r| ==> r[i].updatedAt >= r[j].updatedAt)
      && (forall e :: e in entries && e.userId == userId && e.status == status && e !in r ==>
            |r| == RecentLimit && e.updatedAt <= r[RecentLimit - 1].updatedAt)
  {
    var sel := JobTracking.Selected(entries, userId, status);
    var sorted := JobTracking.ByUpdate(sel);
    JobTracking.SelectedMembers(entries, userId, status);
    SortByMembers(sel, JobTracking.UpdatedKey, Descending);
    DescendingIsOrder();
    SortBySorted(sel, JobTracking.UpdatedKey, Descending);
    NewestOfSorted(sorted, Recent(entries, userId, status));
  }

  /** The first entries of a list sorted by update time: newest first, and none left out is newer. */
  lemma NewestOfSorted(sorted: seq<Entry>, r: seq<Entry>)
    requires SortedBy(sorted, JobTracking.UpdatedKey, Descending)
    requires r == ResumeParser.Take(sorted, RecentLimit)
    ensures forall k :: 0 <= k < |r| ==> r[k] in sorted
    ensures forall i, j :: 0 <= i < j < |r| ==> r[i].updatedAt >= r[j].updatedAt
    ensures forall e :: e in sorted && e !in r ==> |r| == RecentLimit && e.updatedAt <= r[RecentLimit - 1].updatedAt
  {
    assert r == sorted[..|r|];
    forall i, j | 0 <= i < j < |r| ensures r[i].updatedAt >= r[j].updatedAt {
      assert !Descending(JobTracking.UpdatedKey(sorted[j]), JobTracking.UpdatedKey(sorted[i]));
    }
    forall k | 0 <= k < |r| ensures r[k] in sorted {
      assert r[k] == sorted[k];
    }
    forall e | e in sorted && e !in r ensures |r| == RecentLimit && e.updatedAt <= r[RecentLimit - 1].updatedAt {
      var j :| 0 <= j < |sorted| && sorted[j] == e;
      assert !Descending(JobTracking.UpdatedKey(sorted[j]), JobTracking.UpdatedKey(sorted[RecentLimit - 1]));
    }
  }

  /** Each activity item formats the recent entry in its place. */
  lemma ActivitiesSpec(docs: seq<Entry>)
    ensures forall k :: 0 <= k < |docs| ==> Activities(docs)[k] == ActivityOf(docs[k])
  {
  }

  // ---------------------------------------------------------------------------
  // Skill analytics

  /** The fixed list of skills looked for in the sampled jobs. */
  const CommonSkills: seq<string> := [
    "Python", "Java", "JavaScript", "React", "Node.js", "SQL", "NoSQL", "AWS", "Docker", "Kubernetes",
    "TypeScript", "Go", "Rust", "C++", "C#", "HTML", "CSS", "Git", "CI/CD", "Machine Learning",
    "AI", "FastAPI", "Django", "Flask", "Spring", "Vue", "Angular", "MongoDB", "PostgreSQL", "Redis"]

  /** How many cached jobs are sampled. */
  const SampleSize := 50

  /** How many skills `most_common` reports. */
  const TopSkills := 10

  /** A `Counter` entry, and an item of `recommended_skills`. */
  datatype SkillCount = SkillCount(skill: string, frequency: nat)

  datatype SkillAnalytics =
    | SkillsFailed
    | SkillAnalytics(topUserSkills: seq<string>, missingSkills: seq<string>, recommendedSkills: seq<SkillCount>)

  /** The lowercased description, a space and the title; both must be strings. */
  function JobText(d: StoredDoc): string
    requires Recommend.Scorable(d)
  {
    Lower(d.doc.job.description.value + " " + d.doc.job.title.value)
  }

  /** `\bskill\b` on the lowercased skill, except that "java" must not be followed by "script". */
  predicate SkillIn(text: string, skill: string) {
    if Lower(skill) == "java" then HasJava(text) else HasWord(text, Lower(skill))
  }

  /** The index of the counter entry for `s`, or -1. */
  function IndexOfSkill(counts: seq<SkillCount>, s: string): (r: int)
    ensures -1 <= r < |counts|
    ensures r >= 0 ==> counts[r].skill == s && forall k :: 0 <= k < r ==> counts[k].skill != s
    ensures r == -1 <==> forall k :: 0 <= k < |counts| ==> counts[k].skill != s
  {
    if counts == [] then -1
    else if counts[0].skill == s then 0
    else
      var r := IndexOfSkill(counts[1..], s);
      if r == -1 then -1 else r + 1
  }

  /** `counter[s]`: zero for a skill never counted. */
  function FreqOf(counts: seq<SkillCount>, s: string): nat {
    var i := IndexOfSkill(counts, s);
    if i >= 0 then counts[i].frequency else 0
  }

  /** `counter[s] += 1`: a counted skill keeps its place, a new one goes last. */
  function Increment(counts: seq<SkillCount>, s: string): seq<SkillCount> {
    var i := IndexOfSkill(counts, s);
    if i >= 0 then counts[i := SkillCount(s, counts[i].frequency + 1)] else counts + [SkillCount(s, 1)]
  }

  /** The counter after looking for each of `skills` in one job's text. */
  function CountJob(counts: seq<SkillCount>, text: string, skills: seq<string>): seq<SkillCount> {
    if skills == [] then counts
    else
      var n := |skills| - 1;
      var c := CountJob(counts, text, skills[..n]);
      if SkillIn(text, skills[n]) then Increment(c, skills[n]) else c
  }

  /** The counter after all the job texts. */
  function Tally(texts: seq<string>): seq<SkillCount> {
    if texts == [] then []
    else CountJob(Tally(texts[..|texts| - 1]), texts[|texts| - 1], CommonSkills)
  }

  /** The number of job texts in which the skill is found. */
  function JobsWith(texts: seq<string>, s: string): (n: nat)
    ensures n <= |texts|
  {
    if texts == [] then 0
    else JobsWith(texts[..|texts| - 1], s) + (if SkillIn(texts[|texts| - 1], s) then 1 else 0)
  }

  function FrequencyKey(c: SkillCount): int {
    c.frequency
  }

  /** `most_common(10)`: by count, most frequent first, equal counts in counter order. */
  function MostCommon(counts: seq<SkillCount>): seq<SkillCount> {
    ResumeParser.Take(SortBy(counts, FrequencyKey, Descending), TopSkills)
  }

  function LowerAll(skills: seq<string>): set<string> {
    set s | s in skills :: Lower(s)
  }

  /** The recommended skill names whose lowercase form the user's skills lack, in order. */
  function Missing(recommended: seq<SkillCount>, userLower: set<string>): seq<string> {
    if recommended == [] then []
    else
      var n := |recommended| - 1;
      Missing(recommended[..n], userLower)
        + (if Lower(recommended[n].skill) !in userLower then [recommended[n].skill] else [])
  }

  function Texts(docs: seq<StoredDoc>): (r: seq<string>)
    requires Recommend.AllScorable(docs)
    ensures |r| == |docs|
  {
    seq(|docs|, k requires 0 <= k < |docs| => JobText(docs[k]))
  }

  /** `get_skill_analytics`: a sampled job without a string description or title fails the request. */
  function SkillAnalyticsOf(resumes: seq<StoredResume>, cached: seq<StoredDoc>, userId: string): SkillAnalytics {
    var resume := ResumeOf(resumes, userId);
    var userSkills := if resume.Some? then resume.value.skills else [];
    var sample := ResumeParser.Take(cached, SampleSize);
    if !Recommend.AllScorable(sample) then SkillsFailed
    else
      var recommended := MostCommon(Tally(Texts(sample)));
      SkillAnalytics(ResumeParser.Take(userSkills, TopSkills), Missing(recommended, LowerAll(userSkills)), recommended)
  }

  /** The inner loop: look for each common skill in one job's text. */
  method CountSkills(counts: seq<SkillCount>, text: string) returns (counted: seq<SkillCount>)
    ensures counted == CountJob(counts, text, CommonSkills)
  {
    counted := counts;
    for j := 0 to |CommonSkills|
      invariant counted == CountJob(counts, text, CommonSkills[..j])
    {
      assert CommonSkills[..j + 1][..j] == CommonSkills[..j];
      var skill := CommonSkills[j];
      var found := if Lower(skill) == "java" then HasJava(text) else HasWord(text, Lower(skill));
      if found {
        counted := Increment(counted, skill);
      }
    }
    assert CommonSkills[..|CommonSkills|] == CommonSkills;
  }

  /** The missing-skills loop. */
  method MissingSkills(recommended: seq<SkillCount>, userSkills: seq<string>) returns (missing: seq<string>)
    ensures missing == Missing(recommended, LowerAll(userSkills))
  {
    var userLower := LowerAll(userSkills);
    missing := [];
    for i := 0 to |recommended|
      invariant missing == Missing(recommended[..i], userLower)
    {
      assert recommended[..i + 1][..i] == recommended[..i];
      if Lower(recommended[i].skill) !in userLower {
        missing := missing + [recommended[i].skill];
      }
    }
    assert recommended[..|recommended|] == recommended;
  }

  method GetSkillAnalytics(resumes: seq<StoredResume>, cached: seq<StoredDoc>, userId: string)
    returns (r: SkillAnalytics)
    ensures r == SkillAnalyticsOf(resumes, cached, userId)
  {
    var resume := ResumeOf(resumes, userId);
    var userSkills := if resume.Some? then resume.value.skills else [];
    var recentJobs := ResumeParser.Take(cached, SampleSize);
    var counts: seq<SkillCount> := [];
    for i := 0 to |recentJobs|
      invariant Recommend.AllScorable(recentJobs[..i])
      invariant counts == Tally(Texts(recentJobs[..i]))
    {
      if !Recommend.Scorable(recentJobs[i]) {
        assert !Recommend.AllScorable(recentJobs);
        return SkillsFailed;
      }
      var prefix := recentJobs[..i + 1];
      assert Recommend.AllScorable(prefix) by {
        forall k | 0 <= k < |prefix| ensures Recommend.Scorable(prefix[k]) {
          if k < i {
            assert prefix[k] == recentJobs[..i][k];
          }
        }
      }
      assert Texts(prefix)[..i] == Texts(recentJobs[..i]);
      counts := CountSkills(counts, JobText(recentJobs[i]));
    }
    assert recentJobs[..|recentJobs|] == recentJobs;
    var recommended := MostCommon(counts);
    var missing := MissingSkills(recommended, userSkills);
    r := SkillAnalytics(ResumeParser.Take(userSkills, TopSkills), missing, recommended);
  }

  // ---------------------------------------------------------------------------
  // Properties of the skill analytics

  /** No two counter entries name the same skill. */
  predicate UniqueSkills(counts: seq<SkillCount>) {
    forall i, j :: 0 <= i < j < |counts| ==> counts[i].skill != counts[j].skill
  }

  /** Every entry names a common skill and was counted at least once. */
  predicate CountedEntries(counts: seq<SkillCount>) {
    forall k :: 0 <= k < |counts| ==> counts[k].skill in CommonSkills && counts[k].frequency >= 1
  }

  predicate DistinctNames(skills: seq<string>) {
    forall i, j :: 0 <= i < j < |skills| ==> skills[i] != skills[j]
  }

  lemma CommonSkillsDistinct()
    ensures DistinctNames(CommonSkills)
  {
    FirstTenDistinct();
    FirstSecondDistinct();
    FirstThirdDistinct();
    SecondTenDistinct();
    SecondThirdDistinct();
    ThirdTenDistinct();
  }

  lemma FirstTenDistinct()
    ensures forall i, j :: 0 <= i < j < 10 ==> CommonSkills[i] != CommonSkills[j]
  {
  }

  lemma FirstSecondDistinct()
    ensures forall i, j :: 0 <= i < 10 <= j < 20 ==> CommonSkills[i] != CommonSkills[j]
  {
  }

  lemma FirstThirdDistinct()
    ensures forall i, j :: 0 <= i < 10 && 20 <= j < 30 ==> CommonSkills[i] != CommonSkills[j]
  {
  }

  lemma SecondTenDistinct()
    ensures forall i, j :: 10 <= i < j < 20 ==> CommonSkills[i] != CommonSkills[j]
  {
  }

  lemma SecondThirdDistinct()
    ensures forall i, j :: 10 <= i < 20 <= j < 30 ==> CommonSkills[i] != CommonSkills[j]
  {
  }

  lemma ThirdTenDistinct()
    ensures forall i, j :: 20 <= i < j < 30 ==> CommonSkills[i] != CommonSkills[j]
  {
  }

  /** Counters whose entries name the same skills in the same places find the same entries. */
  lemma SameSkillsSameIndex(a: seq<SkillCount>, b: seq<SkillCount>, s: string)
    requires |a| == |b| && forall k :: 0 <= k < |a| ==> a[k].skill == b[k].skill
    ensures IndexOfSkill(a, s) == IndexOfSkill(b, s)
  {
    var i, j := IndexOfSkill(a, s), IndexOfSkill(b, s);
    if i >= 0 && j >= 0 {
      assert !(i < j) && !(j < i);
    }
  }

  /** `counter[x] += 1` adds one to the count of `x` and leaves every other count alone. */
  lemma IncrementFreq(counts: seq<SkillCount>, x: string, s: string)
    ensures FreqOf(Increment(counts, x), s) == FreqOf(counts, s) + (if s == x then 1 else 0)
  {
    var i := IndexOfSkill(counts, x);
    var c := Increment(counts, x);
    if i >= 0 {
      SameSkillsSameIndex(counts, c, s);
    } else {
      var j := IndexOfSkill(counts, s);
      assert forall k :: 0 <= k < |counts| ==> c[k] == counts[k];
      assert c[|counts|].skill == x;
    }
  }

  /** `counter[x] += 1` for a common skill keeps the counter's shape. */
  lemma IncrementShape(counts: seq<SkillCount>, x: string)
    requires UniqueSkills(counts) && CountedEntries(counts) && x in CommonSkills
    ensures UniqueSkills(Increment(counts, x)) && CountedEntries(Increment(counts, x))
  {
  }

  /** One job adds one to the count of each of the (distinct) skills found in it. */
  lemma {:induction false} CountJobFreq(counts: seq<SkillCount>, text: string, skills: seq<string>, s: string)
    requires DistinctNames(skills)
    ensures FreqOf(CountJob(counts, text, skills), s)
         == FreqOf(counts, s) + (if s in skills && SkillIn(text, s) then 1 else 0)
  {
    if skills != [] {
      var n := |skills| - 1;
      CountJobFreq(counts, text, skills[..n], s);
      var c := CountJob(counts, text, skills[..n]);
      if SkillIn(text, skills[n]) {
        IncrementFreq(c, skills[n], s);
      }
      assert skills == skills[..n] + [skills[n]];
      assert skills[n] !in skills[..n];
    }
  }

  lemma {:induction false} CountJobShape(counts: seq<SkillCount>, text: string, skills: seq<string>)
    requires UniqueSkills(counts) && CountedEntries(counts)
    requires forall k :: 0 <= k < |skills| ==> skills[k] in CommonSkills
    ensures UniqueSkills(CountJob(counts, text, skills)) && CountedEntries(CountJob(counts, text, skills))
  {
    if skills != [] {
      var n := |skills| - 1;
      assert forall k :: 0 <= k < n ==> skills[..n][k] == skills[k];
      CountJobShape(counts, text, skills[..n]);
      IncrementShape(CountJob(counts, text, skills[..n]), skills[n]);
    }
  }

  /**
   * The counter holds each common skill at most once, and its count is the number
   * of jobs whose text contains it; other skills are never counted.
   */
  lemma {:induction false} TallyFreq(texts: seq<string>, s: string)
    ensures FreqOf(Tally(texts), s) == (if s in CommonSkills then JobsWith(texts, s) else 0)
    ensures UniqueSkills(Tally(texts)) && CountedEntries(Tally(texts))
  {
    if texts != [] {
      var n := |texts| - 1;
      TallyFreq(texts[..n], s);
      CommonSkillsDistinct();
      CountJobFreq(Tally(texts[..n]), texts[n], CommonSkills, s);
      CountJobShape(Tally(texts[..n]), texts[n], CommonSkills);
    }
  }

  /** In a counter without repeated skills, an entry's frequency is the count of its skill. */
  lemma EntryFreq(counts: seq<SkillCount>, k: nat)
    requires UniqueSkills(counts) && k < |counts|
    ensures FreqOf(counts, counts[k].skill) == counts[k].frequency
  {
    var i := IndexOfSkill(counts, counts[k].skill);
    assert !(i < k);
  }

  /**
   * Each counter entry is a common skill found in as many jobs as its frequency, at
   * least one; and every common skill found in some job has an entry.
   */
  lemma TallySpec(texts: seq<string>)
    ensures var t := Tally(texts);
      && UniqueSkills(t)
      && (forall k :: 0 <= k < |t| ==>
            t[k].skill in CommonSkills && t[k].frequency == JobsWith(texts, t[k].skill) >= 1)
      && (forall s :: s in CommonSkills && JobsWith(texts, s) > 0 ==> IndexOfSkill(t, s) >= 0)
  {
    var t := Tally(texts);
    TallyFreq(texts, "");
    forall k | 0 <= k < |t| ensures t[k].frequency == JobsWith(texts, t[k].skill) {
      TallyFreq(texts, t[k].skill);
      EntryFreq(t, k);
    }
    forall s | s in CommonSkills && JobsWith(texts, s) > 0 ensures IndexOfSkill(t, s) >= 0 {
      TallyFreq(texts, s);
    }
  }

  /** The elements with a given key in a prefix are a prefix of those in the whole. */
  lemma {:induction false} WithKeyPrefix<T>(a: seq<T>, b: seq<T>, key: T -> int, k: int)
    ensures WithKey(a, key, k) <= WithKey(a + b, key, k)
  {
    if a != [] {
      WithKeyPrefix(a[1..], b, key, k);
      assert (a + b)[1..] == a[1..] + b;
    }
  }

  /**
   * `most_common(10)`: at most ten counter entries, most frequent first; an entry left
   * out is no more frequent than the tenth, and entries of equal count keep counter order.
   */
  lemma MostCommonSpec(counts: seq<SkillCount>)
    ensures var r := MostCommon(counts);
      && |r| == (if |counts| <= TopSkills then |counts| else TopSkills)
      && (forall k :: 0 <= k < |r| ==> r[k] in counts)
      && (forall i, j :: 0 <= i < j < |r| ==> r[i].frequency >= r[j].frequency)
      && (forall c :: c in counts && c !in r ==> |r| == TopSkills && c.frequency <= r[TopSkills - 1].frequency)
      && (forall f :: WithKey(r, FrequencyKey, f) <= WithKey(counts, FrequencyKey, f))
  {
    var sorted := SortBy(counts, FrequencyKey, Descending);
    var r := MostCommon(counts);
    SortByMembers(counts, FrequencyKey, Descending);
    DescendingIsOrder();
    SortBySorted(counts, FrequencyKey, Descending);
    TopOfSorted(sorted, r);
    MostCommonKeepsCounterOrder(counts, sorted, r);
  }

  /** The first entries of a list sorted by frequency: in order, and none left out is more frequent. */
  lemma TopOfSorted(sorted: seq<SkillCount>, r: seq<SkillCount>)
    requires SortedBy(sorted, FrequencyKey, Descending)
    requires r == ResumeParser.Take(sorted, TopSkills)
    ensures forall k :: 0 <= k < |r| ==> r[k] in sorted
    ensures forall i, j :: 0 <= i < j < |r| ==> r[i].frequency >= r[j].frequency
    ensures forall c :: c in sorted && c !in r ==> |r| == TopSkills && c.frequency <= r[TopSkills - 1].frequency
  {
    assert r == sorted[..|r|];
    forall i, j | 0 <= i < j < |r| ensures r[i].frequency >= r[j].frequency {
      assert !Descending(FrequencyKey(sorted[j]), FrequencyKey(sorted[i]));
    }
    forall k | 0 <= k < |r| ensures r[k] in sorted {
      assert r[k] == sorted[k];
    }
    forall c | c in sorted && c !in r ensures |r| == TopSkills && c.frequency <= r[TopSkills - 1].frequency {
      var j :| 0 <= j < |sorted| && sorted[j] == c;
      assert !Descending(FrequencyKey(sorted[j]), FrequencyKey(sorted[TopSkills - 1]));
    }
  }

  /** Among equal counts the kept entries are a prefix of those of the counter, in its order. */
  lemma MostCommonKeepsCounterOrder(counts: seq<SkillCount>, sorted: seq<SkillCount>, r: seq<SkillCount>)
    requires sorted == SortBy(counts, FrequencyKey, Descending)
    requires r == ResumeParser.Take(sorted, TopSkills)
    ensures forall f :: WithKey(r, FrequencyKey, f) <= WithKey(counts, FrequencyKey, f)
  {
    DescendingIsOrder();
    forall f ensures WithKey(r, FrequencyKey, f) <= WithKey(counts, FrequencyKey, f) {
      SortByStable(counts, FrequencyKey, Descending, f);
      WithKeyPrefix(r, sorted[|r|..], FrequencyKey, f);
      assert r + sorted[|r|..] == sorted;
    }
  }

  /** The skill names of the recommended items, in order. */
  function Names(recommended: seq<SkillCount>): (r: seq<string>)
    ensures |r| == |recommended|
  {
    seq(|recommended|, k requires 0 <= k < |recommended| => recommended[k].skill)
  }

  /**
   * `missing_skills` holds exactly the recommended skills whose lowercase form is not
   * among the user's lowercased skills.
   */
  lemma {:induction false} MissingMembers(recommended: seq<SkillCount>, userLower: set<string>)
    ensures forall x :: x in Missing(recommended, userLower) <==> x in Names(recommended) && Lower(x) !in userLower
  {
    if recommended != [] {
      var n := |recommended| - 1;
      MissingMembers(recommended[..n], userLower);
      assert Names(recommended) == Names(recommended[..n]) + [recommended[n].skill];
    }
  }

  /** `missing_skills` keeps the recommended order. */
  lemma {:induction false} MissingInOrder(recommended: seq<SkillCount>, userLower: set<string>)
    ensures Subsequence(Missing(recommended, userLower), Names(recommended))
  {
    if recommended != [] {
      var n := |recommended| - 1;
      MissingInOrder(recommended[..n], userLower);
      var names := Names(recommended);
      assert names[..n] == Names(recommended[..n]);
      var m := Missing(recommended, userLower);
      if Lower(recommended[n].skill) !in userLower {
        assert m[..|m| - 1] == Missing(recommended[..n], userLower);
      } else {
        assert m == Missing(recommended[..n], userLower);
        assert Subsequence(m, names[..n]);
      }
    }
  }

  /**
   * On success the top user skills are the first ten resume skills, every recommended
   * item is a common skill with its number of sampled jobs (between 1 and 50), and
   * every missing skill is a recommended one. The request fails iff a sampled job
   * lacks a string description or title.
   */
  lemma SkillAnalyticsSpec(resumes: seq<StoredResume>, cached: seq<StoredDoc>, userId: string)
    ensures var r := SkillAnalyticsOf(resumes, cached, userId);
      var sample := ResumeParser.Take(cached, SampleSize);
      && (r.SkillsFailed? <==> exists k :: 0 <= k < |sample| && !Recommend.Scorable(sample[k]))
      && (r.SkillAnalytics? ==>
            && |r.recommendedSkills| <= TopSkills
            && (forall k :: 0 <= k < |r.recommendedSkills| ==>
                  && r.recommendedSkills[k].skill in CommonSkills
                  && r.recommendedSkills[k].frequency == JobsWith(Texts(sample), r.recommendedSkills[k].skill)
                  && 1 <= r.recommendedSkills[k].frequency <= SampleSize)
            && (forall x :: x in r.missingSkills ==> x in Names(r.recommendedSkills))
            && var resume := ResumeOf(resumes, userId);
            && var userSkills := if resume.Some? then resume.value.skills else [];
            && r.topUserSkills <= userSkills
            && |r.topUserSkills| == if |userSkills| <= TopSkills then |userSkills| else TopSkills)
  {
    var sample := ResumeParser.Take(cached, SampleSize);
    if Recommend.AllScorable(sample) {
      var recommended := MostCommon(Tally(Texts(sample)));
      RecommendedSpec(Texts(sample));
      var resume := ResumeOf(resumes, userId);
      MissingMembers(recommended, LowerAll(if resume.Some? then resume.value.skills else []));
    }
  }

  /** Every recommended skill is a common skill, counted once per job text that mentions it. */
  lemma RecommendedSpec(texts: seq<string>)
    ensures var r := MostCommon(Tally(texts));
      && |r| <= TopSkills
      && (forall k :: 0 <= k < |r| ==>
            && r[k].skill in CommonSkills
            && r[k].frequency == JobsWith(texts, r[k].skill)
            && 1 <= r[k].frequency <= |texts|)
  {
    var t := Tally(texts);
    var r := MostCommon(t);
    TallySpec(texts);
    MostCommonSpec(t);
    forall k | 0 <= k < |r|
      ensures r[k].skill in CommonSkills && r[k].frequency == JobsWith(texts, r[k].skill)
    {
      assert r[k] in t;
    }
  }

  /** "c++" has no word character at its end, so `\bc\+\+\b` needs one right after it. */
  lemma SymbolSkillNeedsWordCharAfter(text: string, i: int)
    requires WordAt(text, "c++", i)
    ensures WordCharAt(text, i + 3)
  {
    assert text[i + 2] == '+';
  }
}
