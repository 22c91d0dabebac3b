/**
 * The hybrid job routes. `get_recommended_hybrid_jobs` searches the aggregator
 * with the resume's first skill, falls back to "Software Engineer" when that
 * yields fewer than five jobs, drops jobs whose title does not fit the
 * candidate's experience or that mention none of the candidate's skills,
 * scores and ranks the rest and returns one page. `search_hybrid_jobs` returns
 * one page of the aggregate unscored.
 */
module HybridRoutes {
  import opened Wrappers
  import opened Text
  import opened Sorting
  import opened Postings
  import opened TextSimilarity
  import opened MatchingEngine
  import opened MergeJobs
  import opened SearchLinks
  import opened Paging

  /** The query used without resume skills, and for the fallback search. */
  const DefaultQuery: string := "Software Engineer"

  /** Fewer initial jobs than this trigger the fallback search. */
  const MinJobs: nat := 5

  /** The largest `limit` both routes accept. */
  const MaxLimit: nat := 50

  /** The alternatives of `senior_pattern`, lowercased (the pattern ignores case). */
  const SeniorWords: seq<string> :=
    ["senior", "sr.", "lead", "principal", "manager", "architect", "head", "director", "vp"]

  /** The alternatives of `junior_pattern`, lowercased. */
  const JuniorWords: seq<string> := ["intern", "internship", "junior", "jr.", "entry level", "trainee"]

  /** A scored job as the route returns it: the engine's result plus the job's type and publication date. */
  datatype ScoredPosting = ScoredPosting(result: MatchResult, jobType: Option<string>, publishedAt: Option<Instant>)

  /** The outcome of `get_recommended_hybrid_jobs`: a 404, or a `HybridJobResponse`. */
  datatype Recommendation =
    | ResumeNotFound
    | Recommended(jobs: seq<ScoredPosting>, links: map<string, string>, sourcesUsed: seq<string>, total: nat)

  /** A `search_hybrid_jobs` response. */
  datatype SearchResult = SearchResult(jobs: seq<HybridJob>, links: map<string, string>,
                                       sourcesUsed: seq<string>, total: nat)

  // ---------------------------------------------------------------------------
  // Query and fallback

  /** The first resume skill, else "Software Engineer". */
  function SearchQuery(resume: Resume): string {
    if resume.skills != [] then resume.skills[0] else DefaultQuery
  }

  /** `resume.location or ""`. */
  function SearchLocation(resume: Resume): string {
    resume.location.GetOr("")
  }

  /** The candidate's experience in tenths of a year; 0 without experience entries. */
  function UserYears(resume: Resume, today: YearMonth): nat {
    if resume.experience != [] then YearsOfExperience(resume.experience, today) else 0
  }

  /** The fallback search runs iff the first search found fewer than five jobs and was not already the default. */
  predicate NeedsFallback(query: string, found: nat) {
    found < MinJobs && Lower(query) != "software engineer"
  }

  function Ids(jobs: seq<HybridJob>): set<string> {
    set j | j in jobs :: j.jobId
  }

  /** The fallback jobs whose id is not in `ids`, in order (`ids` is not updated as jobs are appended). */
  function NewById(jobs: seq<HybridJob>, ids: set<string>): (r: seq<HybridJob>)
    ensures |r| <= |jobs|
  {
    if jobs == [] then []
    else
      var n := |jobs| - 1;
      NewById(jobs[..n], ids) + (if jobs[n].jobId !in ids then [jobs[n]] else [])
  }

  /** The first result with the fallback's new jobs appended and its new source tags added. */
  function MergeFallback(initial: HybridResult, fallback: HybridResult): HybridResult {
    HybridResult(initial.jobs + NewById(fallback.jobs, Ids(initial.jobs)),
                 AddAbsent(initial.sourcesUsed, fallback.sourcesUsed), initial.fromCache)
  }

  /** The jobs the route works on, and the aggregator's cache afterwards. */
  function Gather(entries: map<string, CacheEntry>, resume: Resume, now: Instant,
                  outcomes: seq<AdapterOutcome>, fallbackOutcomes: seq<AdapterOutcome>)
    : (HybridResult, map<string, CacheEntry>)
    requires |outcomes| == 4 && |fallbackOutcomes| == 4
  {
    var query := SearchQuery(resume);
    var location := SearchLocation(resume);
    var (first, afterFirst) := Serve(entries, query, location, true, now, outcomes);
    if NeedsFallback(query, |first.jobs|) then
      var (second, afterSecond) := Serve(afterFirst, DefaultQuery, location, true, now, fallbackOutcomes);
      (MergeFallback(first, second), afterSecond)
    else
      (first, afterFirst)
  }

  // ---------------------------------------------------------------------------
  // Gates

  /** Some alternative occurs in `s` between word boundaries. */
  predicate AnyWord(s: string, words: seq<string>) {
    exists w :: w in words && HasWord(s, w)
  }

  /** `senior_pattern.search(title)`. */
  predicate SeniorTitle(title: string) {
    AnyWord(Lower(title), SeniorWords)
  }

  /** `junior_pattern.search(title)`. */
  predicate JuniorTitle(title: string) {
    AnyWord(Lower(title), JuniorWords)
  }

  /** The experience gate: under 1.5 years no senior titles, over 3.0 years no junior titles. */
  predicate FitsExperience(title: string, years: nat) {
    if years < 15 then !SeniorTitle(title)
    else if years > 30 then !JuniorTitle(title)
    else true
  }

  /** `{s.lower() for s in resume.skills}`. */
  function LowerSkills(skills: seq<string>): set<string> {
    set s | s in skills :: Lower(s)
  }

  /** Some skill occurs in `text` as a whole word. */
  predicate HasUserSkill(text: string, skills: set<string>) {
    exists s :: s in skills && HasWord(text, s)
  }

  /** The skill gate: without skills every job passes. */
  predicate Relevant(job: HybridJob, skills: set<string>) {
    skills == {} || HasUserSkill(Lower(job.title + " " + job.description), skills)
  }

  predicate Keep(job: HybridJob, years: nat, skills: set<string>) {
    FitsExperience(job.title, years) && Relevant(job, skills)
  }

  /** The jobs that pass both gates, in order. */
  function Filtered(jobs: seq<HybridJob>, years: nat, skills: set<string>): (r: seq<HybridJob>)
    ensures |r| <= |jobs|
  {
    if jobs == [] then []
    else
      var n := |jobs| - 1;
      Filtered(jobs[..n], years, skills) + (if Keep(jobs[n], years, skills) then [jobs[n]] else [])
  }

  // ---------------------------------------------------------------------------
  // Scoring, ranking and paging

  /** `job.dict()` as the scorer reads it: there is no `_id` and no `posted_date`. */
  function JobOf(h: HybridJob): Job {
    Job(Some(h.jobId), "None", h.title, Some(h.company), Some(h.location), Some(h.applyLink), Some(h.source),
        None, h.description)
  }

  function ScoreJob(h: HybridJob, resume: Resume, partialRatio: (string, string) -> Ratio, today: YearMonth)
    : ScoredPosting
  {
    ScoredPosting(MatchScore(JobOf(h), resume, partialRatio, today), h.jobType, h.publishedAt)
  }

  /** The scored jobs with a positive score, in order. */
  function ScoredPositive(jobs: seq<HybridJob>, resume: Resume, partialRatio: (string, string) -> Ratio,
                          today: YearMonth): (r: seq<ScoredPosting>)
    ensures |r| <= |jobs|
  {
    if jobs == [] then []
    else
      var n := |jobs| - 1;
      var s := ScoreJob(jobs[n], resume, partialRatio, today);
      ScoredPositive(jobs[..n], resume, partialRatio, today) + (if s.result.matchScore > 0 then [s] else [])
  }

  function ScoreKey(s: ScoredPosting): int {
    s.result.matchScore
  }

  /** `rank_jobs(scored_jobs, "match")`. */
  function Ranked(scored: seq<ScoredPosting>): seq<ScoredPosting> {
    SortBy(scored, ScoreKey, Descending)
  }

  /** Everything after the gathering step, for a resume and the gathered jobs. */
  function RecommendPage(resume: Resume, page: nat, limit: nat, gathered: HybridResult,
                         partialRatio: (string, string) -> Ratio, today: YearMonth): Recommendation
    requires page >= 1
  {
    var kept := Filtered(gathered.jobs, UserYears(resume, today), LowerSkills(resume.skills));
    var ranked := Ranked(ScoredPositive(kept, resume, partialRatio, today));
    Recommended(PageOf(ranked, page, limit), GenerateSearchLinks(SearchQuery(resume), SearchLocation(resume)),
                gathered.sourcesUsed, |ranked|)
  }

  // ---------------------------------------------------------------------------
  // The routes

  /** The loops that append the fallback's new jobs and new source tags. */
  method MergeFallbackJobs(initial: HybridResult, fallback: HybridResult) returns (merged: HybridResult)
    ensures merged == MergeFallback(initial, fallback)
  {
    var jobs := initial.jobs;
    var existingIds := set j | j in initial.jobs :: j.jobId;
    var extra := fallback.jobs;
    for i := 0 to |extra|
      invariant jobs == initial.jobs + NewById(extra[..i], existingIds)
    {
      assert extra[..i + 1][..i] == extra[..i];
      if extra[i].jobId !in existingIds {
        jobs := jobs + [extra[i]];
      }
    }
    assert extra[..|extra|] == extra;
    var sources := initial.sourcesUsed;
    var tags := fallback.sourcesUsed;
    for i := 0 to |tags|
      invariant sources == AddAbsent(initial.sourcesUsed, tags[..i])
    {
      assert tags[..i + 1][..i] == tags[..i];
      if tags[i] !in sources {
        sources := sources + [tags[i]];
      }
    }
    assert tags[..|tags|] == tags;
    merged := HybridResult(jobs, sources, initial.fromCache);
  }

  /** The inner loop over the skill set, stopping at the first skill found. */
  method FindUserSkill(text: string, skills: set<string>) returns (found: bool)
    ensures found == HasUserSkill(text, skills)
  {
    var rest := skills;
    found := false;
    while rest != {}
      invariant rest <= skills
      invariant forall s :: s in skills - rest ==> !HasWord(text, s)
      decreases |rest|
    {
      var s :| s in rest;
      if HasWord(text, s) {
        return true;
      }
      rest := rest - {s};
    }
  }

  /** The filtering loop. */
  method FilterJobs(jobs: seq<HybridJob>, years: nat, skills: set<string>) returns (kept: seq<HybridJob>)
    ensures kept == Filtered(jobs, years, skills)
  {
    kept := [];
    for i := 0 to |jobs|
      invariant kept == Filtered(jobs[..i], years, skills)
    {
      assert jobs[..i + 1][..i] == jobs[..i];
      var job := jobs[i];
      var textToCheck := Lower(job.title + " " + job.description);
      var fits := true;
      if years < 15 {
        fits := !AnyWord(Lower(job.title), SeniorWords);
      } else if years > 30 {
        fits := !AnyWord(Lower(job.title), JuniorWords);
      }
      if fits {
        var relevant := true;
        if skills != {} {
          relevant := FindUserSkill(textToCheck, skills);
        }
        if relevant {
          kept := kept + [job];
        }
      }
    }
    assert jobs[..|jobs|] == jobs;
  }

  /** The scoring loop: keep each job whose score is positive. */
  method ScoreJobs(jobs: seq<HybridJob>, resume: Resume, partialRatio: (string, string) -> Ratio, today: YearMonth)
    returns (scored: seq<ScoredPosting>)
    ensures scored == ScoredPositive(jobs, resume, partialRatio, today)
  {
    scored := [];
    for i := 0 to |jobs|
      invariant scored == ScoredPositive(jobs[..i], resume, partialRatio, today)
    {
      assert jobs[..i + 1][..i] == jobs[..i];
      var job := jobs[i];
      var result := CalculateMatchScore(JobOf(job), resume, partialRatio, today);
      if result.matchScore > 0 {
        scored := scored + [ScoredPosting(result, job.jobType, job.publishedAt)];
      }
    }
    assert jobs[..|jobs|] == jobs;
  }

  /**
   * `get_recommended_hybrid_jobs(page, limit)` for the caller's resume (`None`
   * when they have none), with the aggregator's cache, the clock as an instant and
   * as a month, the fuzzy ratio, and the adapter outcomes of the first and of the
   * fallback search.
   */
  method GetRecommendedHybridJobs(cache: HybridCache, resume: Option<Resume>, page: nat, limit: nat,
                                  now: Instant, today: YearMonth, partialRatio: (string, string) -> Ratio,
                                  outcomes: seq<AdapterOutcome>, fallbackOutcomes: seq<AdapterOutcome>)
    returns (r: Recommendation)
    requires page >= 1 && 1 <= limit <= MaxLimit
    requires |outcomes| == 4 && |fallbackOutcomes| == 4
    modifies cache
    ensures resume.None? ==> r == ResumeNotFound && cache.entries == old(cache.entries)
    ensures resume.Some? ==>
      var (gathered, after) := Gather(old(cache.entries), resume.value, now, outcomes, fallbackOutcomes);
      && r == RecommendPage(resume.value, page, limit, gathered, partialRatio, today)
      && cache.entries == after
  {
    if resume.None? {
      return ResumeNotFound;
    }
    var gathered := GatherJobs(cache, resume.value, now, outcomes, fallbackOutcomes);
    r := RankAndPage(resume.value, page, limit, gathered, partialRatio, today);
  }

  /** The first search and, when it finds too little, the fallback search merged into it. */
  method GatherJobs(cache: HybridCache, cv: Resume, now: Instant,
                    outcomes: seq<AdapterOutcome>, fallbackOutcomes: seq<AdapterOutcome>)
    returns (gathered: HybridResult)
    requires |outcomes| == 4 && |fallbackOutcomes| == 4
    modifies cache
    ensures (gathered, cache.entries) == Gather(old(cache.entries), cv, now, outcomes, fallbackOutcomes)
  {
    var query := DefaultQuery;
    if cv.skills != [] {
      query := cv.skills[0];
    }
    var location := cv.location.GetOr("");
    gathered := cache.GetHybridJobs(query, location, true, now, outcomes);
    if |gathered.jobs| < MinJobs && Lower(query) != "software engineer" {
      var fallback := cache.GetHybridJobs(DefaultQuery, location, true, now, fallbackOutcomes);
      gathered := MergeFallbackJobs(gathered, fallback);
    }
  }

  /** Filtering, scoring, ranking and paging of the gathered jobs. */
  method RankAndPage(cv: Resume, page: nat, limit: nat, gathered: HybridResult,
                     partialRatio: (string, string) -> Ratio, today: YearMonth) returns (r: Recommendation)
    requires page >= 1
    ensures r == RecommendPage(cv, page, limit, gathered, partialRatio, today)
  {
    var query := DefaultQuery;
    if cv.skills != [] {
      query := cv.skills[0];
    }
    var location := cv.location.GetOr("");
    var userYears := 0;
    if cv.experience != [] {
      userYears := ExtractYearsOfExperience(cv.experience, today);
    }
    var userSkills := set s | s in cv.skills :: Lower(s);
    var kept := FilterJobs(gathered.jobs, userYears, userSkills);
    var scored := ScoreJobs(kept, cv, partialRatio, today);
    var ranked := Ranked(scored);
    r := Recommended(PageOf(ranked, page, limit), GenerateSearchLinks(query, location), gathered.sourcesUsed,
                     |ranked|);
  }

  /** `search_hybrid_jobs(role, location, remote, page, limit)`. */
  method SearchHybridJobs(cache: HybridCache, role: string, location: string, remote: bool, page: nat, limit: nat,
                          now: Instant, outcomes: seq<AdapterOutcome>) returns (r: SearchResult)
    requires |role| >= 1 && page >= 1 && 1 <= limit <= MaxLimit
    requires |outcomes| == 4
    modifies cache
    ensures var (result, after) := Serve(old(cache.entries), role, location, remote, now, outcomes);
      && r == SearchResult(PageOf(result.jobs, page, limit), GenerateSearchLinks(role, location),
                           result.sourcesUsed, |result.jobs|)
      && cache.entries == after
  {
    var result := cache.GetHybridJobs(role, location, remote, now, outcomes);
    r := SearchResult(PageOf(result.jobs, page, limit), GenerateSearchLinks(role, location),
                      result.sourcesUsed, |result.jobs|);
  }

  // ---------------------------------------------------------------------------
  // Properties

  /** The fallback's new jobs: exactly those whose id none of the first jobs has. */
  lemma {:induction false} NewByIdMembers(jobs: seq<HybridJob>, ids: set<string>)
    ensures forall j :: j in NewById(jobs, ids) <==> j in jobs && j.jobId !in ids
  {
    if jobs != [] {
      var n := |jobs| - 1;
      NewByIdMembers(jobs[..n], ids);
      assert forall x :: x in jobs <==> x in jobs[..n] || x == jobs[n];
    }
  }

  /** The fallback's new jobs keep the fallback order. */
  lemma {:induction false} NewByIdOrder(jobs: seq<HybridJob>, ids: set<string>)
    ensures Subsequence(NewById(jobs, ids), jobs)
  {
    if jobs != [] {
      var n := |jobs| - 1;
      var p := NewById(jobs[..n], ids);
      NewByIdOrder(jobs[..n], ids);
      if jobs[n].jobId !in ids {
        var r := p + [jobs[n]];
        assert NewById(jobs, ids) == r;
        assert r[..|r| - 1] == p && r[|r| - 1] == jobs[|jobs| - 1];
        assert jobs[..|jobs| - 1] == jobs[..n];
      } else {
        assert NewById(jobs, ids) == p;
        assert jobs[..|jobs| - 1] == jobs[..n];
      }
    }
  }

  /**
   * The merged result keeps the first jobs in front; what follows are exactly the
   * fallback jobs whose id is not among the first jobs, in fallback order (two
   * fallback jobs sharing a new id are both kept). The tags gain exactly the new
   * fallback tags, without duplicates, after the first ones.
   */
  lemma FallbackMergeSpec(initial: HybridResult, fallback: HybridResult)
    requires Distinct(initial.sourcesUsed)
    ensures var m := MergeFallback(initial, fallback);
      && m.jobs[..|initial.jobs|] == initial.jobs
      && (forall j :: j in m.jobs[|initial.jobs|..] <==>
            j in fallback.jobs && j !in initial.jobs && j.jobId !in Ids(initial.jobs))
      && Subsequence(m.jobs[|initial.jobs|..], fallback.jobs)
      && Distinct(m.sourcesUsed)
      && m.sourcesUsed[..|initial.sourcesUsed|] == initial.sourcesUsed
      && (forall t :: t in m.sourcesUsed <==> t in initial.sourcesUsed || t in fallback.sourcesUsed)
  {
    var m := MergeFallback(initial, fallback);
    NewByIdMembers(fallback.jobs, Ids(initial.jobs));
    NewByIdOrder(fallback.jobs, Ids(initial.jobs));
    assert m.jobs[|initial.jobs|..] == NewById(fallback.jobs, Ids(initial.jobs));
    AddAbsentSpec(initial.sourcesUsed, fallback.sourcesUsed);
  }

  /** A resume without skills searches for "Software Engineer" and never falls back, in any letter case. */
  lemma DefaultQueryNoFallback(resume: Resume, query: string, found: nat)
    requires Lower(query) == Lower(DefaultQuery)
    ensures !NeedsFallback(query, found)
    ensures resume.skills == [] ==> SearchQuery(resume) == DefaultQuery && !NeedsFallback(SearchQuery(resume), found)
  {
    assert Lower(DefaultQuery) == "software engineer";
  }

  /** The jobs that pass the gates are exactly those satisfying both. */
  lemma {:induction false} FilteredMembers(jobs: seq<HybridJob>, years: nat, skills: set<string>)
    ensures forall j :: j in Filtered(jobs, years, skills) <==> j in jobs && Keep(j, years, skills)
  {
    if jobs != [] {
      var n := |jobs| - 1;
      FilteredMembers(jobs[..n], years, skills);
      assert forall x :: x in jobs <==> x in jobs[..n] || x == jobs[n];
    }
  }

  /** The gates keep the original order. */
  lemma {:induction false} FilteredOrder(jobs: seq<HybridJob>, years: nat, skills: set<string>)
    ensures Subsequence(Filtered(jobs, years, skills), jobs)
  {
    if jobs != [] {
      var n := |jobs| - 1;
      var p := Filtered(jobs[..n], years, skills);
      FilteredOrder(jobs[..n], years, skills);
      if Keep(jobs[n], years, skills) {
        var r := p + [jobs[n]];
        assert Filtered(jobs, years, skills) == r;
        assert r[..|r| - 1] == p && r[|r| - 1] == jobs[|jobs| - 1];
        assert jobs[..|jobs| - 1] == jobs[..n];
      } else {
        assert Filtered(jobs, years, skills) == p;
        assert jobs[..|jobs| - 1] == jobs[..n];
      }
    }
  }

  /** Between 1.5 and 3.0 years inclusive and without skills, nothing is filtered out. */
  lemma {:induction false} MiddleBandKeepsAll(jobs: seq<HybridJob>, years: nat)
    requires 15 <= years <= 30
    ensures Filtered(jobs, years, {}) == jobs
  {
    if jobs != [] {
      MiddleBandKeepsAll(jobs[..|jobs| - 1], years);
      assert jobs[..|jobs| - 1] + [jobs[|jobs| - 1]] == jobs;
    }
  }

  /** `Sr.` ends in a non-word character, so it only matches when a word character follows it. */
  lemma SrDotNeedsWordAfter()
    ensures !HasWord("sr. dev", "sr.")
    ensures HasWord("sr.dev", "sr.")
  {
    var s := "sr. dev";
    assert !Boundary(s, 3);
    assert !WordAt(s, "sr.", 0);
    assert FindWord(s, "sr.", 5) == -1;
    assert !OccursAt(s, "sr.", 4) by { assert s[4] != 's'; }
    assert !OccursAt(s, "sr.", 3) by { assert s[3] != 's'; }
    assert !OccursAt(s, "sr.", 2) by { assert s[2] != 's'; }
    assert !OccursAt(s, "sr.", 1) by { assert s[1] != 's'; }
    assert FindWord(s, "sr.", 1) == -1;
    var t := "sr.dev";
    assert t[0..3] == "sr.";
    assert Boundary(t, 3);
    HasWordAt(t, "sr.", 0);
  }

  /** The positive-score jobs: each is the score of an input job, and no positive score is lost. */
  lemma {:induction false} ScoredPositiveSpec(jobs: seq<HybridJob>, resume: Resume,
                                              partialRatio: (string, string) -> Ratio, today: YearMonth)
    ensures forall s :: s in ScoredPositive(jobs, resume, partialRatio, today) ==>
      s.result.matchScore > 0 && exists h :: h in jobs && s == ScoreJob(h, resume, partialRatio, today)
    ensures forall h :: h in jobs && ScoreJob(h, resume, partialRatio, today).result.matchScore > 0 ==>
      ScoreJob(h, resume, partialRatio, today) in ScoredPositive(jobs, resume, partialRatio, today)
  {
    if jobs != [] {
      var n := |jobs| - 1;
      ScoredPositiveSpec(jobs[..n], resume, partialRatio, today);
      assert forall x :: x in jobs <==> x in jobs[..n] || x == jobs[n];
    }
  }

  /** A page of the ranking runs from the highest score down and holds only ranked jobs. */
  lemma RankedPage(scored: seq<ScoredPosting>, page: nat, limit: nat)
    requires page >= 1 && limit >= 1
    ensures var p := PageOf(Ranked(scored), page, limit);
      && SortedBy(p, ScoreKey, Descending)
      && (p != [] <==> page <= PageCount(|scored|, limit))
      && forall s :: s in p ==> s in scored
  {
    var ranked := Ranked(scored);
    DescendingIsOrder();
    SortBySorted(scored, ScoreKey, Descending);
    PageSorted(ranked, page, limit, ScoreKey, Descending);
    PageNonEmptyIff(ranked, page, limit);
    PageOfSpec(ranked, page, limit);
    SortByMembers(scored, ScoreKey, Descending);
  }

  /** Each job on the page is the score, above zero and at most 100, of a gathered job that passed both gates. */
  lemma PageJobsFromKept(resume: Resume, gathered: HybridResult, partialRatio: (string, string) -> Ratio,
                         today: YearMonth, years: nat, skills: set<string>, s: ScoredPosting)
    requires s in ScoredPositive(Filtered(gathered.jobs, years, skills), resume, partialRatio, today)
    ensures 0 < s.result.matchScore <= 100
    ensures exists h :: h in gathered.jobs && Keep(h, years, skills) && s == ScoreJob(h, resume, partialRatio, today)
  {
    var kept := Filtered(gathered.jobs, years, skills);
    ScoredPositiveSpec(kept, resume, partialRatio, today);
    FilteredMembers(gathered.jobs, years, skills);
    var h :| h in kept && s == ScoreJob(h, resume, partialRatio, today);
    MatchScoreBounds(JobOf(h), resume, partialRatio, today);
  }

  /**
   * The recommended page: every job on it passed both gates, was scored above zero
   * and at most 100, and the page runs from the highest score down; `total` counts
   * every positive-score job, and the page is non-empty exactly up to the last page.
   */
  lemma RecommendPageSpec(resume: Resume, page: nat, limit: nat, gathered: HybridResult,
                          partialRatio: (string, string) -> Ratio, today: YearMonth)
    requires page >= 1 && limit >= 1
    ensures var r := RecommendPage(resume, page, limit, gathered, partialRatio, today);
      var years := UserYears(resume, today);
      var skills := LowerSkills(resume.skills);
      && r.Recommended?
      && r.sourcesUsed == gathered.sourcesUsed
      && r.total == |ScoredPositive(Filtered(gathered.jobs, years, skills), resume, partialRatio, today)|
      && SortedBy(r.jobs, ScoreKey, Descending)
      && (r.jobs != [] <==> page <= PageCount(r.total, limit))
      && forall s :: s in r.jobs ==>
           && 0 < s.result.matchScore <= 100
           && exists h :: h in gathered.jobs && Keep(h, years, skills) && s == ScoreJob(h, resume, partialRatio, today)
  {
    var years := UserYears(resume, today);
    var skills := LowerSkills(resume.skills);
    var scored := ScoredPositive(Filtered(gathered.jobs, years, skills), resume, partialRatio, today);
    var r := RecommendPage(resume, page, limit, gathered, partialRatio, today);
    assert r.jobs == PageOf(Ranked(scored), page, limit);
    RankedPage(scored, page, limit);
    forall s | s in r.jobs
      ensures 0 < s.result.matchScore <= 100
      ensures exists h :: h in gathered.jobs && Keep(h, years, skills) && s == ScoreJob(h, resume, partialRatio, today)
    {
      PageJobsFromKept(resume, gathered, partialRatio, today, years, skills, s);
    }
  }

  /** One of the resume's skills, lowercased, occurs as a whole word in the job's lowercased title and description. */
  predicate MentionsSkill(h: HybridJob, skills: seq<string>) {
    exists k :: k in skills && HasWord(Lower(h.title + " " + h.description), Lower(k))
  }

  lemma KeptMentionsSkill(h: HybridJob, years: nat, resume: Resume)
    requires resume.skills != []
    requires Keep(h, years, LowerSkills(resume.skills))
    ensures MentionsSkill(h, resume.skills)
  {
    var skills := LowerSkills(resume.skills);
    assert Lower(resume.skills[0]) in skills;
    var w :| w in skills && HasWord(Lower(h.title + " " + h.description), w);
    var k :| k in resume.skills && w == Lower(k);
  }

  /**
   * With skills on the resume, every recommended job comes from a gathered job whose
   * lowercased title and description contain one of them as a whole word.
   */
  lemma SkillGateHolds(resume: Resume, page: nat, limit: nat, gathered: HybridResult,
                       partialRatio: (string, string) -> Ratio, today: YearMonth)
    requires page >= 1 && limit >= 1
    requires resume.skills != []
    ensures forall s :: s in RecommendPage(resume, page, limit, gathered, partialRatio, today).jobs ==>
      exists h :: h in gathered.jobs && s == ScoreJob(h, resume, partialRatio, today) && MentionsSkill(h, resume.skills)
  {
    RecommendPageSpec(resume, page, limit, gathered, partialRatio, today);
    var years := UserYears(resume, today);
    var skills := LowerSkills(resume.skills);
    forall s | s in RecommendPage(resume, page, limit, gathered, partialRatio, today).jobs
      ensures exists h :: (h in gathered.jobs && s == ScoreJob(h, resume, partialRatio, today) &&
        MentionsSkill(h, resume.skills))
    {
      var h :| h in gathered.jobs && Keep(h, years, skills) && s == ScoreJob(h, resume, partialRatio, today);
      KeptMentionsSkill(h, years, resume);
    }
  }

  /** The search page is a page of the aggregate, which a miss orders newest first. */
  lemma SearchPageNewestFirst(entries: map<string, CacheEntry>, role: string, location: string, remote: bool,
                              now: Instant, outcomes: seq<AdapterOutcome>, page: nat, limit: nat)
    requires |outcomes| == 4 && page >= 1 && limit >= 1
    requires !IsFresh(entries, CacheKey(role, location, remote), now)
    ensures var result := Serve(entries, role, location, remote, now, outcomes).0;
      && SortedBy(PageOf(result.jobs, page, limit), PublishedKey, Descending)
      && (PageOf(result.jobs, page, limit) != [] <==> page <= PageCount(|result.jobs|, limit))
  {
    var result := Serve(entries, role, location, remote, now, outcomes).0;
    AggregateProperties(outcomes);
    PageSorted(result.jobs, page, limit, PublishedKey, Descending);
    PageNonEmptyIff(result.jobs, page, limit);
  }
}
