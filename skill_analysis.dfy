/**
 * `SkillAnalysisService`: counting the vocabulary skills of the cached jobs
 * (`_get_market_skills`), reading the user's skills (`_get_user_skills`), and the
 * skill-gap report (`analyze_skills`).
 *
 * Python iterates the sets and dictionaries involved in hash order; the model
 * picks elements in an unspecified order, so the contracts state what holds for
 * every order. Percentages are computed on exact rationals: the model takes
 * `int((f / m) * 100)` as `(100 * f) / m`, where the source rounds floats and can
 * fall one below (for `f / m` = 29/100 the float product is 28.999...).
 */
module SkillAnalysis {
  import opened Sorting
  import SkillExtraction

  /** `cursor.to_list(length=1000)`: at most this many cached jobs are read. */
  const MaxJobsRead: nat := 1000

  /** A cached job's title and description, as the f-string renders them. */
  datatype CachedText = CachedText(title: string, description: string)

  datatype SkillFrequency = SkillFrequency(skill: string, frequency: nat)
  datatype MissingSkill = MissingSkill(skill: string, priority: nat, frequency: nat)
  datatype SkillStrength = SkillStrength(skill: string, coverage: nat)

  /** The dictionary `analyze_skills` returns; `marketSkills` is the key set of the relevant skills. */
  datatype Analysis = Analysis(
    userSkills: seq<string>,
    marketSkills: set<string>,
    missingSkills: seq<MissingSkill>,
    topMarketSkills: seq<SkillFrequency>,
    skillStrengths: seq<SkillStrength>,
    totalJobsAnalyzed: nat)

  // ---------------------------------------------------------------------------
  // Counting

  /** The number of the given skill sets that contain `s`. */
  function Occurrences(sets: seq<set<string>>, s: string): (n: nat)
    ensures n <= |sets|
  {
    if sets == [] then 0
    else Occurrences(sets[..|sets| - 1], s) + (if s in sets[|sets| - 1] then 1 else 0)
  }

  /** Every skill named by some set. */
  function AllSkills(sets: seq<set<string>>): set<string> {
    if sets == [] then {} else AllSkills(sets[..|sets| - 1]) + sets[|sets| - 1]
  }

  /** `Counter(all_skills)` where `all_skills` concatenates the (distinct) skills of each job. */
  function Counts(sets: seq<set<string>>): map<string, nat> {
    map s | s in AllSkills(sets) :: Occurrences(sets, s)
  }

  /** `Counter(xs)`: each element of `xs` with its number of occurrences. */
  function CounterOf(xs: seq<string>): map<string, nat> {
    map x | x in xs :: multiset(xs)[x]
  }

  lemma {:induction false} AllSkillsSpec(sets: seq<set<string>>, s: string)
    ensures s in AllSkills(sets) <==> Occurrences(sets, s) > 0
  {
    if sets != [] {
      AllSkillsSpec(sets[..|sets| - 1], s);
    }
  }

  /** An element of a list without repetitions occurs in it once. */
  lemma {:induction false} DistinctOccurrences(xs: seq<string>, x: string)
    requires forall i, j :: 0 <= i < j < |xs| ==> xs[i] != xs[j]
    ensures multiset(xs)[x] == if x in xs then 1 else 0
  {
    if xs != [] {
      var n := |xs| - 1;
      DistinctOccurrences(xs[..n], x);
      assert xs == xs[..n] + [xs[n]];
      assert xs[n] !in xs[..n];
    }
  }

  /**
   * `_get_market_skills()`: the skills of each of the first thousand cached jobs,
   * listed and concatenated, then counted.
   */
  method GetMarketSkills(lookup: map<string, string>, jobs: seq<CachedText>)
    returns (counter: map<string, nat>, totalJobs: nat, ghost sets: seq<set<string>>)
    ensures totalJobs == |sets| == (if |jobs| <= MaxJobsRead then |jobs| else MaxJobsRead)
    ensures forall i :: 0 <= i < |sets| ==>
      sets[i] == SkillExtraction.ExtractedWith(lookup, jobs[i].title + " " + jobs[i].description)
    ensures counter == Counts(sets)
  {
    var read := if |jobs| <= MaxJobsRead then jobs else jobs[..MaxJobsRead];
    sets := [];
    var allSkills: seq<string> := [];
    for i := 0 to |read|
      invariant |sets| == i
      invariant SkillsOfEach(lookup, read[..i], sets)
      invariant Tallied(allSkills, sets)
    {
      var skills := SkillExtraction.ExtractSkillsFromText(lookup, read[i].title + " " + read[i].description);
      var listed := ListOf(skills);
      ListedStep(allSkills, sets, listed, skills);
      assert read[..i + 1] == read[..i] + [read[i]];
      allSkills := allSkills + listed;
      sets := sets + [skills];
    }
    counter := CounterOf(allSkills);
    CounterOfCounts(allSkills, sets);
    assert read[..|read|] == read;
    totalJobs := |read|;
  }

  /** `sets[j]` holds the skills extracted from the `j`-th job's text. */
  ghost predicate SkillsOfEach(lookup: map<string, string>, read: seq<CachedText>, sets: seq<set<string>>) {
    |sets| == |read| &&
    forall j :: 0 <= j < |sets| ==> sets[j] == SkillExtraction.ExtractedWith(lookup, read[j].title + " " + read[j].description)
  }

  /** Each skill occurs in the concatenated lists once per job whose set holds it. */
  ghost predicate Tallied(allSkills: seq<string>, sets: seq<set<string>>) {
    forall x :: multiset(allSkills)[x] == Occurrences(sets, x)
  }

  /** Appending one job's listed skills counts that job once for each of its skills. */
  lemma ListedStep(allSkills: seq<string>, sets: seq<set<string>>, listed: seq<string>, skills: set<string>)
    requires Tallied(allSkills, sets)
    requires forall x :: x in listed <==> x in skills
    requires forall i, j :: 0 <= i < j < |listed| ==> listed[i] != listed[j]
    ensures Tallied(allSkills + listed, sets + [skills])
  {
    forall x ensures multiset(allSkills + listed)[x] == Occurrences(sets + [skills], x) {
      DistinctOccurrences(listed, x);
      assert (sets + [skills])[..|sets|] == sets;
    }
  }

  /** Counting the concatenated lists gives each skill's number of jobs. */
  lemma CounterOfCounts(allSkills: seq<string>, sets: seq<set<string>>)
    requires Tallied(allSkills, sets)
    ensures CounterOf(allSkills) == Counts(sets)
  {
    forall x ensures x in CounterOf(allSkills) <==> x in Counts(sets) {
      AllSkillsSpec(sets, x);
    }
  }

  /** Every counted skill's count is the number of jobs that mention it, and it is mentioned at least once. */
  lemma CountsSpec(sets: seq<set<string>>, s: string)
    ensures s in Counts(sets) <==> Occurrences(sets, s) > 0
    ensures s in Counts(sets) ==> 1 <= Counts(sets)[s] <= |sets|
  {
    AllSkillsSpec(sets, s);
  }

  // ---------------------------------------------------------------------------
  // The report

  /** The skills counted in at least two jobs. */
  function Relevant(counter: map<string, nat>): (r: map<string, nat>)
    ensures forall k :: k in r <==> k in counter && counter[k] >= 2
  {
    map k | k in counter && counter[k] >= 2 :: counter[k]
  }

  /** `max(relevant.values())`, or 1 when there is none. */
  ghost function MaxFrequency(relevant: map<string, nat>): (m: nat)
    ensures relevant == map[] ==> m == 1
    ensures relevant != map[] ==> (exists k :: k in relevant && relevant[k] == m)
    ensures forall k :: k in relevant ==> relevant[k] <= m
    decreases |relevant|
  {
    if relevant == map[] then 1
    else
      var k :| k in relevant;
      var rest := relevant - {k};
      assert |rest| < |relevant|;
      if rest == map[] then
        assert forall j :: j in relevant ==> j == k;
        relevant[k]
      else
        var m := MaxFrequency(rest);
        assert forall j :: j in relevant ==> j == k || j in rest;
        if relevant[k] >= m then relevant[k] else m
  }

  /** The largest value is unique: any value bounding all others and attained is it. */
  lemma MaxFrequencyUnique(relevant: map<string, nat>, m: nat)
    requires relevant != map[] && (exists k :: k in relevant && relevant[k] == m)
    requires forall k :: k in relevant ==> relevant[k] <= m
    ensures m == MaxFrequency(relevant)
  {
  }

  /** `int((frequency / max_frequency) * 100)`, exactly. */
  function Percent(frequency: nat, maxFrequency: nat): nat
    requires maxFrequency > 0
  {
    (100 * frequency) / maxFrequency
  }

  /** A frequency up to the maximum gives 0..100, and exactly 100 at the maximum. */
  lemma PercentSpec(frequency: nat, maxFrequency: nat)
    requires 0 < maxFrequency && frequency <= maxFrequency
    ensures Percent(frequency, maxFrequency) <= 100
    ensures Percent(frequency, maxFrequency) == 100 <==> frequency == maxFrequency
  {
    var m := maxFrequency;
    var p := Percent(frequency, m);
    var rem := (100 * frequency) % m;
    assert 100 * frequency == p * m + rem && 0 <= rem < m;
    MulMono(p + 1, 100, m);
    MulMono(101, p, m);
    MulMono(100, p, m);
    if frequency != m {
      assert 100 * frequency <= 100 * m - 100;
    }
  }

  lemma MulMono(a: int, b: int, c: nat)
    ensures a <= b ==> a * c <= b * c
  {
  }

  /** The entries of a dictionary, one per key, in some order. */
  method Items(m: map<string, nat>) returns (items: seq<SkillFrequency>)
    ensures forall e :: e in items ==> e.skill in m && e.frequency == m[e.skill]
    ensures forall k :: k in m ==> SkillFrequency(k, m[k]) in items
    ensures forall i, j :: 0 <= i < j < |items| ==> items[i].skill != items[j].skill
  {
    items := [];
    var remaining := m.Keys;
    while remaining != {}
      invariant remaining <= m.Keys
      invariant forall e :: e in items ==> e.skill in m && e.skill !in remaining && e.frequency == m[e.skill]
      invariant forall k :: k in m && k !in remaining ==> SkillFrequency(k, m[k]) in items
      invariant forall i, j :: 0 <= i < j < |items| ==> items[i].skill != items[j].skill
      decreases |remaining|
    {
      var k :| k in remaining;
      items := items + [SkillFrequency(k, m[k])];
      remaining := remaining - {k};
    }
  }

  /** `max(relevant.values()) if relevant else 1`. */
  method ComputeMaxFrequency(items: seq<SkillFrequency>, ghost relevant: map<string, nat>) returns (m: nat)
    requires forall e :: e in items ==> e.skill in relevant && e.frequency == relevant[e.skill]
    requires forall k :: k in relevant ==> SkillFrequency(k, relevant[k]) in items
    ensures m == MaxFrequency(relevant)
  {
    if items == [] {
      assert relevant == map[];
      return 1;
    }
    m := items[0].frequency;
    for i := 1 to |items|
      invariant exists j :: 0 <= j < |items| && items[j].frequency == m
      invariant forall j :: 0 <= j < i ==> items[j].frequency <= m
    {
      if items[i].frequency > m {
        m := items[i].frequency;
      }
    }
    forall k | k in relevant ensures relevant[k] <= m {
      var j :| 0 <= j < |items| && items[j] == SkillFrequency(k, relevant[k]);
    }
    var j :| 0 <= j < |items| && items[j].frequency == m;
    assert items[j] in items;
    MaxFrequencyUnique(relevant, m);
  }

  function PriorityOf(e: MissingSkill): int { e.priority }
  function FrequencyOf(e: SkillFrequency): int { e.frequency }
  function CoverageOf(e: SkillStrength): int { e.coverage }

  /** The relevant skills the user lacks, in item order, with their priorities. */
  method CollectMissing(items: seq<SkillFrequency>, userSkillSet: set<string>, maxFrequency: nat)
    returns (missing: seq<MissingSkill>)
    requires maxFrequency > 0
    requires forall i, j :: 0 <= i < j < |items| ==> items[i].skill != items[j].skill
    ensures forall e :: e in missing <==>
      SkillFrequency(e.skill, e.frequency) in items && e.skill !in userSkillSet
      && e.priority == Percent(e.frequency, maxFrequency)
    ensures DistinctBy(missing, SkillOfMissing)
  {
    missing := [];
    for i := 0 to |items|
      invariant forall e :: e in missing <==>
        SkillFrequency(e.skill, e.frequency) in items[..i] && e.skill !in userSkillSet
        && e.priority == Percent(e.frequency, maxFrequency)
      invariant forall e :: e in missing ==> exists j :: 0 <= j < i && items[j].skill == e.skill
      invariant DistinctBy(missing, SkillOfMissing)
    {
      assert items[..i + 1] == items[..i] + [items[i]];
      var skill := items[i].skill;
      var frequency := items[i].frequency;
      if skill !in userSkillSet {
        forall e | e in missing ensures e.skill != skill {
          var j :| 0 <= j < i && items[j].skill == e.skill;
        }
        missing := missing + [MissingSkill(skill, Percent(frequency, maxFrequency), frequency)];
      }
    }
    assert items[..|items|] == items;
  }

  /** A user skill's coverage: its relevant frequency as a percentage of the maximum, 0 when not relevant. */
  function Strength(skill: string, relevant: map<string, nat>, maxFrequency: nat): SkillStrength
    requires maxFrequency > 0
  {
    SkillStrength(skill, Percent(if skill in relevant then relevant[skill] else 0, maxFrequency))
  }

  /** One strength per user skill, in user order. */
  method CollectStrengths(userSkills: seq<string>, relevant: map<string, nat>, maxFrequency: nat)
    returns (strengths: seq<SkillStrength>)
    requires maxFrequency > 0
    ensures |strengths| == |userSkills|
    ensures forall i :: 0 <= i < |userSkills| ==> strengths[i] == Strength(userSkills[i], relevant, maxFrequency)
  {
    strengths := [];
    for i := 0 to |userSkills|
      invariant |strengths| == i
      invariant forall j :: 0 <= j < i ==> strengths[j] == Strength(userSkills[j], relevant, maxFrequency)
    {
      var skill := userSkills[i];
      var freq := if skill in relevant then relevant[skill] else 0;
      var coverage := if maxFrequency > 0 then Percent(freq, maxFrequency) else 0;
      strengths := strengths + [SkillStrength(skill, coverage)];
    }
  }

  /** The missing-skills report: the relevant skills the user lacks, each once, by priority. */
  ghost predicate MissingReport(missing: seq<MissingSkill>, relevant: map<string, nat>, userSkills: seq<string>, maxFrequency: nat)
    requires maxFrequency > 0
  {
    && (forall e :: e in missing <==>
          e.skill in relevant && e.skill !in userSkills && e.frequency == relevant[e.skill]
          && e.priority == Percent(e.frequency, maxFrequency))
    && (forall i, j :: 0 <= i < j < |missing| ==> missing[i].skill != missing[j].skill)
    && SortedBy(missing, PriorityOf, Descending)
  }

  /** The top report: at most ten relevant skills by frequency, with none left out that is more frequent. */
  ghost predicate TopReport(top: seq<SkillFrequency>, relevant: map<string, nat>) {
    && |top| == (if |relevant| <= 10 then |relevant| else 10)
    && (forall e :: e in top ==> e.skill in relevant && e.frequency == relevant[e.skill])
    && SortedBy(top, FrequencyOf, Descending)
    && (forall e, k :: e in top && k in relevant && SkillFrequency(k, relevant[k]) !in top ==> relevant[k] <= e.frequency)
  }

  /** The strengths report: one strength per user skill, by coverage. */
  ghost predicate StrengthReport(strengths: seq<SkillStrength>, userSkills: seq<string>, relevant: map<string, nat>, maxFrequency: nat)
    requires maxFrequency > 0
  {
    && multiset(strengths) == multiset(seq(|userSkills|, i requires 0 <= i < |userSkills| =>
         Strength(userSkills[i], relevant, maxFrequency)))
    && SortedBy(strengths, CoverageOf, Descending)
  }

  method MissingSkills(items: seq<SkillFrequency>, relevant: map<string, nat>, userSkills: seq<string>, maxFrequency: nat)
    returns (missing: seq<MissingSkill>)
    requires maxFrequency > 0
    requires forall e :: e in items ==> e.skill in relevant && e.frequency == relevant[e.skill]
    requires forall k :: k in relevant ==> SkillFrequency(k, relevant[k]) in items
    requires forall i, j :: 0 <= i < j < |items| ==> items[i].skill != items[j].skill
    ensures MissingReport(missing, relevant, userSkills, maxFrequency)
  {
    var userSkillSet := set s | s in userSkills;
    var collected := CollectMissing(items, userSkillSet, maxFrequency);
    DescendingIsOrder();
    missing := SortBy(collected, PriorityOf, Descending);
    SortBySorted(collected, PriorityOf, Descending);
    SortByMembers(collected, PriorityOf, Descending);
    SortByDistinctBy(collected, PriorityOf, Descending, SkillOfMissing);
  }

  method TopMarketSkills(items: seq<SkillFrequency>, relevant: map<string, nat>) returns (top: seq<SkillFrequency>)
    requires forall e :: e in items ==> e.skill in relevant && e.frequency == relevant[e.skill]
    requires forall k :: k in relevant ==> SkillFrequency(k, relevant[k]) in items
    requires forall i, j :: 0 <= i < j < |items| ==> items[i].skill != items[j].skill
    ensures TopReport(top, relevant)
  {
    DescendingIsOrder();
    var byFrequency := SortBy(items, FrequencyOf, Descending);
    SortBySorted(items, FrequencyOf, Descending);
    SortByMembers(items, FrequencyOf, Descending);
    ItemsCount(items, relevant);
    top := if |byFrequency| <= 10 then byFrequency else byFrequency[..10];
    assert forall e :: e in byFrequency <==> e in items;
    TopSpec(byFrequency, top, relevant);
  }

  method SkillStrengths(userSkills: seq<string>, relevant: map<string, nat>, maxFrequency: nat)
    returns (strengths: seq<SkillStrength>)
    requires maxFrequency > 0
    ensures StrengthReport(strengths, userSkills, relevant, maxFrequency)
  {
    var collected := CollectStrengths(userSkills, relevant, maxFrequency);
    DescendingIsOrder();
    strengths := SortBy(collected, CoverageOf, Descending);
    SortBySorted(collected, CoverageOf, Descending);
    assert collected == seq(|userSkills|, i requires 0 <= i < |userSkills| => Strength(userSkills[i], relevant, maxFrequency));
  }

  /**
   * `analyze_skills`, given the user's skills and the market counter: the
   * relevant skills, the missing ones by priority, the ten most frequent, and the
   * strength of each user skill.
   */
  method AnalyzeSkills(userSkills: seq<string>, counter: map<string, nat>, totalJobs: nat) returns (r: Analysis)
    ensures var relevant := Relevant(counter);
      var maxFrequency := MaxFrequency(relevant);
      && r.userSkills == userSkills
      && r.marketSkills == relevant.Keys
      && r.totalJobsAnalyzed == totalJobs
      && MissingReport(r.missingSkills, relevant, userSkills, maxFrequency)
      && TopReport(r.topMarketSkills, relevant)
      && StrengthReport(r.skillStrengths, userSkills, relevant, maxFrequency)
  {
    var relevant := Relevant(counter);
    var items := Items(relevant);
    var maxFrequency := ComputeMaxFrequency(items, relevant);
    var missing := MissingSkills(items, relevant, userSkills, maxFrequency);
    var top := TopMarketSkills(items, relevant);
    var strengths := SkillStrengths(userSkills, relevant, maxFrequency);
    r := Analysis(userSkills, relevant.Keys, missing, top, strengths, totalJobs);
  }

  function SkillOfMissing(e: MissingSkill): string { e.skill }
  function SkillOfItem(e: SkillFrequency): string { e.skill }

  /** Distinct keys, one item per key: as many items as keys. */
  lemma ItemsCount(items: seq<SkillFrequency>, relevant: map<string, nat>)
    requires forall e :: e in items ==> e.skill in relevant && e.frequency == relevant[e.skill]
    requires forall k :: k in relevant ==> SkillFrequency(k, relevant[k]) in items
    requires forall i, j :: 0 <= i < j < |items| ==> items[i].skill != items[j].skill
    ensures |items| == |relevant|
  {
    var keys := set i | 0 <= i < |items| :: items[i].skill;
    assert keys == relevant.Keys by {
      forall k | k in relevant ensures k in keys {
        var i :| 0 <= i < |items| && items[i] == SkillFrequency(k, relevant[k]);
      }
    }
    InjectiveImage(items);
  }

  lemma {:induction false} InjectiveImage(items: seq<SkillFrequency>)
    requires forall i, j :: 0 <= i < j < |items| ==> items[i].skill != items[j].skill
    ensures |set i | 0 <= i < |items| :: items[i].skill| == |items|
  {
    if items != [] {
      var n := |items| - 1;
      var prefix := items[..n];
      InjectiveImage(prefix);
      var a := set i | 0 <= i < |prefix| :: prefix[i].skill;
      var b := set i | 0 <= i < |items| :: items[i].skill;
      assert b == a + {items[n].skill} by {
        forall k | k in b ensures k in a || k == items[n].skill {
          var i :| 0 <= i < |items| && items[i].skill == k;
          if i < n { assert prefix[i] == items[i]; }
        }
        forall k | k in a ensures k in b {
          var i :| 0 <= i < |prefix| && prefix[i].skill == k;
          assert items[i] == prefix[i];
        }
      }
      assert items[n].skill !in a;
    }
  }

  /** The first ten of the items sorted by frequency are the most frequent. */
  lemma TopSpec(sorted: seq<SkillFrequency>, top: seq<SkillFrequency>, relevant: map<string, nat>)
    requires SortedBy(sorted, FrequencyOf, Descending)
    requires forall e :: e in sorted <==> e.skill in relevant && e.frequency == relevant[e.skill]
    requires |sorted| == |relevant|
    requires top == if |sorted| <= 10 then sorted else sorted[..10]
    ensures TopReport(top, relevant)
  {
    assert SortedBy(top, FrequencyOf, Descending) by {
      forall i, j | 0 <= i < j < |top| ensures !Descending(FrequencyOf(top[j]), FrequencyOf(top[i])) {
        assert top[i] == sorted[i] && top[j] == sorted[j];
      }
    }
    forall e, k | e in top && k in relevant && SkillFrequency(k, relevant[k]) !in top
      ensures relevant[k] <= e.frequency
    {
      var x := SkillFrequency(k, relevant[k]);
      assert x in sorted;
      var i :| 0 <= i < |top| && top[i] == e;
      var j :| 0 <= j < |sorted| && sorted[j] == x;
      assert sorted[i] == e;
      assert !Descending(FrequencyOf(sorted[j]), FrequencyOf(sorted[i]));
    }
  }

  // ---------------------------------------------------------------------------
  // The user's skills and the whole service

  /** `list(s)` for a set: its elements, each once, in some order. */
  method ListOf(s: set<string>) returns (r: seq<string>)
    ensures forall x :: x in r <==> x in s
    ensures forall i, j :: 0 <= i < j < |r| ==> r[i] != r[j]
  {
    r := [];
    var remaining := s;
    while remaining != {}
      invariant remaining <= s
      invariant forall x :: x in r <==> x in s && x !in remaining
      invariant forall i, j :: 0 <= i < j < |r| ==> r[i] != r[j]
      decreases |remaining|
    {
      var x :| x in remaining;
      r := r + [x];
      remaining := remaining - {x};
    }
  }

  /** `_get_user_skills`: the normalised resume skills, or none without a resume or skills field. */
  method GetUserSkills(lookup: map<string, string>, resumeSkills: seq<string>, hasSkills: bool)
    returns (userSkills: seq<string>)
    ensures hasSkills ==> forall x :: x in userSkills <==> x in set s | s in resumeSkills :: SkillExtraction.NormalizeWith(lookup, s)
    ensures !hasSkills ==> userSkills == []
    ensures forall i, j :: 0 <= i < j < |userSkills| ==> userSkills[i] != userSkills[j]
  {
    if !hasSkills {
      return [];
    }
    var normalized := SkillExtraction.NormalizeSkillList(lookup, resumeSkills);
    userSkills := ListOf(normalized);
  }

  /**
   * The whole service: the user's skills, the market counter over the cached jobs,
   * and the report built from both.
   */
  method AnalyzeUserSkills(lookup: map<string, string>, resumeSkills: seq<string>, hasSkills: bool, jobs: seq<CachedText>)
    returns (r: Analysis, ghost sets: seq<set<string>>)
    ensures |sets| == r.totalJobsAnalyzed == (if |jobs| <= MaxJobsRead then |jobs| else MaxJobsRead)
    ensures forall i :: 0 <= i < |sets| ==>
      sets[i] == SkillExtraction.ExtractedWith(lookup, jobs[i].title + " " + jobs[i].description)
    ensures var relevant := Relevant(Counts(sets));
      && r.marketSkills == relevant.Keys
      && (hasSkills ==> forall x :: x in r.userSkills <==> x in set s | s in resumeSkills :: SkillExtraction.NormalizeWith(lookup, s))
      && (!hasSkills ==> r.userSkills == [])
      && MissingReport(r.missingSkills, relevant, r.userSkills, MaxFrequency(relevant))
      && TopReport(r.topMarketSkills, relevant)
      && StrengthReport(r.skillStrengths, r.userSkills, relevant, MaxFrequency(relevant))
  {
    var userSkills := GetUserSkills(lookup, resumeSkills, hasSkills);
    var counter, totalJobs;
    counter, totalJobs, sets := GetMarketSkills(lookup, jobs);
    r := AnalyzeSkills(userSkills, counter, totalJobs);
  }
}
