/**
 * `get_hybrid_jobs`: a read-through cache in front of the four job sources. A
 * fresh entry (younger than six hours) is served as stored; otherwise the four
 * adapter outcomes are merged in the order api, remoteok, wwr, hn, deduplicated,
 * sorted newest first, and written back over the entry for the key.
 */
module MergeJobs {
  import opened Wrappers
  import opened Text
  import opened Sorting
  import opened Postings
  import opened Deduplicate

  /** `CACHE_DURATION_HOURS`, as a duration. */
  const CacheTtl: nat := 6 * Hour

  /** The tags of the four sources, in the order their results are processed. */
  const SourceTags: seq<string> := ["api", "remoteok", "wwr", "hn"]

  /** One adapter's entry in `asyncio.gather(..., return_exceptions=True)`: a list, or an exception. */
  datatype AdapterOutcome = Returned(jobs: seq<HybridJob>) | Raised

  /** A document of the cache collection; `fetchedAt` is `None` when the field is absent. */
  datatype CacheEntry = CacheEntry(jobs: seq<HybridJob>, sourcesUsed: seq<string>, fetchedAt: Option<Instant>)

  /** The dictionary `get_hybrid_jobs` returns. */
  datatype HybridResult = HybridResult(jobs: seq<HybridJob>, sourcesUsed: seq<string>, fromCache: bool)

  /** `str(remote)`. */
  function BoolStr(b: bool): string {
    if b then "True" else "False"
  }

  /** `f"{query.lower()}_{location.lower()}_{remote}"`. */
  function CacheKey(query: string, location: string, remote: bool): string {
    Lower(query) + "_" + Lower(location) + "_" + BoolStr(remote)
  }

  /** An entry exists for `key`, has a `fetched_at`, and is younger than the TTL. */
  predicate IsFresh(entries: map<string, CacheEntry>, key: string, now: Instant) {
    key in entries && entries[key].fetchedAt.Some? && now - entries[key].fetchedAt.value < CacheTtl
  }

  /** The jobs of the outcomes that returned a list, concatenated in order. */
  function Gathered(outcomes: seq<AdapterOutcome>): seq<HybridJob> {
    if outcomes == [] then []
    else
      var last := outcomes[|outcomes| - 1];
      Gathered(outcomes[..|outcomes| - 1]) + (if last.Returned? then last.jobs else [])
  }

  /** The tags of the outcomes that returned a non-empty list, in order. */
  function UsedTags(outcomes: seq<AdapterOutcome>): seq<string>
    requires |outcomes| <= |SourceTags|
  {
    if outcomes == [] then []
    else
      var i := |outcomes| - 1;
      UsedTags(outcomes[..i]) + (if outcomes[i].Returned? && outcomes[i].jobs != [] then [SourceTags[i]] else [])
  }

  /** The sort key `x.published_at or datetime.min`. */
  function PublishedKey(j: HybridJob): int {
    j.publishedAt.GetOr(0)
  }

  /** `unique_jobs.sort(key=lambda x: x.published_at or datetime.min, reverse=True)`. */
  function NewestFirst(jobs: seq<HybridJob>): seq<HybridJob> {
    SortBy(jobs, PublishedKey, Descending)
  }

  /** The result of a cache miss. */
  function Aggregate(outcomes: seq<AdapterOutcome>): HybridResult
    requires |outcomes| == 4
  {
    HybridResult(NewestFirst(Dedupe(Gathered(outcomes))), UsedTags(outcomes), false)
  }

  /** What one call returns and what the cache holds afterwards. */
  function Serve(entries: map<string, CacheEntry>, query: string, location: string, remote: bool,
                 now: Instant, outcomes: seq<AdapterOutcome>): (HybridResult, map<string, CacheEntry>)
    requires |outcomes| == 4
  {
    var key := CacheKey(query, location, remote);
    if IsFresh(entries, key, now) then
      (HybridResult(entries[key].jobs, entries[key].sourcesUsed, true), entries)
    else
      var r := Aggregate(outcomes);
      (r, entries[key := CacheEntry(r.jobs, r.sourcesUsed, Some(now))])
  }

  /** The `hybrid_jobs_cache` collection, keyed by `query_key`. */
  class HybridCache {
    var entries: map<string, CacheEntry>

    constructor ()
      ensures entries == map[]
    {
      entries := map[];
    }

    /**
     * `get_hybrid_jobs(query, location, remote)` at clock reading `now`, where
     * `outcomes` are what the four adapters produce for this call.
     */
    method GetHybridJobs(query: string, location: string, remote: bool, now: Instant,
                         outcomes: seq<AdapterOutcome>) returns (r: HybridResult)
      requires |outcomes| == 4
      modifies this
      ensures (r, entries) == Serve(old(entries), query, location, remote, now, outcomes)
    {
      var key := Lower(query) + "_" + Lower(location) + "_" + (if remote then "True" else "False");
      if key in entries {
        var entry := entries[key];
        if entry.fetchedAt.Some? && now - entry.fetchedAt.value < CacheTtl {
          return HybridResult(entry.jobs, entry.sourcesUsed, true);
        }
      }
      var allJobs: seq<HybridJob> := [];
      var sourcesUsed: seq<string> := [];
      for i := 0 to 4
        invariant allJobs == Gathered(outcomes[..i])
        invariant sourcesUsed == UsedTags(outcomes[..i])
      {
        assert outcomes[..i + 1][..i] == outcomes[..i];
        match outcomes[i]
        case Returned(jobs) =>
          allJobs := allJobs + jobs;
          if jobs != [] {
            sourcesUsed := sourcesUsed + [SourceTags[i]];
          }
        case Raised =>
      }
      assert outcomes[..4] == outcomes;
      var buffer := new HybridJob[|allJobs|](k requires 0 <= k < |allJobs| => allJobs[k]);
      assert buffer[..] == allJobs;
      var unique := DeduplicateJobs(buffer);
      unique := NewestFirst(unique);
      entries := entries[key := CacheEntry(unique, sourcesUsed, Some(now))];
      r := HybridResult(unique, sourcesUsed, false);
    }
  }

  /** The key ignores letter case in the query and the location. */
  lemma CacheKeyIgnoresCase(query: string, location: string, remote: bool)
    ensures CacheKey(Lower(query), Lower(location), remote) == CacheKey(query, location, remote)
  {
    LowerIsLowered(query);
    LowerOfLowered(Lower(query));
    LowerIsLowered(location);
    LowerOfLowered(Lower(location));
  }

  /** The remote flag always changes the key. */
  lemma CacheKeySeparatesRemote(query: string, location: string)
    ensures CacheKey(query, location, true) != CacheKey(query, location, false)
  {
    var a, b := CacheKey(query, location, true), CacheKey(query, location, false);
    assert |a| + 1 == |b|;
  }

  /** A hit returns the stored entry, marks it as cached, and writes nothing. */
  lemma HitServesStored(entries: map<string, CacheEntry>, query: string, location: string, remote: bool,
                        now: Instant, outcomes: seq<AdapterOutcome>)
    requires |outcomes| == 4
    requires IsFresh(entries, CacheKey(query, location, remote), now)
    ensures var (r, after) := Serve(entries, query, location, remote, now, outcomes);
      var e := entries[CacheKey(query, location, remote)];
      r.jobs == e.jobs && r.sourcesUsed == e.sourcesUsed && r.fromCache && after == entries
  {
  }

  /**
   * After a miss at `t`, the same request is served from the cache, with the same
   * jobs and sources, until `t + 6h` and not from then on; entries for other keys
   * are left as they were.
   */
  lemma MissThenServe(entries: map<string, CacheEntry>, query: string, location: string, remote: bool,
                      t: Instant, outcomes: seq<AdapterOutcome>, t': Instant, outcomes': seq<AdapterOutcome>)
    requires |outcomes| == 4 && |outcomes'| == 4
    requires !IsFresh(entries, CacheKey(query, location, remote), t)
    ensures var (r, after) := Serve(entries, query, location, remote, t, outcomes);
      var (r', after') := Serve(after, query, location, remote, t', outcomes');
      && !r.fromCache
      && (forall k :: k in entries && k != CacheKey(query, location, remote) ==> k in after && after[k] == entries[k])
      && (t' < t + CacheTtl <==> r'.fromCache)
      && (t' < t + CacheTtl ==> r'.jobs == r.jobs && r'.sourcesUsed == r.sourcesUsed && after' == after)
  {
  }

  /** The gathered jobs are exactly those of the adapters that returned a list. */
  lemma {:induction false} GatheredMembers(outcomes: seq<AdapterOutcome>)
    ensures forall j :: j in Gathered(outcomes) <==>
      exists i :: 0 <= i < |outcomes| && outcomes[i].Returned? && j in outcomes[i].jobs
  {
    if outcomes != [] {
      var p := outcomes[..|outcomes| - 1];
      GatheredMembers(p);
      forall j ensures j in Gathered(outcomes) <==>
        exists i :: 0 <= i < |outcomes| && outcomes[i].Returned? && j in outcomes[i].jobs
      {
        if j in Gathered(p) {
          var i :| 0 <= i < |p| && p[i].Returned? && j in p[i].jobs;
          assert outcomes[i] == p[i];
        }
        if exists i :: 0 <= i < |outcomes| && outcomes[i].Returned? && j in outcomes[i].jobs {
          var i :| 0 <= i < |outcomes| && outcomes[i].Returned? && j in outcomes[i].jobs;
          if i < |p| {
            assert p[i] == outcomes[i];
          }
        }
      }
    }
  }

  /** A tag is used iff its adapter returned a non-empty list; the tags keep the fixed order. */
  lemma {:induction false} UsedTagsExact(outcomes: seq<AdapterOutcome>)
    requires |outcomes| <= |SourceTags|
    ensures forall i :: 0 <= i < |outcomes| ==>
      (SourceTags[i] in UsedTags(outcomes) <==> outcomes[i].Returned? && outcomes[i].jobs != [])
    ensures forall t :: t in UsedTags(outcomes) ==> t in SourceTags[..|outcomes|]
    ensures Subsequence(UsedTags(outcomes), SourceTags[..|outcomes|])
  {
    if outcomes != [] {
      var n := |outcomes| - 1;
      var p := outcomes[..n];
      UsedTagsExact(p);
      assert SourceTags[..n + 1][..n] == SourceTags[..n];
      var u := UsedTags(outcomes);
      forall i | 0 <= i < |outcomes|
        ensures SourceTags[i] in u <==> outcomes[i].Returned? && outcomes[i].jobs != []
      {
        if i < n {
          assert p[i] == outcomes[i];
          assert SourceTags[n] !in SourceTags[..n];
          assert SourceTags[i] != SourceTags[n];
        } else {
          assert SourceTags[n] !in UsedTags(p);
        }
      }
      if u != UsedTags(p) {
        assert u[..|u| - 1] == UsedTags(p);
      } else if u != [] {
        assert Subsequence(u, SourceTags[..n]);
        assert SourceTags[..n + 1][..n] == SourceTags[..n];
      }
    }
  }

  /** What a miss returns: gathered, deduplicated, newest first, duplicates removed for good. */
  lemma AggregateProperties(outcomes: seq<AdapterOutcome>)
    requires |outcomes| == 4
    ensures var r := Aggregate(outcomes);
      && SortedBy(r.jobs, PublishedKey, Descending)
      && DistinctBy(r.jobs, Link)
      && DistinctBy(r.jobs, TitleKey)
      && (forall j :: j in r.jobs ==> j in Gathered(outcomes))
      && (forall k :: WithKey(r.jobs, PublishedKey, k) == WithKey(Dedupe(Gathered(outcomes)), PublishedKey, k))
  {
    var g := Gathered(outcomes);
    var d := Dedupe(g);
    var r := NewestFirst(d);
    assert Aggregate(outcomes).jobs == r;
    DedupedFromGathered(g);
    NewestFirstOfDistinct(d);
    SortByMembers(d, PublishedKey, Descending);
    assert forall j :: j in r ==> j in g;
  }

  /** Sorting the deduplicated jobs newest first keeps them distinct and keeps equal dates in order. */
  lemma NewestFirstOfDistinct(d: seq<HybridJob>)
    requires DistinctBy(d, Link) && DistinctBy(d, TitleKey)
    ensures var r := NewestFirst(d);
      && SortedBy(r, PublishedKey, Descending)
      && DistinctBy(r, Link)
      && DistinctBy(r, TitleKey)
      && (forall k :: WithKey(r, PublishedKey, k) == WithKey(d, PublishedKey, k))
  {
    DescendingIsOrder();
    SortBySorted(d, PublishedKey, Descending);
    SortByDistinctBy(d, PublishedKey, Descending, Link);
    SortByDistinctBy(d, PublishedKey, Descending, TitleKey);
    forall k {
      SortByStable(d, PublishedKey, Descending, k);
    }
  }

  /** The deduplicated jobs are distinct and each of them was gathered. */
  lemma DedupedFromGathered(g: seq<HybridJob>)
    ensures DistinctBy(Dedupe(g), Link) && DistinctBy(Dedupe(g), TitleKey)
    ensures forall j :: j in Dedupe(g) ==> j in g
  {
    DedupeProperties(g);
    SubsequenceMembers(Dedupe(g), PrioritySort(g));
    SortByMembers(g, JobPriority, Ascending);
  }
}
