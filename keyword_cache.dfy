/**
 * `search_jobs`: the keyword search route with its 24-hour cache. The
 * `cached_jobs` collection is a sequence of documents in insertion order, each
 * tagged with the digest of the search that fetched it. A page whose first
 * document is fresh is served from the collection; a stale one removes every
 * document of the search; otherwise the API is asked and its records are
 * appended.
 */
module KeywordCache {
  import opened Wrappers
  import opened Text
  import opened Postings
  import opened JobFetcher
  import opened Paging

  /** `timedelta(hours=24)`. */
  const CacheTtl: nat := 24 * Hour

  /** The largest `limit` the route accepts. */
  const MaxLimit: nat := 100

  /** `str(remote).lower()`. */
  function BoolLower(b: bool): string {
    if b then "true" else "false"
  }

  /** The string `generate_query_key` hashes; an absent or empty location contributes nothing. */
  function RawKey(query: string, location: Option<string>, remote: bool): string {
    Lower(query) + "-" + (if location.Some? then Lower(location.value) else "") + "-" + BoolLower(remote)
  }

  /** `generate_query_key`, with the MD5 hex digest given as `digest`. */
  function QueryKey(digest: string -> string, query: string, location: Option<string>, remote: bool): string {
    digest(RawKey(query, location, remote))
  }

  /** A document of `cached_jobs`: the fetched record with its `query_key` and `fetched_at`. */
  datatype CachedDoc = CachedDoc(job: JobRecord, queryKey: string, fetchedAt: Option<Instant>)

  /** The body of a `search_jobs` response (`code` is always 200). */
  datatype SearchPage = SearchPage(data: seq<CachedDoc>, message: string, page: nat, limit: nat,
                                   total: nat, totalPages: nat)

  /** The documents `find({"query_key": key})` yields, in collection order. */
  function WithQueryKey(docs: seq<CachedDoc>, key: string): (r: seq<CachedDoc>)
    ensures |r| <= |docs|
  {
    if docs == [] then []
    else
      var last := docs[|docs| - 1];
      WithQueryKey(docs[..|docs| - 1], key) + (if last.queryKey == key then [last] else [])
  }

  /** The collection after `delete_many({"query_key": key})`. */
  function WithoutQueryKey(docs: seq<CachedDoc>, key: string): (r: seq<CachedDoc>)
    ensures |r| <= |docs|
  {
    if docs == [] then []
    else
      var last := docs[|docs| - 1];
      WithoutQueryKey(docs[..|docs| - 1], key) + (if last.queryKey != key then [last] else [])
  }

  /** The documents `find(...).skip((page-1)*limit).limit(limit)` returns. */
  function Window(docs: seq<CachedDoc>, key: string, page: nat, limit: nat): seq<CachedDoc>
    requires page >= 1
  {
    PageOf(WithQueryKey(docs, key), page, limit)
  }

  /** The window is non-empty and its first document was fetched less than 24 hours before `now`. */
  predicate FreshWindow(window: seq<CachedDoc>, now: Instant) {
    window != [] && window[0].fetchedAt.Some? && now - window[0].fetchedAt.value < CacheTtl
  }

  /** The window is non-empty and its first document carries a `fetched_at` that is 24 hours old or more. */
  predicate StaleWindow(window: seq<CachedDoc>, now: Instant) {
    window != [] && window[0].fetchedAt.Some? && now - window[0].fetchedAt.value >= CacheTtl
  }

  /** The documents inserted for a fetch: every record tagged with the key and the clock reading. */
  function Tagged(fetched: seq<JobRecord>, key: string, now: Instant): (r: seq<CachedDoc>)
    ensures |r| == |fetched|
  {
    seq(|fetched|, i requires 0 <= i < |fetched| => CachedDoc(fetched[i], key, Some(now)))
  }

  /** The collection once a stale page has been cleared, before the fetch. */
  function Cleared(docs: seq<CachedDoc>, key: string, page: nat, limit: nat, now: Instant): seq<CachedDoc>
    requires page >= 1
  {
    if StaleWindow(Window(docs, key, page, limit), now) then WithoutQueryKey(docs, key) else docs
  }

  /**
   * The response of `search_jobs` and the collection afterwards, where `key` is the
   * search's digest and `fetched` is what `fetch_jobs_from_api` would return.
   */
  function Search(docs: seq<CachedDoc>, key: string, page: nat, limit: nat, now: Instant,
                  fetched: seq<JobRecord>): (SearchPage, seq<CachedDoc>)
    requires page >= 1 && 1 <= limit
  {
    var matching := WithQueryKey(docs, key);
    var window := Window(docs, key, page, limit);
    if FreshWindow(window, now) then
      (SearchPage(window, "Jobs retrieved from cache", page, limit, |matching|, PageCount(|matching|, limit)), docs)
    else
      var remaining := Cleared(docs, key, page, limit, now);
      if fetched == [] then
        (SearchPage([], "No jobs found", page, limit, 0, 0), remaining)
      else
        var added := Tagged(fetched, key, now);
        (SearchPage(PageOf(added, page, limit), "Jobs fetched from API", page, limit,
                    |fetched|, PageCount(|fetched|, limit)),
         remaining + added)
  }

  /** The `cached_jobs` collection. */
  class KeywordStore {
    var docs: seq<CachedDoc>

    constructor ()
      ensures docs == []
    {
      docs := [];
    }

    /**
     * `search_jobs(query, location, remote, page, limit)` at clock reading `now`,
     * with `digest` standing for MD5 and `fetched` for the API's answer.
     */
    method SearchJobs(digest: string -> string, query: string, location: Option<string>, remote: bool,
                      page: nat, limit: nat, now: Instant, fetched: seq<JobRecord>) returns (r: SearchPage)
      requires |query| >= 1 && page >= 1 && 1 <= limit <= MaxLimit
      modifies this
      ensures (r, docs) == Search(old(docs), QueryKey(digest, query, location, remote), page, limit, now, fetched)
    {
      var key := digest(RawKey(query, location, remote));
      SearchCases(docs, key, page, limit, now, fetched);
      var skip := (page - 1) * limit;
      var matching := WithQueryKey(docs, key);
      var total := |matching|;
      var window := Slice(matching, skip, skip + limit);
      if window != [] {
        var first := window[0];
        if first.fetchedAt.Some? {
          if now - first.fetchedAt.value < CacheTtl {
            return SearchPage(window, "Jobs retrieved from cache", page, limit, total, PageCount(total, limit));
          } else {
            docs := WithoutQueryKey(docs, key);
          }
        }
      }
      if fetched == [] {
        return SearchPage([], "No jobs found", page, limit, 0, 0);
      }
      var toCache := TagAll(fetched, key, now);
      docs := docs + toCache;
      var totalFetched := |fetched|;
      r := SearchPage(Slice(toCache, skip, skip + limit), "Jobs fetched from API", page, limit,
                      totalFetched, PageCount(totalFetched, limit));
    }
  }

  /** `Search` case by case, in the terms the handler computes them. */
  lemma SearchCases(docs: seq<CachedDoc>, key: string, page: nat, limit: nat, now: Instant, fetched: seq<JobRecord>)
    requires page >= 1 && 1 <= limit
    ensures var window := Slice(WithQueryKey(docs, key), (page - 1) * limit, (page - 1) * limit + limit);
      var total := |WithQueryKey(docs, key)|;
      var remaining := if window != [] && window[0].fetchedAt.Some? && now - window[0].fetchedAt.value >= CacheTtl
                       then WithoutQueryKey(docs, key) else docs;
      && (window != [] && window[0].fetchedAt.Some? && now - window[0].fetchedAt.value < CacheTtl ==>
            Search(docs, key, page, limit, now, fetched)
              == (SearchPage(window, "Jobs retrieved from cache", page, limit, total, PageCount(total, limit)), docs))
      && (!(window != [] && window[0].fetchedAt.Some? && now - window[0].fetchedAt.value < CacheTtl) && fetched == [] ==>
            Search(docs, key, page, limit, now, fetched) == (SearchPage([], "No jobs found", page, limit, 0, 0), remaining))
      && (!(window != [] && window[0].fetchedAt.Some? && now - window[0].fetchedAt.value < CacheTtl) && fetched != [] ==>
            Search(docs, key, page, limit, now, fetched)
              == (SearchPage(Slice(Tagged(fetched, key, now), (page - 1) * limit, (page - 1) * limit + limit),
                             "Jobs fetched from API", page, limit, |fetched|, PageCount(|fetched|, limit)),
                  remaining + Tagged(fetched, key, now)))
  {
  }

  /** The loop that tags each fetched record with the key and `fetched_at` before `insert_many`. */
  method TagAll(fetched: seq<JobRecord>, key: string, now: Instant) returns (toCache: seq<CachedDoc>)
    ensures toCache == Tagged(fetched, key, now)
  {
    toCache := [];
    for i := 0 to |fetched|
      invariant toCache == Tagged(fetched[..i], key, now)
    {
      toCache := toCache + [CachedDoc(fetched[i], key, Some(now))];
    }
    assert fetched[..|fetched|] == fetched;
  }

  /** Letter case does not matter, and an absent location and an empty one give the same key. */
  lemma RawKeyIgnoresCase(query: string, location: string, remote: bool)
    ensures RawKey(Lower(query), Some(Lower(location)), remote) == RawKey(query, Some(location), remote)
    ensures RawKey(query, Some(""), remote) == RawKey(query, None, remote)
  {
    LowerIsLowered(query);
    LowerOfLowered(Lower(query));
    LowerIsLowered(location);
    LowerOfLowered(Lower(location));
  }

  /**
   * The raw key does not separate the query from the location: a query containing
   * "-" can share its key, and so its cached documents, with another search.
   */
  lemma RawKeyAmbiguous()
    ensures RawKey("a-b", None, false) == RawKey("a", Some("b-"), false)
  {
    assert Lower("a-b") == "a-b";
    assert Lower("a") == "a";
    assert Lower("b-") == "b-";
  }

  lemma {:induction false} WithQueryKeyAppend(a: seq<CachedDoc>, b: seq<CachedDoc>, key: string)
    ensures WithQueryKey(a + b, key) == WithQueryKey(a, key) + WithQueryKey(b, key)
    ensures WithoutQueryKey(a + b, key) == WithoutQueryKey(a, key) + WithoutQueryKey(b, key)
    decreases |b|
  {
    if b == [] {
      assert a + b == a;
    } else {
      var c := b[..|b| - 1];
      assert (a + b)[..|a + b| - 1] == a + c;
      WithQueryKeyAppend(a, c, key);
    }
  }

  /** The inserted documents all belong to the search. */
  lemma {:induction false} TaggedKeyed(fetched: seq<JobRecord>, key: string, now: Instant)
    ensures WithQueryKey(Tagged(fetched, key, now), key) == Tagged(fetched, key, now)
    ensures WithoutQueryKey(Tagged(fetched, key, now), key) == []
    decreases |fetched|
  {
    if fetched != [] {
      var c := fetched[..|fetched| - 1];
      var t := Tagged(fetched, key, now);
      assert t[..|t| - 1] == Tagged(c, key, now);
      TaggedKeyed(c, key, now);
      assert Tagged(c, key, now) + [t[|t| - 1]] == t;
    }
  }

  /** After `delete_many` nothing of the search is left, and deleting again changes nothing. */
  lemma {:induction false} DeleteClears(xs: seq<CachedDoc>, key: string)
    ensures WithQueryKey(WithoutQueryKey(xs, key), key) == []
    ensures WithoutQueryKey(WithoutQueryKey(xs, key), key) == WithoutQueryKey(xs, key)
    decreases |xs|
  {
    if xs != [] {
      var c := xs[..|xs| - 1];
      var last := xs[|xs| - 1];
      DeleteClears(c, key);
      if last.queryKey != key {
        var w := WithoutQueryKey(c, key) + [last];
        assert w[..|w| - 1] == WithoutQueryKey(c, key);
      } else {
        assert WithoutQueryKey(xs, key) == WithoutQueryKey(c, key);
      }
    }
  }

  /**
   * A page is served from the collection exactly when its window is non-empty and
   * its first document is fresh; then the collection is unchanged, the data is the
   * window, `total` counts every document of the search, and the page lies within
   * `total_pages`.
   */
  lemma ServedFromCacheIff(docs: seq<CachedDoc>, key: string, page: nat, limit: nat, now: Instant,
                           fetched: seq<JobRecord>)
    requires page >= 1 && 1 <= limit
    ensures var (r, after) := Search(docs, key, page, limit, now, fetched);
      && (r.message == "Jobs retrieved from cache" <==> FreshWindow(Window(docs, key, page, limit), now))
      && (r.message == "Jobs retrieved from cache" ==>
            && after == docs
            && r.data == Window(docs, key, page, limit)
            && r.total == |WithQueryKey(docs, key)|
            && 1 <= r.page <= r.totalPages)
  {
    var window := Window(docs, key, page, limit);
    if FreshWindow(window, now) {
      PageNonEmptyIff(WithQueryKey(docs, key), page, limit);
    }
  }

  /**
   * Documents of other searches are never touched: whatever the outcome, the
   * collection restricted to other keys is what it was.
   */
  lemma OtherSearchesUntouched(docs: seq<CachedDoc>, key: string, page: nat, limit: nat, now: Instant,
                               fetched: seq<JobRecord>)
    requires page >= 1 && 1 <= limit
    ensures WithoutQueryKey(Search(docs, key, page, limit, now, fetched).1, key) == WithoutQueryKey(docs, key)
  {
    if !FreshWindow(Window(docs, key, page, limit), now) {
      var remaining := Cleared(docs, key, page, limit, now);
      if StaleWindow(Window(docs, key, page, limit), now) {
        DeleteClears(docs, key);
      }
      assert WithoutQueryKey(remaining, key) == WithoutQueryKey(docs, key);
      if fetched != [] {
        var added := Tagged(fetched, key, now);
        WithQueryKeyAppend(remaining, added, key);
        TaggedKeyed(fetched, key, now);
      }
    }
  }

  /**
   * Without a fresh page, the documents of the search afterwards are the surviving
   * ones followed by the fetched records: a stale page leaves none of the old ones,
   * while a page past the cached documents keeps them all and appends duplicates.
   */
  lemma KeyedAfterMiss(docs: seq<CachedDoc>, key: string, page: nat, limit: nat, now: Instant,
                       fetched: seq<JobRecord>)
    requires page >= 1 && 1 <= limit
    requires !FreshWindow(Window(docs, key, page, limit), now)
    ensures WithQueryKey(Search(docs, key, page, limit, now, fetched).1, key) ==
      (if StaleWindow(Window(docs, key, page, limit), now) then [] else WithQueryKey(docs, key))
      + Tagged(fetched, key, now)
  {
    var remaining := Cleared(docs, key, page, limit, now);
    if StaleWindow(Window(docs, key, page, limit), now) {
      DeleteClears(docs, key);
    }
    var added := Tagged(fetched, key, now);
    if fetched == [] {
      assert remaining + added == remaining;
    } else {
      WithQueryKeyAppend(remaining, added, key);
      TaggedKeyed(fetched, key, now);
    }
  }

  /** An empty fetch answers with an empty page and inserts nothing. */
  lemma EmptyFetch(docs: seq<CachedDoc>, key: string, page: nat, limit: nat, now: Instant)
    requires page >= 1 && 1 <= limit
    requires !FreshWindow(Window(docs, key, page, limit), now)
    ensures var (r, after) := Search(docs, key, page, limit, now, []);
      && r.data == [] && r.total == 0 && r.totalPages == 0
      && after == Cleared(docs, key, page, limit, now)
      && |after| <= |docs|
  {
  }

  /**
   * After a search has fetched afresh over no documents of its own (none cached, or
   * a stale page cleared), repeating the same page within 24 hours is served from
   * the collection with the same data and the same total, unless that page was empty.
   */
  lemma RefetchThenHit(docs: seq<CachedDoc>, key: string, page: nat, limit: nat, now: Instant,
                       fetched: seq<JobRecord>, later: Instant, fetchedLater: seq<JobRecord>)
    requires page >= 1 && 1 <= limit
    requires WithQueryKey(docs, key) == [] || StaleWindow(Window(docs, key, page, limit), now)
    requires now <= later < now + CacheTtl
    ensures var (r1, after) := Search(docs, key, page, limit, now, fetched);
      var r2 := Search(after, key, page, limit, later, fetchedLater).0;
      r1.data != [] ==>
        && r2.message == "Jobs retrieved from cache"
        && r2.data == r1.data
        && r2.total == r1.total
  {
    var res := Search(docs, key, page, limit, now, fetched);
    var r1, after := res.0, res.1;
    if r1.data != [] {
      var window := Window(docs, key, page, limit);
      assert !FreshWindow(window, now);
      var added := Tagged(fetched, key, now);
      assert r1.data == PageOf(added, page, limit);
      KeyedAfterMiss(docs, key, page, limit, now, fetched);
      if WithQueryKey(docs, key) == [] {
        assert [] + added == added;
      }
      assert WithQueryKey(after, key) == added;
      assert Window(after, key, page, limit) == r1.data;
      PageOfSpec(added, page, limit);
      assert r1.data[0].fetchedAt == Some(now);
      ServedFromCacheIff(after, key, page, limit, later, fetchedLater);
    }
  }
}
