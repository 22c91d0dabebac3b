/**
 * The RemoteOK RSS adapter: each item is filtered by the query, its title is split
 * as "Company: Role", and it becomes a posting with source "remoteok".
 */
module ScrapeRemoteOk {
  import opened Wrappers
  import opened Text
  import opened Postings
  import opened Normalize
  import opened Feeds

  /**
   * The item filter on `search_text = (full_title + " " + description).lower()`:
   * the lowercased query as a phrase, or else every whitespace-separated token of it.
   */
  predicate Relevant(query: string, searchText: string) {
    var q := Lower(query);
    Contains(searchText, q) || forall part :: part in Words(q) ==> Contains(searchText, part)
  }

  /** The phrase test adds nothing: an item passes iff every token of the query occurs. */
  lemma RelevantIffTokens(query: string, searchText: string)
    ensures Relevant(query, searchText) <==> forall part :: part in Words(Lower(query)) ==> Contains(searchText, part)
  {
    var q := Lower(query);
    if Contains(searchText, q) {
      WordsOccur(q);
      var i := IndexOf(searchText, q, 0);
      forall part | part in Words(q) ensures Contains(searchText, part) {
        var k :| OccursAt(q, part, k);
        OccursWithin(searchText, q, i, part, k);
        ContainsAt(searchText, part, i + k);
      }
    }
  }

  /** An empty query keeps every item. */
  lemma EmptyQueryRelevant(searchText: string)
    ensures Relevant("", searchText)
  {
    ContainsEmpty(searchText);
  }

  /** "Company: Role" split into (title, company); without a colon the company is "RemoteOK". */
  function SplitTitle(fullTitle: string): (r: (string, string))
    ensures !Contains(fullTitle, ":") ==> r == (fullTitle, "RemoteOK")
    ensures Contains(fullTitle, ":") ==>
      exists before, after :: fullTitle == before + ":" + after && !Contains(before, ":")
        && r == (Strip(after), Strip(before))
  {
    if Contains(fullTitle, ":") then
      var parts := SplitOnce(fullTitle, ":");
      (Strip(parts[1]), Strip(parts[0]))
    else (fullTitle, "RemoteOK")
  }

  /**
   * The body of the per-item loop: `None` when the item is skipped (no title or
   * link element, a `None` text that raises, a failed filter, or an overflowing date).
   * `hash` is Python's `hash` on strings.
   */
  function RemoteOkItem(query: string, item: RssItem, now: Instant, hash: string -> int): Option<HybridJob>
  {
    if item.title.Absent? || item.link.Absent? then None
    else if item.title.text.None? then None
    else if item.description.Present? && item.description.text.None? then None
    else
      var fullTitle := item.title.text.value;
      var description := if item.description.Present? then item.description.text.value else "";
      var applyLink := item.link.text;
      var searchText := Lower(fullTitle + " " + description);
      if !Relevant(query, searchText) then None
      else
        var (title, company) := SplitTitle(fullTitle);
        NormalizeJobData(FeedJobId("remoteok-", applyLink, fullTitle, hash), Some(title), Some(company), Some("Remote"),
                         Some(description), applyLink, "remoteok", now, Some("Full-time"), item.published,
                         [], RssTitle(fullTitle))
  }

  /** The loop body as a function of the item. */
  function RemoteOkStep(query: string, now: Instant, hash: string -> int): RssItem -> Option<HybridJob> {
    item => RemoteOkItem(query, item, now, hash)
  }

  /** The postings of a feed, in feed order; an unusable feed gives none. */
  function RemoteOkJobs(query: string, feed: Feed<RssItem>, now: Instant, hash: string -> int): seq<HybridJob> {
    match feed
    case Unavailable => []
    case Items(items) => Collect(items, RemoteOkStep(query, now, hash))
  }

  /** `scrape_remoteok(query)` once the feed has been fetched and parsed. */
  method ScrapeRemoteOk(query: string, feed: Feed<RssItem>, now: Instant, hash: string -> int)
    returns (jobs: seq<HybridJob>)
    ensures jobs == RemoteOkJobs(query, feed, now, hash)
  {
    jobs := [];
    if feed.Unavailable? {
      return;
    }
    var step := RemoteOkStep(query, now, hash);
    var items := feed.items;
    for i := 0 to |items|
      invariant jobs == Collect(items[..i], step)
    {
      CollectStep(items, i, step);
      var job := step(items[i]);
      if job.Some? {
        jobs := jobs + [job.value];
      }
    }
    assert items[..|items|] == items;
  }

  /** When an item yields a posting, and what that posting holds. */
  lemma RemoteOkItemSpec(query: string, item: RssItem, now: Instant, hash: string -> int)
    ensures var r := RemoteOkItem(query, item, now, hash);
      && (r.Some? ==>
            && item.title.Present? && item.title.text.Some? && item.link.Present?
            && var fullTitle := item.title.text.value;
            && var description := if item.description.Present? then item.description.text.value else "";
            && Relevant(query, Lower(fullTitle + " " + description))
            && r.value.location == "Remote" && r.value.source == "remoteok"
            && r.value.rawData == RssTitle(fullTitle)
            && r.value.jobId == FeedJobId("remoteok-", item.link.text, fullTitle, hash)
            && r.value.title == OrDefault(Some(SplitTitle(fullTitle).0), "Unknown Title")
            && r.value.company == OrDefault(Some(SplitTitle(fullTitle).1), "Unknown Company")
            && r.value.description == description)
      && (item.title.Present? && item.title.text.Some? && item.link.Present?
          && !(item.description.Present? && item.description.text.None?)
          && Relevant(query, Lower(item.title.text.value + " " + (if item.description.Present? then item.description.text.value else "")))
          && (item.published.None? || UtcNaive(item.published.value).Some?)
          ==> r.Some?)
  {
  }

  /** Every posting of the feed comes from one of its items and is tagged as a RemoteOK posting. */
  lemma RemoteOkJobsTagged(query: string, feed: Feed<RssItem>, now: Instant, hash: string -> int)
    ensures var jobs := RemoteOkJobs(query, feed, now, hash);
      && (feed.Unavailable? ==> jobs == [])
      && (feed.Items? ==> |jobs| <= |feed.items|)
      && forall j :: j in jobs ==>
           j.source == "remoteok" && j.location == "Remote" && j.rawData.RssTitle?
           && exists i :: 0 <= i < |feed.items| && RemoteOkItem(query, feed.items[i], now, hash) == Some(j)
  {
    if feed.Items? {
      var f := RemoteOkStep(query, now, hash);
      CollectMembers(feed.items, f);
      forall j | j in RemoteOkJobs(query, feed, now, hash)
        ensures j.source == "remoteok" && j.location == "Remote" && j.rawData.RssTitle?
      {
        var i :| 0 <= i < |feed.items| && f(feed.items[i]) == Some(j);
        RemoteOkItemSpec(query, feed.items[i], now, hash);
      }
    }
  }
}
