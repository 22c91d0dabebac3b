/**
 * The WeWorkRemotely RSS adapter: the description has its HTML tags removed,
 * the title is split as "Role: Company", and the query filter looks at the split
 * title and the cleaned description.
 */
module ScrapeWwr {
  import opened Wrappers
  import opened Text
  import opened Postings
  import opened Normalize
  import opened Feeds

  /** The regex `<[^>]+>` matches at `p`: a '<', at least one character other than '>', then a '>'. */
  predicate TagAt(s: string, p: int) {
    0 <= p && p + 1 < |s| && s[p] == '<' && s[p + 1] != '>' && exists q :: p + 2 <= q < |s| && s[q] == '>'
  }

  /** No match of `<[^>]+>` anywhere. */
  predicate TagFree(s: string) {
    forall p :: 0 <= p < |s| ==> !TagAt(s, p)
  }

  /** `re.sub(r'<[^>]+>', '', s)`: each leftmost match, which ends at the first '>' after its '<', is removed. */
  function StripTags(s: string): (r: string)
    ensures forall c :: c in r ==> c in s
    decreases |s|
  {
    if s == [] then []
    else
      var q := IndexOf(s, ">", 1);
      if s[0] == '<' && q >= 2 then StripTags(s[q + 1..])
      else [s[0]] + StripTags(s[1..])
  }

  /** The description clean-up `re.sub(r'<[^>]+>', '', raw).strip()`. */
  function CleanDescription(raw: string): string {
    Strip(StripTags(raw))
  }

  /** A match at 0 is exactly what `StripTags` removes. */
  lemma TagAtStart(s: string)
    requires s != []
    ensures TagAt(s, 0) <==> s[0] == '<' && IndexOf(s, ">", 1) >= 2
  {
    var q := IndexOf(s, ">", 1);
    if |s| >= 2 {
      assert s[1..2] == [s[1]];
    }
    if TagAt(s, 0) {
      var k :| 2 <= k < |s| && s[k] == '>';
      assert s[k..k + 1] == [s[k]];
      assert OccursAt(s, ">", k);
    }
    if s[0] == '<' && q >= 2 {
      assert s[q..q + 1] == ">";
    }
  }

  lemma TagFreeTail(s: string)
    requires s != [] && TagFree(s)
    ensures TagFree(s[1..])
  {
    forall p | 0 <= p < |s[1..]| ensures !TagAt(s[1..], p) {
      assert !TagAt(s, p + 1);
    }
  }

  /** The output of `StripTags` contains no further match. */
  lemma {:induction false} StripTagsTagFree(s: string)
    ensures TagFree(StripTags(s))
    decreases |s|
  {
    if s != [] {
      var q := IndexOf(s, ">", 1);
      if s[0] == '<' && q >= 2 {
        StripTagsTagFree(s[q + 1..]);
      } else {
        var t := StripTags(s[1..]);
        StripTagsTagFree(s[1..]);
        var r := [s[0]] + t;
        forall p | 0 <= p < |r| ensures !TagAt(r, p) {
          if p == 0 && s[0] == '<' {
            if q == 1 {
              // the '>' right after the '<' is kept, so no match starts at 0
              assert s[1..2] == ">";
              assert s[1..] != [] && s[1..][0] != '<';
              assert r[1] == '>';
            } else {
              // no '>' after the '<', and the output only has characters of the input
              forall k | 1 <= k < |s| ensures s[k] != '>' {
                assert !OccursAt(s, ">", k);
                assert s[k..k + 1] == [s[k]];
              }
              assert '>' !in s[1..];
              assert '>' !in t;
              assert forall k :: 2 <= k < |r| ==> r[k] == t[k - 1];
            }
          } else if p > 0 {
            assert !TagAt(t, p - 1);
          }
        }
      }
    }
  }

  /** Text without a match is left as it is. */
  lemma {:induction false} StripTagsOfTagFree(s: string)
    requires TagFree(s)
    ensures StripTags(s) == s
    decreases |s|
  {
    if s != [] {
      TagAtStart(s);
      TagFreeTail(s);
      StripTagsOfTagFree(s[1..]);
    }
  }

  /** A slice of text without a match has none either. */
  lemma TagFreeSlice(s: string, lo: nat, hi: nat)
    requires TagFree(s) && lo <= hi <= |s|
    ensures TagFree(s[lo..hi])
  {
    var t := s[lo..hi];
    forall p | 0 <= p < |t| ensures !TagAt(t, p) {
      assert !TagAt(s, lo + p);
    }
  }

  /** Cleaning a cleaned description changes nothing. */
  lemma CleanDescriptionIdempotent(raw: string)
    ensures CleanDescription(CleanDescription(raw)) == CleanDescription(raw)
  {
    var t := StripTags(raw);
    StripTagsTagFree(raw);
    var lo, hi := TrimSlice(t, IsSpace);
    TagFreeSlice(t, lo, hi);
    StripTagsOfTagFree(Strip(t));
    TrimIdempotent(t, IsSpace);
  }

  /** A cleaned description contains no tag. */
  lemma CleanDescriptionTagFree(raw: string)
    ensures TagFree(CleanDescription(raw))
  {
    var t := StripTags(raw);
    StripTagsTagFree(raw);
    var lo, hi := TrimSlice(t, IsSpace);
    TagFreeSlice(t, lo, hi);
  }

  /** "Role: Company" split into (title, company); without a colon the company is "WeWorkRemotely". */
  function SplitTitle(fullTitle: string): (r: (string, string))
    ensures !Contains(fullTitle, ":") ==> r == (fullTitle, "WeWorkRemotely")
    ensures Contains(fullTitle, ":") ==>
      exists before, after :: fullTitle == before + ":" + after && !Contains(before, ":")
        && r == (Strip(before), Strip(after))
  {
    if Contains(fullTitle, ":") then
      var parts := SplitOnce(fullTitle, ":");
      (Strip(parts[0]), Strip(parts[1]))
    else (fullTitle, "WeWorkRemotely")
  }

  /** The query filter: an empty query, or the lowercased query in the split title or the description. */
  predicate Relevant(query: string, title: string, description: string) {
    query == "" || Contains(Lower(title), Lower(query)) || Contains(Lower(description), Lower(query))
  }

  /** The body of the per-item loop; `None` when the item is skipped. */
  function WwrItem(query: string, item: RssItem, now: Instant, hash: string -> int): Option<HybridJob> {
    if item.title.Absent? || item.link.Absent? then None
    else if item.description.Present? && item.description.text.None? then None
    else if item.title.text.None? then None
    else
      var fullTitle := item.title.text.value;
      var description := CleanDescription(if item.description.Present? then item.description.text.value else "");
      var (title, company) := SplitTitle(fullTitle);
      if !Relevant(query, title, description) then None
      else
        NormalizeJobData(FeedJobId("wwr-", item.link.text, fullTitle, hash), Some(title), Some(company), Some("Remote"),
                         Some(description), item.link.text, "wwr", now, Some("Full-time"), item.published,
                         [], RssTitle(fullTitle))
  }

  /** The loop body as a function of the item. */
  function WwrStep(query: string, now: Instant, hash: string -> int): RssItem -> Option<HybridJob> {
    item => WwrItem(query, item, now, hash)
  }

  /** The postings of a feed, in feed order; an unusable feed gives none. */
  function WwrJobs(query: string, feed: Feed<RssItem>, now: Instant, hash: string -> int): seq<HybridJob> {
    match feed
    case Unavailable => []
    case Items(items) => Collect(items, WwrStep(query, now, hash))
  }

  /** `scrape_wwr(query)` once the feed has been fetched and parsed. */
  method ScrapeWwr(query: string, feed: Feed<RssItem>, now: Instant, hash: string -> int)
    returns (jobs: seq<HybridJob>)
    ensures jobs == WwrJobs(query, feed, now, hash)
  {
    jobs := [];
    if feed.Unavailable? {
      return;
    }
    var step := WwrStep(query, now, hash);
    var items := feed.items;
    for i := 0 to |items|
      invariant jobs == Collect(items[..i], step)
    {
      CollectStep(items, i, step);
      var job := step(items[i]);
      if job.Some? {
        jobs := jobs + [job.value];
      }
    }
    assert items[..|items|] == items;
  }

  /**
   * When an item yields a posting (title, link and readable description present, the
   * filter passed, the publication date convertible), and what the posting holds: a
   * tag-free description, the "Role: Company" split, the tags.
   */
  lemma WwrItemSpec(query: string, item: RssItem, now: Instant, hash: string -> int)
    ensures var r := WwrItem(query, item, now, hash);
      && (r.Some? <==>
            && item.title.Present? && item.title.text.Some? && item.link.Present?
            && !(item.description.Present? && item.description.text.None?)
            && Relevant(query, SplitTitle(item.title.text.value).0,
                        CleanDescription(if item.description.Present? then item.description.text.value else ""))
            && (item.published.None? || UtcNaive(item.published.value).Some?))
      && (r.Some? ==>
        && var fullTitle := item.title.text.value;
        && var (title, company) := SplitTitle(fullTitle);
        && var description := CleanDescription(if item.description.Present? then item.description.text.value else "");
        && TagFree(r.value.description)
        && r.value.description == description
        && r.value.title == OrDefault(Some(title), "Unknown Title")
        && r.value.company == OrDefault(Some(company), "Unknown Company")
        && r.value.location == "Remote" && r.value.source == "wwr" && r.value.rawData == RssTitle(fullTitle)
        && r.value.jobId == FeedJobId("wwr-", item.link.text, fullTitle, hash))
  {
    if WwrItem(query, item, now, hash).Some? {
      CleanDescriptionTagFree(if item.description.Present? then item.description.text.value else "");
    }
  }

  /** The company half of the title is not searched: a query found only there drops the item. */
  lemma CompanyNotSearched(item: RssItem, now: Instant, hash: string -> int, query: string)
    requires item.title.Present? && item.title.text.Some? && item.link.Present? && item.description.Absent?
    requires query != ""
    requires !Contains(Lower(SplitTitle(item.title.text.value).0), Lower(query))
    requires !Contains(Lower(CleanDescription("")), Lower(query))
    ensures WwrItem(query, item, now, hash).None?
  {
  }

  /** Every posting of the feed comes from one of its items and is tagged as a WeWorkRemotely posting. */
  lemma WwrJobsTagged(query: string, feed: Feed<RssItem>, now: Instant, hash: string -> int)
    ensures var jobs := WwrJobs(query, feed, now, hash);
      && (feed.Unavailable? ==> jobs == [])
      && forall j :: j in jobs ==>
           j.source == "wwr" && j.location == "Remote" && j.rawData.RssTitle? && TagFree(j.description)
  {
    if feed.Items? {
      var f := WwrStep(query, now, hash);
      CollectMembers(feed.items, f);
      forall j | j in WwrJobs(query, feed, now, hash)
        ensures j.source == "wwr" && j.location == "Remote" && j.rawData.RssTitle? && TagFree(j.description)
      {
        var i :| 0 <= i < |feed.items| && f(feed.items[i]) == Some(j);
        WwrItemSpec(query, feed.items[i], now, hash);
      }
    }
  }
}
