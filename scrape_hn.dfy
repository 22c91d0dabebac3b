/**
 * The Hacker News jobs page adapter: each `tr.athing` row whose title line holds
 * a link becomes a posting; the company is guessed from "X is hiring Y" or "X: Y".
 */
module ScrapeHn {
  import opened Wrappers
  import opened Text
  import opened Postings
  import opened Normalize
  import opened Feeds

  /**
   * The `<a>` inside `span.titleline`: `text` is `get_text(strip=True)`, `href` the
   * attribute if present. A found tag is truthy even when it has no children, so
   * only a missing `<a>` skips the row; a missing `href` raises `KeyError`, which
   * the per-row `except` turns into a skip.
   */
  datatype Anchor = Anchor(text: string, href: Option<string>)

  /** `span.titleline` of a row: missing, or present with its first `<a>` if any. */
  datatype TitleLine = NoTitleLine | TitleLine(anchor: Option<Anchor>)

  /** A `tr.athing` row and its `id` attribute. */
  datatype HnRow = HnRow(id: Option<string>, titleLine: TitleLine)

  const HnBase: string := "https://news.ycombinator.com/"

  /** Links not starting with "http" are taken as relative to the site. */
  function AbsoluteLink(link: string): (r: string)
    ensures StartsWith(link, "http") ==> r == link
    ensures !StartsWith(link, "http") ==> r == HnBase + link
    ensures StartsWith(r, "http")
  {
    if StartsWith(link, "http") then link else HnBase + link
  }

  /** Making a link absolute twice is making it absolute once. */
  lemma AbsoluteLinkIdempotent(link: string)
    ensures AbsoluteLink(AbsoluteLink(link)) == AbsoluteLink(link)
  {
  }

  /** "X is hiring Y" gives (Y, X) with Y cut at any further " is hiring "; else "X: Y" gives (Y, X); else (text, "HackerNews Job"). Nothing is stripped. */
  function SplitTitle(fullText: string): (r: (string, string))
    ensures Contains(fullText, " is hiring ") ==>
      r.1 + " is hiring " + r.0 <= fullText && !Contains(r.1, " is hiring ") && !Contains(r.0, " is hiring ")
    ensures !Contains(fullText, " is hiring ") && Contains(fullText, ":") ==>
      fullText == r.1 + ":" + r.0 && !Contains(r.1, ":")
    ensures !Contains(fullText, " is hiring ") && !Contains(fullText, ":") ==> r == (fullText, "HackerNews Job")
  {
    if Contains(fullText, " is hiring ") then
      var parts := SplitAll(fullText, " is hiring ");
      SplitAllSecond(fullText, " is hiring ");
      (parts[1], parts[0])
    else if Contains(fullText, ":") then
      var parts := SplitOnce(fullText, ":");
      (parts[1], parts[0])
    else (fullText, "HackerNews Job")
  }

  /** `f"hn-{row.get('id')}"`: a missing id prints as "None". */
  function JobId(id: Option<string>): (r: string)
    ensures id.Some? ==> r == "hn-" + id.value
    ensures id.None? ==> r == "hn-None"
  {
    "hn-" + (if id.Some? then id.value else "None")
  }

  /** The filter: an empty query, or the lowercased query inside the lowercased link text. */
  predicate Relevant(query: string, fullText: string) {
    query == "" || Contains(Lower(fullText), Lower(query))
  }

  /** The body of the per-row loop; `None` when the row is skipped. */
  function HnItem(query: string, row: HnRow, now: Instant): Option<HybridJob> {
    if row.titleLine.NoTitleLine? || row.titleLine.anchor.None? then None
    else
      var a := row.titleLine.anchor.value;
      if a.href.None? then None
      else if !Relevant(query, a.text) then None
      else
        var (title, company) := SplitTitle(a.text);
        NormalizeJobData(JobId(row.id), Some(title), Some(company), Some("Remote"), Some(a.text),
                         Some(AbsoluteLink(a.href.value)), "hn", now, Some("Full-time"), None, [], HnTitle(a.text))
  }

  /** The loop body as a function of the row. */
  function HnStep(query: string, now: Instant): HnRow -> Option<HybridJob> {
    row => HnItem(query, row, now)
  }

  /** The postings of the page, in row order; an unusable page gives none. */
  function HnJobs(query: string, page: Feed<HnRow>, now: Instant): seq<HybridJob> {
    match page
    case Unavailable => []
    case Items(rows) => Collect(rows, HnStep(query, now))
  }

  /** `scrape_hn_jobs(query)` once the page has been fetched and parsed. */
  method ScrapeHnJobs(query: string, page: Feed<HnRow>, now: Instant) returns (jobs: seq<HybridJob>)
    ensures jobs == HnJobs(query, page, now)
  {
    jobs := [];
    if page.Unavailable? {
      return;
    }
    var step := HnStep(query, now);
    var rows := page.items;
    for i := 0 to |rows|
      invariant jobs == Collect(rows[..i], step)
    {
      CollectStep(rows, i, step);
      var job := step(rows[i]);
      if job.Some? {
        jobs := jobs + [job.value];
      }
    }
    assert rows[..|rows|] == rows;
  }

  /** When a row yields a posting, and what that posting holds. */
  lemma HnItemSpec(query: string, row: HnRow, now: Instant)
    ensures var r := HnItem(query, row, now);
      && (r.Some? <==>
            row.titleLine.TitleLine? && row.titleLine.anchor.Some?
            && row.titleLine.anchor.value.href.Some?
            && Relevant(query, row.titleLine.anchor.value.text))
      && (r.Some? ==>
            var a := row.titleLine.anchor.value;
            && r.value.jobId == JobId(row.id)
            && r.value.description == a.text
            && r.value.applyLink == AbsoluteLink(a.href.value)
            && StartsWith(r.value.applyLink, "http")
            && r.value.title == OrDefault(Some(SplitTitle(a.text).0), "Unknown Title")
            && r.value.company == OrDefault(Some(SplitTitle(a.text).1), "Unknown Company")
            && r.value.source == "hn" && r.value.location == "Remote"
            && r.value.publishedAt.None? && r.value.jobType == Some("Full-time")
            && r.value.rawData == HnTitle(a.text))
  {
    if HnItem(query, row, now).Some? {
      var a := row.titleLine.anchor.value;
      assert AbsoluteLink(a.href.value) != [];
    }
  }

  /** An `<a>` with no text still yields a posting, with the default title and an absolute link. */
  lemma EmptyAnchorExample(now: Instant)
    ensures var r := HnItem("", HnRow(Some("1"), TitleLine(Some(Anchor("", Some("item?id=1"))))), now);
      && r.Some?
      && r.value.title == "Unknown Title"
      && r.value.description == ""
      && r.value.applyLink == "https://news.ycombinator.com/item?id=1"
  {
    var row := HnRow(Some("1"), TitleLine(Some(Anchor("", Some("item?id=1")))));
    HnItemSpec("", row, now);
    assert !Contains("", " is hiring ") && !Contains("", ":");
    assert !StartsWith("item?id=1", "http");
  }

  /** Every posting of the page is an absolute-link Hacker News posting from one of its rows. */
  lemma HnJobsTagged(query: string, page: Feed<HnRow>, now: Instant)
    ensures var jobs := HnJobs(query, page, now);
      && (page.Unavailable? ==> jobs == [])
      && forall j :: j in jobs ==> j.source == "hn" && StartsWith(j.applyLink, "http") && j.publishedAt.None?
  {
    if page.Items? {
      var f := HnStep(query, now);
      CollectMembers(page.items, f);
      forall j | j in HnJobs(query, page, now)
        ensures j.source == "hn" && StartsWith(j.applyLink, "http") && j.publishedAt.None?
      {
        var i :| 0 <= i < |page.items| && f(page.items[i]) == Some(j);
        HnItemSpec(query, page.items[i], now);
      }
    }
  }
}
