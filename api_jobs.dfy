/**
 * The JSearch (RapidAPI) adapter: the search request built from the query, the
 * location and the remote flag, and the postings built from the `data` list of
 * the response.
 */
module ApiJobs {
  import opened Wrappers
  import opened Text
  import opened Postings
  import opened Normalize

  const BaseUrl: string := "https://jsearch.p.rapidapi.com/search"

  /** The GET request sent to `BaseUrl`: its headers and its query parameters, in order. */
  datatype SearchRequest = SearchRequest(headers: seq<(string, string)>, params: seq<(string, string)>)

  /** What the HTTP call gives: a failure (transport, non-2xx status, undecodable JSON), or the decoded body. */
  datatype ApiResponse = RequestFailed | Body(data: ApiData)

  /** The body's `data` entry: absent, `null` (iterating it raises), or a list of items. */
  datatype ApiData = NoDataKey | NullData | DataList(items: seq<ApiItem>)

  /** `query`, followed by " in " and the location when the location is truthy. */
  function SearchQuery(query: string, location: Option<string>): (r: string)
    ensures Truthy(location) ==> r == query + " in " + location.value
    ensures !Truthy(location) ==> r == query
  {
    if Truthy(location) then query + " in " + location.value else query
  }

  /** The query parameters; "remote_jobs_only" is added only for remote searches. */
  function SearchParams(query: string, location: Option<string>, remote: bool): seq<(string, string)> {
    [("query", SearchQuery(query, location)), ("page", "1"), ("num_pages", "1")]
      + (if remote then [("remote_jobs_only", "true")] else [])
  }

  /** The request sent for a search; `None` when the API key is not configured, and then nothing is sent. */
  function BuildRequest(apiKey: Option<string>, apiHost: Option<string>, query: string,
                        location: Option<string>, remote: bool): (r: Option<SearchRequest>)
    ensures r.Some? <==> Truthy(apiKey)
  {
    if !Truthy(apiKey) then None
    else
      Some(SearchRequest([("x-rapidapi-key", apiKey.value), ("x-rapidapi-host", apiHost.GetOr("None"))],
                         SearchParams(query, location, remote)))
  }

  /** The value of parameter `key`, if the request has one. */
  function Param(params: seq<(string, string)>, key: string): Option<string> {
    if params == [] then None
    else if params[0].0 == key then Some(params[0].1)
    else Param(params[1..], key)
  }

  /** The parameters of a search: the query text, page 1 of 1, and the remote flag exactly when asked for. */
  lemma SearchParamsSpec(query: string, location: Option<string>, remote: bool)
    ensures var ps := SearchParams(query, location, remote);
      && Param(ps, "query") == Some(SearchQuery(query, location))
      && Param(ps, "page") == Some("1")
      && Param(ps, "num_pages") == Some("1")
      && (Param(ps, "remote_jobs_only").Some? <==> remote)
      && (remote ==> Param(ps, "remote_jobs_only") == Some("true"))
      && forall i, j :: 0 <= i < j < |ps| ==> ps[i].0 != ps[j].0
  {
    var ps := SearchParams(query, location, remote);
    var keys := ["query", "page", "num_pages", "remote_jobs_only"];
    assert |keys[0]| == 5 && |keys[1]| == 4 && |keys[2]| == 9 && |keys[3]| == 16;
    assert forall i, j :: 0 <= i < j < 4 ==> keys[i] != keys[j];
    var tail := if remote then [("remote_jobs_only", "true")] else [];
    assert ps[1..][1..][1..] == tail;
    assert Param(ps, "num_pages") == Param(ps[1..][1..], "num_pages");
    assert Param(ps, "remote_jobs_only") == Param(ps[1..][1..], "remote_jobs_only");
    assert Param(ps[1..][1..], "remote_jobs_only") == Param(tail, "remote_jobs_only");
  }

  /** `f"{item.get('job_city', '')}, {item.get('job_country', '')}".strip(", ")`. */
  function ApiLocation(item: ApiItem): string {
    StripChars(item.jobCity.FormatOr() + ", " + item.jobCountry.FormatOr(), {',', ' '})
  }

  /** A text that neither starts nor ends with a comma or a space. */
  predicate Clean(s: string) {
    s != [] && s[0] !in {',', ' '} && s[|s| - 1] !in {',', ' '}
  }

  /** Without a city and a country the location is empty, so the posting falls back to "Remote". */
  lemma ApiLocationMissing(item: ApiItem)
    requires item.jobCity.Missing? && item.jobCountry.Missing?
    ensures ApiLocation(item) == ""
  {
    var s := item.jobCity.FormatOr() + ", " + item.jobCountry.FormatOr();
    assert s == ", ";
    assert SpanLen(s, InChars({',', ' '})) == 2;
  }

  /** A clean city and a clean country give "City, Country". */
  lemma ApiLocationCityCountry(item: ApiItem, city: string, country: string)
    requires item.jobCity == Str(city) && item.jobCountry == Str(country) && Clean(city) && Clean(country)
    ensures ApiLocation(item) == city + ", " + country
  {
    var s := city + ", " + country;
    assert s[0] == city[0] && s[|s| - 1] == country[|country| - 1];
    TrimUntouched(s, InChars({',', ' '}));
  }

  /** Without a city, a clean country stands alone. */
  lemma ApiLocationCountryOnly(item: ApiItem, country: string)
    requires item.jobCity.Missing? && item.jobCountry == Str(country) && Clean(country)
    ensures ApiLocation(item) == country
  {
    assert item.jobCity.FormatOr() + ", " + item.jobCountry.FormatOr() == ", " + country;
    StripCommaPrefix(country);
  }

  /** Stripping commas and spaces from ", " + a clean text gives the text back. */
  lemma StripCommaPrefix(country: string)
    requires Clean(country)
    ensures StripChars(", " + country, {',', ' '}) == country
  {
    var s := ", " + country;
    var p := InChars({',', ' '});
    assert s[0] == ',' && s[1] == ' ' && s[2] == country[0] && s[|s| - 1] == country[|country| - 1];
    SpanLenIs(s, p, 2);
    assert TrailLen(s, p) == 0;
    assert s[2..|s|] == country;
  }

  /** The posting for one item; it has no publication date, so building it cannot fail. */
  function ApiJob(item: ApiItem, now: Instant): HybridJob {
    NormalizeJobData(item.jobId.ToStr(), item.jobTitle.Get(), item.employerName.Get(), Some(ApiLocation(item)),
                     item.jobDescription.Get(), item.jobApplyLink.Get(), "api", now,
                     item.jobEmploymentType.Get(), None, [], ApiPayload(item)).value
  }

  /** The postings a search yields, one per item in order; nothing without a key or a usable `data` list. */
  function ApiJobs(apiKey: Option<string>, response: ApiResponse, now: Instant): seq<HybridJob> {
    if !Truthy(apiKey) then []
    else match response
      case RequestFailed => []
      case Body(NoDataKey) => []
      case Body(NullData) => []
      case Body(DataList(items)) => seq(|items|, i requires 0 <= i < |items| => ApiJob(items[i], now))
  }

  /**
   * `fetch_jsearch_jobs(query, location, remote)`: the request it sends (none without a
   * key) and the postings it returns, given the response to that request.
   */
  method FetchJsearchJobs(apiKey: Option<string>, apiHost: Option<string>, query: string, location: Option<string>,
                          remote: bool, response: ApiResponse, now: Instant)
    returns (request: Option<SearchRequest>, jobs: seq<HybridJob>)
    ensures request == BuildRequest(apiKey, apiHost, query, location, remote)
    ensures jobs == ApiJobs(apiKey, response, now)
  {
    if !Truthy(apiKey) {
      return None, [];
    }
    var searchQuery := query;
    if Truthy(location) {
      searchQuery := searchQuery + " in " + location.value;
    }
    var params := [("query", searchQuery), ("page", "1"), ("num_pages", "1")];
    if remote {
      params := params + [("remote_jobs_only", "true")];
    }
    assert params == SearchParams(query, location, remote);
    request := Some(SearchRequest([("x-rapidapi-key", apiKey.value), ("x-rapidapi-host", apiHost.GetOr("None"))], params));
    jobs := [];
    if response.RequestFailed? || !response.data.DataList? {
      return;
    }
    jobs := ItemPostings(response.data.items, now);
  }

  /** The loop over `data`, one posting per item. */
  method ItemPostings(items: seq<ApiItem>, now: Instant) returns (jobs: seq<HybridJob>)
    ensures jobs == seq(|items|, i requires 0 <= i < |items| => ApiJob(items[i], now))
  {
    jobs := [];
    for i := 0 to |items|
      invariant |jobs| == i
      invariant forall k :: 0 <= k < i ==> jobs[k] == ApiJob(items[k], now)
    {
      jobs := jobs + [ApiJob(items[i], now)];
    }
  }

  /** Each item's posting: its fields read with `dict.get`, with the usual defaults, and the item kept whole. */
  lemma ApiJobSpec(item: ApiItem, now: Instant)
    ensures var j := ApiJob(item, now);
      && j.jobId == item.jobId.ToStr()
      && j.title == OrDefault(item.jobTitle.Get(), "Unknown Title")
      && j.company == OrDefault(item.employerName.Get(), "Unknown Company")
      && j.location == (if ApiLocation(item) == "" then "Remote" else ApiLocation(item))
      && j.description == OrDefault(item.jobDescription.Get(), "")
      && j.applyLink == OrDefault(item.jobApplyLink.Get(), "#")
      && j.jobType == item.jobEmploymentType.Get()
      && j.source == "api" && j.publishedAt.None? && j.rawData == ApiPayload(item) && j.fetchedAt == now
  {
  }

  /** One posting per item, in order, when the key is set and the response has a list; none otherwise. */
  lemma ApiJobsSpec(apiKey: Option<string>, response: ApiResponse, now: Instant)
    ensures var jobs := ApiJobs(apiKey, response, now);
      && (Truthy(apiKey) && response.Body? && response.data.DataList? ==>
            |jobs| == |response.data.items|
            && forall i :: 0 <= i < |jobs| ==> jobs[i].source == "api" && jobs[i].rawData == ApiPayload(response.data.items[i]))
      && (!(Truthy(apiKey) && response.Body? && response.data.DataList?) ==> jobs == [])
  {
  }
}
