/**
 * `fetch_jobs_from_api`: the older JSearch client behind the job search route. It
 * sends the same request as the hybrid adapter but returns plain records, with no
 * defaults filled in, tagged "RapidAPI".
 */
module JobFetcher {
  import opened Wrappers
  import opened Postings
  import opened Normalize
  import opened ApiJobs

  /** The dictionary built for one item; `None` stands for a missing or `null` field. */
  datatype JobRecord = JobRecord(
    jobId: Option<string>,
    title: Option<string>,
    company: Option<string>,
    location: string,
    jobType: Option<string>,
    applyLink: Option<string>,
    description: Option<string>,
    source: string,
    postedDate: Option<string>)

  /** The record for one item. */
  function Record(item: ApiItem): JobRecord {
    JobRecord(item.jobId.Get(), item.jobTitle.Get(), item.employerName.Get(), ApiLocation(item),
              item.jobEmploymentType.Get(), item.jobApplyLink.Get(), item.jobDescription.Get(),
              "RapidAPI", item.jobPostedAt.Get())
  }

  /** The records a search yields, one per item in order; none without a key or a usable `data` list. */
  function Records(apiKey: Option<string>, response: ApiResponse): seq<JobRecord> {
    if !Truthy(apiKey) then []
    else match response
      case RequestFailed => []
      case Body(NoDataKey) => []
      case Body(NullData) => []
      case Body(DataList(items)) => seq(|items|, i requires 0 <= i < |items| => Record(items[i]))
  }

  /** `fetch_jobs_from_api(query, location, remote)`, given the response to the request it sends. */
  method FetchJobsFromApi(apiKey: Option<string>, apiHost: Option<string>, query: string, location: Option<string>,
                          remote: bool, response: ApiResponse)
    returns (request: Option<SearchRequest>, jobs: seq<JobRecord>)
    ensures request == BuildRequest(apiKey, apiHost, query, location, remote)
    ensures jobs == Records(apiKey, response)
  {
    if !Truthy(apiKey) {
      return None, [];
    }
    request := BuildRequest(apiKey, apiHost, query, location, remote);
    jobs := [];
    if response.RequestFailed? || !response.data.DataList? {
      return;
    }
    var items := response.data.items;
    for i := 0 to |items|
      invariant |jobs| == i
      invariant forall k :: 0 <= k < i ==> jobs[k] == Record(items[k])
    {
      jobs := jobs + [Record(items[i])];
    }
  }

  /**
   * The two JSearch clients agree item by item: same count, and each posting is its
   * record with the defaults of `normalize_job_data` filled in.
   */
  lemma RecordsAgreeWithPostings(apiKey: Option<string>, response: ApiResponse, now: Instant)
    ensures var records := Records(apiKey, response);
      var jobs := ApiJobs.ApiJobs(apiKey, response, now);
      && |records| == |jobs|
      && forall i :: 0 <= i < |records| ==>
           && jobs[i].title == OrDefault(records[i].title, "Unknown Title")
           && jobs[i].company == OrDefault(records[i].company, "Unknown Company")
           && jobs[i].location == OrDefault(Some(records[i].location), "Remote")
           && jobs[i].description == OrDefault(records[i].description, "")
           && jobs[i].applyLink == OrDefault(records[i].applyLink, "#")
           && jobs[i].jobType == records[i].jobType
           && jobs[i].jobId == records[i].jobId.GetOr("None")
           && records[i].source == "RapidAPI" && jobs[i].source == "api"
  {
    if Truthy(apiKey) && response.Body? && response.data.DataList? {
      var items := response.data.items;
      forall i | 0 <= i < |items|
        ensures ApiJobs.ApiJobs(apiKey, response, now)[i].jobId == Records(apiKey, response)[i].jobId.GetOr("None")
      {
        ApiJobSpec(items[i], now);
      }
    }
  }
}
