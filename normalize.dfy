/** `normalize_job_data`: builds a posting, filling in defaults for falsy fields. */
module Normalize {
  import opened Wrappers
  import opened Postings

  /** Python truthiness of an optional string: `None` and "" are falsy. */
  predicate Truthy(s: Option<string>) {
    s.Some? && s.value != ""
  }

  /** `s or default`. */
  function OrDefault(s: Option<string>, default: string): (r: string)
    ensures Truthy(s) ==> r == s.value
    ensures !Truthy(s) ==> r == default
  {
    if Truthy(s) then s.value else default
  }

  /**
   * `normalize_job_data`. The clock reading `now` becomes `fetched_at`. The result
   * is `None` exactly when converting an aware `published_at` to UTC overflows, which
   * in the source raises out of the call.
   */
  function NormalizeJobData(
    jobId: string,
    title: Option<string>,
    company: Option<string>,
    location: Option<string>,
    description: Option<string>,
    applyLink: Option<string>,
    source: string,
    now: Instant,
    jobType: Option<string> := Some("Full-time"),
    publishedAt: Option<DateTime> := None,
    skills: seq<string> := [],
    rawData: RawData := NoRaw): (r: Option<HybridJob>)
  {
    var published := if publishedAt.Some? then UtcNaive(publishedAt.value) else Some(0);
    if published.None? then None
    else
      Some(HybridJob(
        jobId := jobId,
        title := OrDefault(title, "Unknown Title"),
        company := OrDefault(company, "Unknown Company"),
        location := OrDefault(location, "Remote"),
        description := OrDefault(description, ""),
        jobType := jobType,
        applyLink := OrDefault(applyLink, "#"),
        source := source,
        publishedAt := if publishedAt.Some? then published else None,
        skills := skills,
        rawData := rawData,
        fetchedAt := now,
        matchScore := None,
        matchingSkills := [],
        missingSkills := [],
        experienceDifference := None,
        reason := None))
  }

  /** The posting's required text fields are never empty, and the description is never `None`. */
  ghost predicate Filled(j: HybridJob) {
    j.title != "" && j.company != "" && j.location != "" && j.applyLink != ""
  }

  /** What `normalize_job_data` promises about each field. */
  lemma NormalizeFields(
    jobId: string, title: Option<string>, company: Option<string>, location: Option<string>,
    description: Option<string>, applyLink: Option<string>, source: string, now: Instant,
    jobType: Option<string>, publishedAt: Option<DateTime>, skills: seq<string>, rawData: RawData)
    ensures var r := NormalizeJobData(jobId, title, company, location, description, applyLink, source, now,
                                      jobType, publishedAt, skills, rawData);
      && (r.None? <==> publishedAt.Some? && UtcNaive(publishedAt.value).None?)
      && (r.Some? ==>
        var j := r.value;
        && Filled(j)
        && (Truthy(title) ==> j.title == title.value)
        && (!Truthy(title) ==> j.title == "Unknown Title")
        && (Truthy(company) ==> j.company == company.value)
        && (!Truthy(company) ==> j.company == "Unknown Company")
        && (Truthy(location) ==> j.location == location.value)
        && (!Truthy(location) ==> j.location == "Remote")
        && (Truthy(description) ==> j.description == description.value)
        && (!Truthy(description) ==> j.description == "")
        && (Truthy(applyLink) ==> j.applyLink == applyLink.value)
        && (!Truthy(applyLink) ==> j.applyLink == "#")
        && j.jobType == jobType
        && j.jobId == jobId && j.source == source && j.skills == skills && j.rawData == rawData
        && j.fetchedAt == now
        && (publishedAt.None? ==> j.publishedAt.None?)
        && (publishedAt.Some? && publishedAt.value.offset.None? ==> j.publishedAt == Some(publishedAt.value.local))
        && (publishedAt.Some? && publishedAt.value.offset.Some? ==>
              j.publishedAt.Some? && j.publishedAt.value + publishedAt.value.offset.value == publishedAt.value.local))
  {
  }

  /** Omitting `job_type` gives "Full-time"; an explicit `None` stays `None`. */
  lemma JobTypeDefault(jobId: string, title: Option<string>, source: string, now: Instant)
    ensures NormalizeJobData(jobId, title, None, None, None, None, source, now).value.jobType == Some("Full-time")
    ensures NormalizeJobData(jobId, title, None, None, None, None, source, now, None).value.jobType.None?
  {
  }

  /** Normalizing the fields of a normalized posting again gives the same posting. */
  lemma NormalizeIdempotent(j: HybridJob, now: Instant)
    requires Filled(j) && j.matchScore.None? && j.matchingSkills == [] && j.missingSkills == []
    requires j.experienceDifference.None? && j.reason.None? && j.fetchedAt == now
    ensures NormalizeJobData(j.jobId, Some(j.title), Some(j.company), Some(j.location), Some(j.description),
              Some(j.applyLink), j.source, now, j.jobType,
              if j.publishedAt.Some? then Some(DateTime(j.publishedAt.value, None)) else None,
              j.skills, j.rawData) == Some(j)
  {
  }
}
