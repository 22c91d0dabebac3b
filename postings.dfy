/**
 * The aggregated job posting (`HybridJob`) and the values it is built from:
 * date-times, JSON fields read with `dict.get`, and the source-specific `raw_data`.
 */
module Postings {
  import opened Wrappers

  /** A naive UTC date-time, as microseconds since 0001-01-01T00:00:00 (`datetime.min` is 0). */
  type Instant = nat

  /** `datetime.max`, 9999-12-31T23:59:59.999999, in microseconds. */
  const MaxInstant: nat := 315537897599999999

  /** Microseconds in one hour. */
  const Hour: nat := 3600000000

  /**
   * A Python `datetime`: its wall-clock reading, and for an aware value its
   * `utcoffset()` in microseconds (`None` for a naive value).
   */
  datatype DateTime = DateTime(local: nat, offset: Option<int>)

  /**
   * `d.astimezone(timezone.utc).replace(tzinfo=None)` for an aware `d`, and `d`
   * itself for a naive one. `None` stands for the `OverflowError` raised when the
   * UTC reading falls outside `datetime.min .. datetime.max`.
   */
  function UtcNaive(d: DateTime): (r: Option<Instant>)
    ensures d.offset.None? ==> r == Some(d.local)
    ensures d.offset.Some? ==> (r.Some? <==> 0 <= d.local - d.offset.value <= MaxInstant)
    ensures r.Some? && d.offset.Some? ==> r.value + d.offset.value == d.local
  {
    match d.offset
    case None => Some(d.local)
    case Some(o) =>
      if 0 <= d.local - o <= MaxInstant then Some(d.local - o) else None
  }

  /** A JSON object field read with `dict.get`: absent, `null`, or a string. */
  datatype JsonField = Missing | Null | Str(s: string) {

    /** `d.get(key)`: `None` for an absent key and for `null`. */
    function Get(): (r: Option<string>)
      ensures r.Some? <==> Str?
    {
      if Str? then Some(s) else None
    }

    /** `f"{d.get(key, '')}"`: '' for an absent key, "None" for `null`. */
    function FormatOr(): string {
      match this
      case Missing => ""
      case Null => "None"
      case Str(v) => v
    }

    /** `str(d.get(key))`. */
    function ToStr(): string {
      if Str? then s else "None"
    }
  }

  /** One entry of the JSearch response's `data` list: the fields the back end reads. */
  datatype ApiItem = ApiItem(
    jobId: JsonField,
    jobTitle: JsonField,
    employerName: JsonField,
    jobCity: JsonField,
    jobCountry: JsonField,
    jobDescription: JsonField,
    jobApplyLink: JsonField,
    jobEmploymentType: JsonField,
    jobPostedAt: JsonField)

  /** `raw_data`: `{}`, `{"rss_title": …}`, `{"raw_title": …}`, or the whole JSearch item. */
  datatype RawData = NoRaw | RssTitle(rssTitle: string) | HnTitle(rawTitle: string) | ApiPayload(item: ApiItem)

  /** A job posting from any source, with the fields the matching engine fills in. */
  datatype HybridJob = HybridJob(
    jobId: string,
    title: string,
    company: string,
    location: string,
    description: string,
    jobType: Option<string>,
    applyLink: string,
    source: string,
    publishedAt: Option<Instant>,
    skills: seq<string>,
    rawData: RawData,
    fetchedAt: Instant,
    matchScore: Option<int>,
    matchingSkills: seq<string>,
    missingSkills: seq<string>,
    experienceDifference: Option<string>,
    reason: Option<string>)
}
