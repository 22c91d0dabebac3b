/**
 * `get_recommendations`: score the first hundred documents of the `cached_jobs`
 * collection against the caller's resume, keep the positive scores, rank them by
 * the requested key and return one page. Every failure inside the handler,
 * including the missing-resume 404, surfaces as a 500.
 */
module Recommend {
  import opened Wrappers
  import opened Sorting
  import opened TextSimilarity
  import opened MatchingEngine
  import opened JobFetcher
  import opened KeywordCache
  import opened Paging

  /** At most this many cached documents are read (`to_list(length=100)`). */
  const MaxDocs: nat := 100

  /** The largest `limit` the route accepts. */
  const MaxLimit: nat := 100

  const NoJobsMessage: string :=
    "No jobs found to recommend. Please search for jobs first to populate recommendations."

  /** A document of `cached_jobs` together with the string form of its `_id`. */
  datatype StoredDoc = StoredDoc(objectId: string, doc: CachedDoc)

  /** What the route answers. */
  datatype RecommendResponse =
    | InvalidQuery                          // 422: `sort`, `page` or `limit` fails validation
    | ServerError                           // 500 from the catch-all handler
    | NoJobs(message: string)               // the `ResponseModel` shape: data [], code 200
    | Paged(total: nat, jobs: seq<MatchResult>, page: nat, limit: nat, totalPages: nat)

  /** The pattern `^(match|latest|salary)$`. */
  predicate ValidSort(sort: string) {
    sort == "match" || sort == "latest" || sort == "salary"
  }

  predicate ValidQuery(sort: string, page: int, limit: int) {
    ValidSort(sort) && page >= 1 && 1 <= limit <= MaxLimit
  }

  /** The scorer concatenates the title and slices the description, so both must be strings. */
  predicate Scorable(d: StoredDoc) {
    d.doc.job.title.Some? && d.doc.job.description.Some?
  }

  predicate AllScorable(docs: seq<StoredDoc>) {
    forall k :: 0 <= k < |docs| ==> Scorable(docs[k])
  }

  /** The document as `calculate_match_score` reads it. */
  function JobOfDoc(d: StoredDoc): Job
    requires Scorable(d)
  {
    var rec := d.doc.job;
    Job(rec.jobId, d.objectId, rec.title.value, rec.company, Some(rec.location), rec.applyLink, Some(rec.source),
        rec.postedDate, rec.description.value)
  }

  /** The documents read: the first hundred in collection order. */
  function Read(docs: seq<StoredDoc>): (r: seq<StoredDoc>)
    ensures |r| <= MaxDocs
  {
    if |docs| <= MaxDocs then docs else docs[..MaxDocs]
  }

  /** `calculate_match_score(job, resume)` for one document. */
  function ScoreDoc(d: StoredDoc, resume: Resume, partialRatio: (string, string) -> Ratio, today: YearMonth)
    : MatchResult
    requires Scorable(d)
  {
    MatchScore(JobOfDoc(d), resume, partialRatio, today)
  }

  /** The scores above zero, in document order. */
  function PositiveScores(docs: seq<StoredDoc>, resume: Resume, partialRatio: (string, string) -> Ratio,
                          today: YearMonth): (r: seq<MatchResult>)
    requires AllScorable(docs)
    ensures |r| <= |docs|
  {
    if docs == [] then []
    else
      var n := |docs| - 1;
      var s := ScoreDoc(docs[n], resume, partialRatio, today);
      PositiveScores(docs[..n], resume, partialRatio, today) + (if s.matchScore > 0 then [s] else [])
  }

  /** `get_recommendations(sort, page, limit)` for the caller's resume and the collection's contents. */
  function Recommendations(sort: string, page: int, limit: int, resume: Option<Resume>, docs: seq<StoredDoc>,
                           partialRatio: (string, string) -> Ratio, today: YearMonth): RecommendResponse
  {
    if !ValidQuery(sort, page, limit) then InvalidQuery
    else if resume.None? then ServerError
    else
      var read := Read(docs);
      if read == [] then NoJobs(NoJobsMessage)
      else if !AllScorable(read) then ServerError
      else
        var ranked := RankJobs(PositiveScores(read, resume.value, partialRatio, today), sort);
        Paged(|ranked|, PageOf(ranked, page, limit), page, limit, PageCount(|ranked|, limit))
  }

  /** The scoring loop; `None` when a document makes the scorer raise. */
  method ScoreDocs(docs: seq<StoredDoc>, resume: Resume, partialRatio: (string, string) -> Ratio, today: YearMonth)
    returns (scored: Option<seq<MatchResult>>)
    ensures scored.None? <==> !AllScorable(docs)
    ensures scored.Some? ==> AllScorable(docs) && scored.value == PositiveScores(docs, resume, partialRatio, today)
  {
    var acc: seq<MatchResult> := [];
    for i := 0 to |docs|
      invariant AllScorable(docs[..i])
      invariant acc == PositiveScores(docs[..i], resume, partialRatio, today)
    {
      if !Scorable(docs[i]) {
        return None;
      }
      var prefix := docs[..i + 1];
      assert prefix[..i] == docs[..i];
      forall k | 0 <= k < i + 1
        ensures Scorable(prefix[k])
      {
        if k < i {
          assert prefix[k] == docs[..i][k];
        }
      }
      var result := CalculateMatchScore(JobOfDoc(docs[i]), resume, partialRatio, today);
      if result.matchScore > 0 {
        acc := acc + [result];
      }
      assert acc == PositiveScores(prefix, resume, partialRatio, today);
    }
    assert docs[..|docs|] == docs;
    scored := Some(acc);
  }

  /** The handler. */
  method GetRecommendations(sort: string, page: int, limit: int, resume: Option<Resume>, docs: seq<StoredDoc>,
                            partialRatio: (string, string) -> Ratio, today: YearMonth)
    returns (r: RecommendResponse)
    ensures r == Recommendations(sort, page, limit, resume, docs, partialRatio, today)
  {
    if !(sort == "match" || sort == "latest" || sort == "salary") || page < 1 || limit < 1 || limit > MaxLimit {
      return InvalidQuery;
    }
    if resume.None? {
      return ServerError;
    }
    var cached := Read(docs);
    if cached == [] {
      return NoJobs(NoJobsMessage);
    }
    var scored := ScoreDocs(cached, resume.value, partialRatio, today);
    if scored.None? {
      return ServerError;
    }
    assert scored.value == PositiveScores(Read(docs), resume.value, partialRatio, today);
    var ranked := RankJobs(scored.value, sort);
    var totalCount := |ranked|;
    r := Paged(totalCount, PageOf(ranked, page, limit), page, limit, PageCount(totalCount, limit));
  }

  /**
   * How each failure surfaces: a bad `sort`, `page` or `limit` is rejected before
   * the handler runs; a missing resume, or a document the scorer cannot read among
   * the first hundred, gives 500 (never 404); an empty collection gives the
   * `ResponseModel` shape.
   */
  lemma ResponseCases(sort: string, page: int, limit: int, resume: Option<Resume>, docs: seq<StoredDoc>,
                      partialRatio: (string, string) -> Ratio, today: YearMonth)
    ensures var r := Recommendations(sort, page, limit, resume, docs, partialRatio, today);
      && (r == InvalidQuery <==> !ValidQuery(sort, page, limit))
      && (r == ServerError <==>
            ValidQuery(sort, page, limit) && (resume.None? || (docs != [] && !AllScorable(Read(docs)))))
      && (r.NoJobs? <==> ValidQuery(sort, page, limit) && resume.Some? && docs == [])
      && (r.NoJobs? ==> r.message == NoJobsMessage)
  {
  }

  /** Documents after the first hundred never affect the answer. */
  lemma OnlyFirstHundred(sort: string, page: int, limit: int, resume: Option<Resume>, docs: seq<StoredDoc>,
                         more: seq<StoredDoc>, partialRatio: (string, string) -> Ratio, today: YearMonth)
    requires |docs| >= MaxDocs
    ensures Recommendations(sort, page, limit, resume, docs + more, partialRatio, today) ==
            Recommendations(sort, page, limit, resume, docs, partialRatio, today)
  {
    assert Read(docs + more) == Read(docs) by {
      assert (docs + more)[..MaxDocs] == docs[..MaxDocs];
    }
  }

  /** The positive scores: each is the score of a read document, and no positive score is lost. */
  lemma PositiveScoresSpec(docs: seq<StoredDoc>, resume: Resume,
                           partialRatio: (string, string) -> Ratio, today: YearMonth)
    requires AllScorable(docs)
    ensures forall s :: s in PositiveScores(docs, resume, partialRatio, today) ==>
      s.matchScore > 0 && exists d :: d in docs && Scorable(d) && s == ScoreDoc(d, resume, partialRatio, today)
    ensures forall d :: d in docs && Scorable(d) && ScoreDoc(d, resume, partialRatio, today).matchScore > 0 ==>
      ScoreDoc(d, resume, partialRatio, today) in PositiveScores(docs, resume, partialRatio, today)
  {
    PositiveScoresSound(docs, resume, partialRatio, today);
    PositiveScoresComplete(docs, resume, partialRatio, today);
  }

  lemma {:induction false} PositiveScoresSound(docs: seq<StoredDoc>, resume: Resume,
                                               partialRatio: (string, string) -> Ratio, today: YearMonth)
    requires AllScorable(docs)
    ensures forall s :: s in PositiveScores(docs, resume, partialRatio, today) ==>
      s.matchScore > 0 && exists d :: d in docs && Scorable(d) && s == ScoreDoc(d, resume, partialRatio, today)
  {
    if docs != [] {
      var n := |docs| - 1;
      var p := docs[..n];
      assert AllScorable(p);
      PositiveScoresSound(p, resume, partialRatio, today);
      assert forall x :: x in p ==> x in docs;
      assert docs[n] in docs;
    }
  }

  lemma {:induction false} PositiveScoresComplete(docs: seq<StoredDoc>, resume: Resume,
                                                  partialRatio: (string, string) -> Ratio, today: YearMonth)
    requires AllScorable(docs)
    ensures forall d :: d in docs && Scorable(d) && ScoreDoc(d, resume, partialRatio, today).matchScore > 0 ==>
      ScoreDoc(d, resume, partialRatio, today) in PositiveScores(docs, resume, partialRatio, today)
  {
    if docs != [] {
      var n := |docs| - 1;
      var p := docs[..n];
      assert AllScorable(p);
      PositiveScoresComplete(p, resume, partialRatio, today);
      assert forall x :: x in docs ==> x in p || x == docs[n];
    }
  }

  /** Each positive score is at most 100. */
  lemma ScoreDocBounds(d: StoredDoc, resume: Resume, partialRatio: (string, string) -> Ratio, today: YearMonth)
    requires Scorable(d)
    ensures 0 <= ScoreDoc(d, resume, partialRatio, today).matchScore <= 100
  {
    MatchScoreBounds(JobOfDoc(d), resume, partialRatio, today);
  }

  /**
   * A page of recommendations: `total` counts the positive scores, `total_pages` is
   * its ceiling over `limit`, the page is non-empty exactly up to that page, every
   * job on it is the score (1..100) of one of the first hundred documents, and the
   * order is the requested one ("salary" keeps document order).
   */
  lemma PagedSpec(sort: string, page: int, limit: int, resume: Option<Resume>, docs: seq<StoredDoc>,
                  partialRatio: (string, string) -> Ratio, today: YearMonth)
    requires Recommendations(sort, page, limit, resume, docs, partialRatio, today).Paged?
    ensures var r := Recommendations(sort, page, limit, resume, docs, partialRatio, today);
      var read := Read(docs);
      && resume.Some? && AllScorable(read)
      && r.total == |PositiveScores(read, resume.value, partialRatio, today)|
      && r.totalPages * limit >= r.total && r.totalPages * limit < r.total + limit
      && (r.jobs != [] <==> page <= r.totalPages)
      && (forall s :: s in r.jobs ==>
            0 < s.matchScore <= 100 &&
            exists d :: d in read && Scorable(d) && s == ScoreDoc(d, resume.value, partialRatio, today))
      && (sort == "match" ==> SortedBy(r.jobs, ScoreOf, Descending))
      && (sort == "latest" ==> SortedBy(r.jobs, DateOf, LexGreater))
      && (sort == "salary" ==> r.jobs == PageOf(PositiveScores(read, resume.value, partialRatio, today), page, limit))
  {
    var read := Read(docs);
    var scored := PositiveScores(read, resume.value, partialRatio, today);
    RankedPageSpec(scored, sort, page, limit);
    PositiveScoresSpec(read, resume.value, partialRatio, today);
    forall s | s in scored
      ensures s.matchScore <= 100
    {
      var d :| d in read && Scorable(d) && s == ScoreDoc(d, resume.value, partialRatio, today);
      ScoreDocBounds(d, resume.value, partialRatio, today);
    }
  }

  /** A page of `rank_jobs(scored, sort)`: its members, its order, and when it is empty. */
  lemma RankedPageSpec(scored: seq<MatchResult>, sort: string, page: int, limit: int)
    requires page >= 1 && limit >= 1
    ensures var ranked := RankJobs(scored, sort);
      var p := PageOf(ranked, page, limit);
      && |ranked| == |scored|
      && PageCount(|ranked|, limit) * limit >= |ranked| && PageCount(|ranked|, limit) * limit < |ranked| + limit
      && (p != [] <==> page <= PageCount(|ranked|, limit))
      && (forall s :: s in p ==> s in scored)
      && (sort == "match" ==> SortedBy(p, ScoreOf, Descending))
      && (sort == "latest" ==> SortedBy(p, DateOf, LexGreater))
      && (sort == "salary" ==> p == PageOf(scored, page, limit))
  {
    var ranked := RankJobs(scored, sort);
    PageCountSpec(|ranked|, limit);
    PageNonEmptyIff(ranked, page, limit);
    PageOfSpec(ranked, page, limit);
    RankJobsSpec(scored, sort);
    assert forall s :: s in ranked <==> s in multiset(ranked);
    assert forall s :: s in scored <==> s in multiset(scored);
    if sort == "match" {
      PageSorted(ranked, page, limit, ScoreOf, Descending);
    } else if sort == "latest" {
      PageSorted(ranked, page, limit, DateOf, LexGreater);
    }
  }
}
