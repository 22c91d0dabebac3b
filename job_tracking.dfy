/**
 * The job-tracking routes over the `job_tracking` collection: a user's saved,
 * applied and not-interested jobs, one entry per (user, job) pair, upserted by
 * that pair; a paged listing by status, newest update first; and a status lookup.
 */
module JobTracking {
  import opened Wrappers
  import opened Sorting
  import opened Text
  import opened Postings
  import opened Paging

  /** The query defaults of `list_tracked_jobs`. */
  const DefaultStatus := "saved"
  const DefaultPage := 1
  const DefaultLimit := 10

  /** A value of the free-form `job_data` object. */
  datatype Value = Text(s: string) | Time(t: Instant) | Json(raw: string)

  type JobData = map<string, Value>

  /** A document of `job_tracking`; `id` stands for its `_id`. */
  datatype Entry = Entry(id: nat, userId: string, jobId: string, status: string, jobData: JobData,
                         createdAt: Instant, updatedAt: Instant)

  /** A `list_tracked_jobs` response, or the failure of a request with `page < 1` or `limit < 1`. */
  datatype Listing =
    | ListFailed
    | Listed(data: seq<JobData>, total: nat, page: nat, limit: nat, totalPages: nat)

  predicate HasKey(e: Entry, userId: string, jobId: string) {
    e.userId == userId && e.jobId == jobId
  }

  /** The index of the first entry for the pair, as `find_one` sees it, or -1. */
  function FindEntry(entries: seq<Entry>, userId: string, jobId: string): (r: int)
    ensures -1 <= r < |entries|
    ensures r >= 0 ==> HasKey(entries[r], userId, jobId)
    ensures r >= 0 ==> forall k :: 0 <= k < r ==> !HasKey(entries[k], userId, jobId)
    ensures r == -1 <==> forall k :: 0 <= k < |entries| ==> !HasKey(entries[k], userId, jobId)
  {
    if entries == [] then -1
    else if HasKey(entries[0], userId, jobId) then 0
    else
      var r := FindEntry(entries[1..], userId, jobId);
      if r == -1 then -1 else r + 1
  }

  /** At most one entry per (user, job) pair. */
  predicate UniqueKeys(entries: seq<Entry>) {
    forall i, j :: 0 <= i < j < |entries| ==>
      !(entries[i].userId == entries[j].userId && entries[i].jobId == entries[j].jobId)
  }

  /** Every id is below the next one to be handed out, and no two entries share one. */
  predicate IdsBelow(entries: seq<Entry>, nextId: nat) {
    && (forall i :: 0 <= i < |entries| ==> entries[i].id < nextId)
    && (forall i, j :: 0 <= i < j < |entries| ==> entries[i].id != entries[j].id)
  }

  predicate WellFormed(entries: seq<Entry>, nextId: nat) {
    UniqueKeys(entries) && IdsBelow(entries, nextId)
  }

  /** The `status` of the pair's entry, as `get_job_status` reports it. */
  function StatusOf(entries: seq<Entry>, userId: string, jobId: string): (r: Option<string>)
    ensures r.None? <==> forall k :: 0 <= k < |entries| ==> !HasKey(entries[k], userId, jobId)
  {
    var i := FindEntry(entries, userId, jobId);
    if i >= 0 then Some(entries[i].status) else None
  }

  /** The collection after `upsert_job_status(user_id, job_id, status, job_data)` at clock reading `now`. */
  function Upserted(entries: seq<Entry>, nextId: nat, userId: string, jobId: string, status: string,
                    jobData: JobData, now: Instant): (seq<Entry>, nat)
  {
    var i := FindEntry(entries, userId, jobId);
    if i >= 0 then
      (entries[i := entries[i].(status := status, updatedAt := now, jobData := jobData)], nextId)
    else
      (entries + [Entry(nextId, userId, jobId, status, jobData, now, now)], nextId + 1)
  }

  /** The entries `{"user_id": user, "status": status}` selects (any status when `status` is empty), in order. */
  function Selected(entries: seq<Entry>, userId: string, status: string): (r: seq<Entry>)
    ensures |r| <= |entries|
  {
    if entries == [] then []
    else
      var n := |entries| - 1;
      var e := entries[n];
      Selected(entries[..n], userId, status) + (if e.userId == userId && (status == "" || e.status == status) then [e] else [])
  }

  function UpdatedKey(e: Entry): int {
    e.updatedAt
  }

  /** `sort("updated_at", -1)`; entries updated at the same instant keep collection order. */
  function ByUpdate(entries: seq<Entry>): seq<Entry> {
    SortBy(entries, UpdatedKey, Descending)
  }

  /** A listed item: the stored `job_data` with `tracking_id`, `status` and `updated_at` set over it. */
  function Item(e: Entry): JobData {
    e.jobData["tracking_id" := Text(NatToString(e.id))]["status" := Text(e.status)]["updated_at" := Time(e.updatedAt)]
  }

  function Items(entries: seq<Entry>): (r: seq<JobData>)
    ensures |r| == |entries|
  {
    seq(|entries|, k requires 0 <= k < |entries| => Item(entries[k]))
  }

  /** `list_tracked_jobs(status, page, limit)` for the user. */
  function ListTracked(entries: seq<Entry>, userId: string, status: string, page: int, limit: int): Listing {
    if page < 1 || limit < 1 then ListFailed
    else
      var selected := Selected(entries, userId, status);
      Listed(Items(PageOf(ByUpdate(selected), page, limit)), |selected|, page, limit, PageCount(|selected|, limit))
  }

  /** Under unique keys, the entry `find_one` finds is the only one for the pair. */
  lemma FoundIsOnly(entries: seq<Entry>, userId: string, jobId: string)
    requires UniqueKeys(entries)
    ensures var i := FindEntry(entries, userId, jobId);
      i >= 0 ==> forall k :: 0 <= k < |entries| && HasKey(entries[k], userId, jobId) ==> k == i
  {
  }

  /**
   * After an upsert the pair has an entry carrying the new status, data and update
   * time; an existing entry keeps its id and creation time, a new one gets a fresh id
   * and is created now; the collection grows exactly when the pair was absent, and
   * every other pair's entry is untouched.
   */
  lemma UpsertSpec(entries: seq<Entry>, nextId: nat, userId: string, jobId: string, status: string,
                   jobData: JobData, now: Instant)
    ensures var (es, n) := Upserted(entries, nextId, userId, jobId, status, jobData, now);
      var i := FindEntry(es, userId, jobId);
      var old_i := FindEntry(entries, userId, jobId);
      && i >= 0
      && es[i].status == status && es[i].jobData == jobData && es[i].updatedAt == now
      && (old_i >= 0 ==> i == old_i && es[i].id == entries[old_i].id && es[i].createdAt == entries[old_i].createdAt
                         && |es| == |entries| && n == nextId)
      && (old_i < 0 ==> i == |entries| && es[i].id == nextId && es[i].createdAt == now
                        && |es| == |entries| + 1 && n == nextId + 1)
      && (forall k :: 0 <= k < |entries| && !HasKey(entries[k], userId, jobId) ==> es[k] == entries[k])
  {
    var (es, n) := Upserted(entries, nextId, userId, jobId, status, jobData, now);
    var old_i := FindEntry(entries, userId, jobId);
    if old_i < 0 {
      assert forall k :: 0 <= k < |entries| ==> es[k] == entries[k] && !HasKey(es[k], userId, jobId);
      assert HasKey(es[|entries|], userId, jobId);
    } else {
      assert forall k :: 0 <= k < old_i ==> es[k] == entries[k] && !HasKey(es[k], userId, jobId);
      assert HasKey(es[old_i], userId, jobId);
    }
  }

  /** An upsert keeps one entry per pair and fresh, distinct ids. */
  lemma UpsertPreservesWellFormed(entries: seq<Entry>, nextId: nat, userId: string, jobId: string, status: string,
                                  jobData: JobData, now: Instant)
    requires WellFormed(entries, nextId)
    ensures var (es, n) := Upserted(entries, nextId, userId, jobId, status, jobData, now);
      WellFormed(es, n)
  {
    var (es, n) := Upserted(entries, nextId, userId, jobId, status, jobData, now);
    var old_i := FindEntry(entries, userId, jobId);
    if old_i < 0 {
      assert forall k :: 0 <= k < |entries| ==> es[k] == entries[k];
    }
  }

  /** `get_job_status` right after an upsert reports the new status; other pairs report what they did. */
  lemma StatusAfterUpsert(entries: seq<Entry>, nextId: nat, userId: string, jobId: string, status: string,
                          jobData: JobData, now: Instant, otherUser: string, otherJob: string)
    requires UniqueKeys(entries)
    ensures var es := Upserted(entries, nextId, userId, jobId, status, jobData, now).0;
      && StatusOf(es, userId, jobId) == Some(status)
      && ((otherUser, otherJob) != (userId, jobId) ==> StatusOf(es, otherUser, otherJob) == StatusOf(entries, otherUser, otherJob))
  {
    var es := Upserted(entries, nextId, userId, jobId, status, jobData, now).0;
    UpsertSpec(entries, nextId, userId, jobId, status, jobData, now);
    if (otherUser, otherJob) != (userId, jobId) {
      var i := FindEntry(entries, otherUser, otherJob);
      var j := FindEntry(es, otherUser, otherJob);
      if i >= 0 {
        assert es[i] == entries[i];
        assert j == i by {
          forall k | 0 <= k < i ensures !HasKey(es[k], otherUser, otherJob) {
            if !HasKey(entries[k], userId, jobId) {
              assert es[k] == entries[k];
            }
          }
        }
      } else {
        forall k | 0 <= k < |es| ensures !HasKey(es[k], otherUser, otherJob) {
          if k < |entries| && !HasKey(entries[k], userId, jobId) {
            assert es[k] == entries[k];
          }
        }
      }
    }
  }

  predicate Matches(e: Entry, userId: string, status: string) {
    e.userId == userId && (status == "" || e.status == status)
  }

  /** The listing query selects exactly the user's entries with that status (any status when empty). */
  lemma {:induction false} SelectedMembers(entries: seq<Entry>, userId: string, status: string)
    ensures forall e :: e in Selected(entries, userId, status) <==> e in entries && Matches(e, userId, status)
    decreases |entries|
  {
    if entries != [] {
      var n := |entries| - 1;
      SelectedMembers(entries[..n], userId, status);
      assert entries == entries[..n] + [entries[n]];
    }
  }

  /**
   * Right after an upsert the user's listing for the new status selects the pair's
   * entry, and a listing for any other status does not.
   */
  lemma ListedUnderNewStatus(entries: seq<Entry>, nextId: nat, userId: string, jobId: string, status: string,
                             jobData: JobData, now: Instant, other: string)
    requires WellFormed(entries, nextId)
    requires other != "" && other != status
    ensures var es := Upserted(entries, nextId, userId, jobId, status, jobData, now).0;
      && (exists e :: e in Selected(es, userId, status) && HasKey(e, userId, jobId))
      && (forall e :: e in Selected(es, userId, other) ==> !HasKey(e, userId, jobId))
  {
    var es := Upserted(entries, nextId, userId, jobId, status, jobData, now).0;
    UpsertPreservesWellFormed(entries, nextId, userId, jobId, status, jobData, now);
    UpsertSpec(entries, nextId, userId, jobId, status, jobData, now);
    var i := FindEntry(es, userId, jobId);
    FoundIsOnly(es, userId, jobId);
    SelectedMembers(es, userId, status);
    SelectedMembers(es, userId, other);
    assert es[i] in Selected(es, userId, status);
  }

  /**
   * Saving a job and then marking it applied moves it: the user's "applied" listing
   * selects its entry and the "saved" listing no longer does.
   */
  lemma SaveThenApplied(entries: seq<Entry>, nextId: nat, userId: string, jobId: string,
                        saved: JobData, applied: JobData, t1: Instant, t2: Instant)
    requires WellFormed(entries, nextId)
    ensures var (es1, n1) := Upserted(entries, nextId, userId, jobId, "saved", saved, t1);
      var es2 := Upserted(es1, n1, userId, jobId, "applied", applied, t2).0;
      && (exists e :: e in Selected(es2, userId, "applied") && HasKey(e, userId, jobId))
      && (forall e :: e in Selected(es2, userId, "saved") ==> !HasKey(e, userId, jobId))
  {
    var (es1, n1) := Upserted(entries, nextId, userId, jobId, "saved", saved, t1);
    UpsertPreservesWellFormed(entries, nextId, userId, jobId, "saved", saved, t1);
    ListedUnderNewStatus(es1, n1, userId, jobId, "applied", applied, t2, "saved");
  }

  /**
   * A listing fails exactly for a page or limit below one; otherwise it reports the
   * number of selected entries and the page count for it, holds at most `limit`
   * items, and is non-empty exactly when the page is within the page count.
   */
  lemma ListCounts(entries: seq<Entry>, userId: string, status: string, page: int, limit: int)
    ensures ListTracked(entries, userId, status, page, limit).ListFailed? <==> page < 1 || limit < 1
    ensures var r := ListTracked(entries, userId, status, page, limit);
      r.Listed? ==>
        && r.total == |Selected(entries, userId, status)|
        && r.totalPages * limit >= r.total && r.totalPages * limit < r.total + limit
        && |r.data| <= limit
        && (r.data != [] <==> page <= r.totalPages)
  {
    if page >= 1 && limit >= 1 {
      var selected := Selected(entries, userId, status);
      PageCountSpec(|selected|, limit);
      PageNonEmptyIff(ByUpdate(selected), page, limit);
    }
  }

  predicate ItemOfSelected(d: JobData, entries: seq<Entry>, userId: string, status: string) {
    exists e :: e in entries && Matches(e, userId, status) && d == Item(e)
  }

  /** Each listed item is the job data of a selected entry, tagged with that entry's id, status and update time. */
  lemma ListedItems(entries: seq<Entry>, userId: string, status: string, page: int, limit: int)
    ensures var r := ListTracked(entries, userId, status, page, limit);
      r.Listed? ==>
        forall k :: 0 <= k < |r.data| ==> ItemOfSelected(r.data[k], entries, userId, status)
  {
    if page >= 1 && limit >= 1 {
      var r := ListTracked(entries, userId, status, page, limit);
      var selected := Selected(entries, userId, status);
      var sorted := ByUpdate(selected);
      var jobs := PageOf(sorted, page, limit);
      SelectedMembers(entries, userId, status);
      SortByMembers(selected, UpdatedKey, Descending);
      PageOfSpec(sorted, page, limit);
      forall k | 0 <= k < |r.data| ensures ItemOfSelected(r.data[k], entries, userId, status) {
        assert jobs[k] == sorted[Offset(page, limit) + k];
        assert jobs[k] in sorted;
        assert jobs[k] in selected;
        assert jobs[k] in entries && Matches(jobs[k], userId, status);
        assert r.data == Items(jobs);
        assert r.data[k] == Item(jobs[k]);
      }
    }
  }

  /** Listed items come most recently updated first. */
  lemma ListedNewestFirst(entries: seq<Entry>, userId: string, status: string, page: int, limit: int)
    ensures var r := ListTracked(entries, userId, status, page, limit);
      r.Listed? ==>
        forall i, j :: 0 <= i < j < |r.data| ==> r.data[i]["updated_at"].t >= r.data[j]["updated_at"].t
  {
    if page >= 1 && limit >= 1 {
      var r := ListTracked(entries, userId, status, page, limit);
      var selected := Selected(entries, userId, status);
      var sorted := ByUpdate(selected);
      var jobs := PageOf(sorted, page, limit);
      DescendingIsOrder();
      SortBySorted(selected, UpdatedKey, Descending);
      PageSorted(sorted, page, limit, UpdatedKey, Descending);
      forall i, j | 0 <= i < j < |r.data| ensures r.data[i]["updated_at"].t >= r.data[j]["updated_at"].t {
        assert r.data[i] == Item(jobs[i]) && r.data[j] == Item(jobs[j]);
        assert !Descending(UpdatedKey(jobs[j]), UpdatedKey(jobs[i]));
      }
    }
  }

  /** The `job_tracking` collection; `nextId` stands for the supply of fresh `_id`s. */
  class TrackingTable {
    var entries: seq<Entry>
    var nextId: nat

    ghost predicate Valid()
      reads this
    {
      WellFormed(entries, nextId)
    }

    constructor ()
      ensures entries == [] && nextId == 0
      ensures Valid()
    {
      entries := [];
      nextId := 0;
    }

    /** `upsert_job_status`: update the pair's entry in place, or insert a new one. */
    method UpsertJobStatus(userId: string, jobId: string, status: string, jobData: JobData, now: Instant)
      requires Valid()
      modifies this
      ensures (entries, nextId) == Upserted(old(entries), old(nextId), userId, jobId, status, jobData, now)
      ensures Valid()
    {
      UpsertPreservesWellFormed(entries, nextId, userId, jobId, status, jobData, now);
      var i := FindEntry(entries, userId, jobId);
      if i >= 0 {
        entries := entries[i := entries[i].(status := status, updatedAt := now, jobData := jobData)];
      } else {
        entries := entries + [Entry(nextId, userId, jobId, status, jobData, now, now)];
        nextId := nextId + 1;
      }
    }

    /** The `/save` endpoint. */
    method SaveJob(userId: string, jobId: string, jobData: JobData, now: Instant)
      requires Valid()
      modifies this
      ensures (entries, nextId) == Upserted(old(entries), old(nextId), userId, jobId, "saved", jobData, now)
      ensures Valid()
    {
      UpsertJobStatus(userId, jobId, "saved", jobData, now);
    }

    /** The `/applied` endpoint. */
    method MarkApplied(userId: string, jobId: string, jobData: JobData, now: Instant)
      requires Valid()
      modifies this
      ensures (entries, nextId) == Upserted(old(entries), old(nextId), userId, jobId, "applied", jobData, now)
      ensures Valid()
    {
      UpsertJobStatus(userId, jobId, "applied", jobData, now);
    }

    /** The `/not-interested` endpoint. */
    method MarkNotInterested(userId: string, jobId: string, jobData: JobData, now: Instant)
      requires Valid()
      modifies this
      ensures (entries, nextId) == Upserted(old(entries), old(nextId), userId, jobId, "not_interested", jobData, now)
      ensures Valid()
    {
      UpsertJobStatus(userId, jobId, "not_interested", jobData, now);
    }

    /** `list_tracked_jobs`, whose loop builds one item per entry of the page. */
    method ListTrackedJobs(userId: string, status: string, page: int, limit: int) returns (r: Listing)
      ensures r == ListTracked(entries, userId, status, page, limit)
    {
      if page < 1 || limit < 1 {
        return ListFailed;
      }
      var selected := Selected(entries, userId, status);
      var totalCount := |selected|;
      var jobs := PageOf(ByUpdate(selected), page, limit);
      var data: seq<JobData> := [];
      for i := 0 to |jobs|
        invariant data == Items(jobs[..i])
      {
        var job := jobs[i];
        var jobInfo := job.jobData;
        jobInfo := jobInfo["tracking_id" := Text(NatToString(job.id))];
        jobInfo := jobInfo["status" := Text(job.status)];
        jobInfo := jobInfo["updated_at" := Time(job.updatedAt)];
        data := data + [jobInfo];
      }
      assert jobs[..|jobs|] == jobs;
      r := Listed(data, totalCount, page, limit, PageCount(totalCount, limit));
    }

    /** `get_job_status`: the stored status of the pair, or `None`. */
    method GetJobStatus(userId: string, jobId: string) returns (r: Option<string>)
      ensures r == StatusOf(entries, userId, jobId)
    {
      var i := FindEntry(entries, userId, jobId);
      if i >= 0 {
        return Some(entries[i].status);
      }
      return None;
    }
  }
}
