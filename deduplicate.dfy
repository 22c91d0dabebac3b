/**
 * `deduplicate_jobs`: the caller's list is stably sorted in place by source
 * priority, then one pass keeps each posting whose apply link and whose
 * (title, company) key have not been seen yet.
 */
module Deduplicate {
  import opened Text
  import opened Sorting
  import opened Postings

  /** `source_priority.get(source, 99)`: api, then wwr, then remoteok, then hn, then the rest. */
  function Priority(source: string): nat {
    if source == "api" then 0
    else if source == "wwr" then 1
    else if source == "remoteok" then 2
    else if source == "hn" then 3
    else 99
  }

  function JobPriority(j: HybridJob): int {
    Priority(j.source)
  }

  /** `jobs.sort(key=lambda x: source_priority.get(x.source, 99))`. */
  function PrioritySort(jobs: seq<HybridJob>): seq<HybridJob> {
    SortBy(jobs, JobPriority, Ascending)
  }

  function Link(j: HybridJob): string {
    j.applyLink
  }

  /** `(job.title.lower().strip(), job.company.lower().strip())`. */
  function TitleKey(j: HybridJob): (string, string) {
    (Strip(Lower(j.title)), Strip(Lower(j.company)))
  }

  /** The links of the postings in `s`. */
  function Links(s: seq<HybridJob>): set<string> {
    if s == [] then {} else Links(s[..|s| - 1]) + {s[|s| - 1].applyLink}
  }

  /** The title keys of the postings in `s`. */
  function Keys(s: seq<HybridJob>): set<(string, string)> {
    if s == [] then {} else Keys(s[..|s| - 1]) + {TitleKey(s[|s| - 1])}
  }

  /** `Links` and `Keys` hold exactly the links and keys of the members. */
  lemma {:induction false} LinksKeysMembers(s: seq<HybridJob>)
    ensures forall l :: l in Links(s) <==> exists j :: j in s && j.applyLink == l
    ensures forall k :: k in Keys(s) <==> exists j :: j in s && TitleKey(j) == k
  {
    if s != [] {
      var p := s[..|s| - 1];
      LinksKeysMembers(p);
      assert s == p + [s[|s| - 1]];
    }
  }

  lemma LinksKeysAppend(s: seq<HybridJob>, j: HybridJob)
    ensures Links(s + [j]) == Links(s) + {j.applyLink}
    ensures Keys(s + [j]) == Keys(s) + {TitleKey(j)}
  {
    assert (s + [j])[..|s|] == s;
  }

  /** `a` and `b` share a link or a title key. */
  predicate Clash(a: HybridJob, b: HybridJob) {
    a.applyLink == b.applyLink || TitleKey(a) == TitleKey(b)
  }

  /** `j` would be skipped after `kept` has been accepted. */
  predicate Collides(j: HybridJob, kept: seq<HybridJob>) {
    j.applyLink in Links(kept) || TitleKey(j) in Keys(kept)
  }

  /** The postings the pass keeps from `s`, taken in order. */
  function Kept(s: seq<HybridJob>): seq<HybridJob> {
    if s == [] then []
    else
      var kept := Kept(s[..|s| - 1]);
      if Collides(s[|s| - 1], kept) then kept else kept + [s[|s| - 1]]
  }

  /** `deduplicate_jobs` as a value: sort by priority, then keep. */
  function Dedupe(jobs: seq<HybridJob>): seq<HybridJob> {
    Kept(PrioritySort(jobs))
  }

  /** The in-place sort followed by the single pass with its two seen-sets. */
  method DeduplicateJobs(jobs: array<HybridJob>) returns (unique: seq<HybridJob>)
    modifies jobs
    ensures jobs[..] == PrioritySort(old(jobs[..]))
    ensures unique == Kept(jobs[..])
    ensures unique == Dedupe(old(jobs[..]))
  {
    var sorted := PrioritySort(jobs[..]);
    forall i | 0 <= i < jobs.Length {
      jobs[i] := sorted[i];
    }
    assert jobs[..] == sorted;
    unique := [];
    var seenLinks: set<string> := {};
    var seenTitleCompany: set<(string, string)> := {};
    for i := 0 to jobs.Length
      invariant jobs[..] == sorted
      invariant unique == Kept(jobs[..i])
      invariant seenLinks == Links(unique)
      invariant seenTitleCompany == Keys(unique)
    {
      var job := jobs[i];
      KeptStep(jobs[..], i);
      if job.applyLink in seenLinks {
        continue;
      }
      var key := (Strip(Lower(job.title)), Strip(Lower(job.company)));
      if key in seenTitleCompany {
        continue;
      }
      LinksKeysAppend(unique, job);
      unique := unique + [job];
      seenLinks := seenLinks + {job.applyLink};
      seenTitleCompany := seenTitleCompany + {key};
    }
    assert jobs[..jobs.Length] == jobs[..];
  }

  /** One step of the pass. */
  lemma KeptStep(s: seq<HybridJob>, i: nat)
    requires i < |s|
    ensures Kept(s[..i + 1]) == if Collides(s[i], Kept(s[..i])) then Kept(s[..i]) else Kept(s[..i]) + [s[i]]
  {
    assert s[..i + 1][..i] == s[..i];
  }

  /** The kept postings of a prefix are a prefix of the kept postings. */
  lemma {:induction false} KeptPrefix(s: seq<HybridJob>, i: nat)
    requires i <= |s|
    ensures Kept(s[..i]) <= Kept(s)
    decreases |s| - i
  {
    if i < |s| {
      KeptPrefix(s[..|s| - 1], i);
      assert s[..|s| - 1][..i] == s[..i];
    } else {
      assert s[..i] == s;
    }
  }

  /** The kept postings are a subsequence of the input. */
  lemma {:induction false} KeptSubsequence(s: seq<HybridJob>)
    ensures Subsequence(Kept(s), s)
  {
    if s != [] {
      var p := s[..|s| - 1];
      KeptSubsequence(p);
      var k := Kept(s);
      if k != Kept(p) {
        assert k[..|k| - 1] == Kept(p);
      } else if k != [] {
        assert Subsequence(k, p);
      }
    }
  }

  /** No two kept postings share an apply link or a title key. */
  lemma {:induction false} KeptDistinct(s: seq<HybridJob>)
    ensures DistinctBy(Kept(s), Link)
    ensures DistinctBy(Kept(s), TitleKey)
  {
    if s != [] {
      var p := s[..|s| - 1];
      KeptDistinct(p);
      var kp := Kept(p);
      var x := s[|s| - 1];
      if !Collides(x, kp) {
        var k := kp + [x];
        forall i, j | 0 <= i < j < |k| ensures Link(k[i]) != Link(k[j]) && TitleKey(k[i]) != TitleKey(k[j]) {
          if j == |k| - 1 {
            assert k[i] in kp;
            LinksKeysMembers(kp);
          } else {
            assert k[i] == kp[i] && k[j] == kp[j];
          }
        }
      }
    }
  }

  /** Every posting is kept or clashes with a posting kept before it. */
  lemma {:induction false} DroppedClashes(s: seq<HybridJob>, i: nat)
    requires i < |s|
    ensures Kept(s[..i + 1]) == Kept(s[..i]) + [s[i]]
         || exists k :: k in Kept(s[..i]) && Clash(k, s[i])
  {
    var p := s[..i + 1];
    assert p[..|p| - 1] == s[..i];
    var kp := Kept(s[..i]);
    LinksKeysMembers(kp);
    if Collides(s[i], kp) {
      if s[i].applyLink in Links(kp) {
        var k :| k in kp && k.applyLink == s[i].applyLink;
        assert Clash(k, s[i]);
      } else {
        var k :| k in kp && TitleKey(k) == TitleKey(s[i]);
        assert Clash(k, s[i]);
      }
    }
  }

  /** A sequence without repeated links or title keys is kept whole. */
  lemma {:induction false} KeptOfDistinct(s: seq<HybridJob>)
    requires DistinctBy(s, Link) && DistinctBy(s, TitleKey)
    ensures Kept(s) == s
  {
    if s != [] {
      var p := s[..|s| - 1];
      DistinctInit(s);
      KeptOfDistinct(p);
      LastFresh(s);
      LastSplit(s);
    }
  }

  /** Dropping the last posting keeps links and title keys distinct. */
  lemma DistinctInit(s: seq<HybridJob>)
    requires s != [] && DistinctBy(s, Link) && DistinctBy(s, TitleKey)
    ensures DistinctBy(s[..|s| - 1], Link) && DistinctBy(s[..|s| - 1], TitleKey)
  {
    var p := s[..|s| - 1];
    forall i, j | 0 <= i < j < |p| ensures Link(p[i]) != Link(p[j]) && TitleKey(p[i]) != TitleKey(p[j]) {
      assert p[i] == s[i] && p[j] == s[j];
    }
  }

  /** The last posting shares its link and title key with no earlier one. */
  lemma LastFresh(s: seq<HybridJob>)
    requires s != [] && DistinctBy(s, Link) && DistinctBy(s, TitleKey)
    ensures !Collides(s[|s| - 1], s[..|s| - 1])
  {
    var p := s[..|s| - 1];
    var x := s[|s| - 1];
    LinksKeysMembers(p);
    forall y | y in p ensures y.applyLink != x.applyLink && TitleKey(y) != TitleKey(x) {
      var i :| 0 <= i < |p| && p[i] == y;
      assert s[i] == y;
    }
  }

  /** A subsequence of a sequence sorted by `key` is sorted by `key`. */
  lemma {:induction false} SubsequenceSorted(a: seq<HybridJob>, b: seq<HybridJob>)
    requires Subsequence(a, b) && SortedBy(b, JobPriority, Ascending)
    ensures SortedBy(a, JobPriority, Ascending)
    decreases |b|
  {
    if a != [] {
      var b' := b[..|b| - 1];
      assert SortedBy(b', JobPriority, Ascending) by {
        forall i, j | 0 <= i < j < |b'| ensures JobPriority(b'[i]) <= JobPriority(b'[j]) {
          assert b'[i] == b[i] && b'[j] == b[j];
        }
      }
      if a[|a| - 1] == b[|b| - 1] && Subsequence(a[..|a| - 1], b') {
        var a' := a[..|a| - 1];
        SubsequenceSorted(a', b');
        SubsequenceMembers(a', b');
        forall i, j | 0 <= i < j < |a| ensures JobPriority(a[i]) <= JobPriority(a[j]) {
          assert a[i] == a'[i];
          if j < |a| - 1 {
            assert a[j] == a'[j];
          } else {
            assert a[i] in b';
            var k :| 0 <= k < |b'| && b'[k] == a[i];
            assert b[k] == a[i];
          }
        }
      } else {
        SubsequenceSorted(a, b');
      }
    }
  }

  /** What `deduplicate_jobs` returns: unique links and keys, priority order, nothing lost silently. */
  lemma DedupeProperties(jobs: seq<HybridJob>)
    ensures var r := Dedupe(jobs);
      && DistinctBy(r, Link)
      && DistinctBy(r, TitleKey)
      && SortedBy(r, JobPriority, Ascending)
      && Subsequence(r, PrioritySort(jobs))
      && multiset(PrioritySort(jobs)) == multiset(jobs)
  {
    var sorted := PrioritySort(jobs);
    KeptDistinct(sorted);
    KeptSubsequence(sorted);
    AscendingIsOrder();
    SortBySorted(jobs, JobPriority, Ascending);
    SubsequenceSorted(Kept(sorted), sorted);
  }

  /** At most one kept posting carries the placeholder link "#". */
  lemma AtMostOnePlaceholder(jobs: seq<HybridJob>)
    ensures var r := Dedupe(jobs);
      forall i, j :: 0 <= i < j < |r| && r[i].applyLink == "#" ==> r[j].applyLink != "#"
  {
    KeptDistinct(PrioritySort(jobs));
  }

  /** Deduplicating twice is deduplicating once. */
  lemma DedupeIdempotent(jobs: seq<HybridJob>)
    ensures Dedupe(Dedupe(jobs)) == Dedupe(jobs)
  {
    var r := Dedupe(jobs);
    DedupeProperties(jobs);
    SortBySortedFixed(r, JobPriority, Ascending);
    KeptOfDistinct(r);
  }
}
