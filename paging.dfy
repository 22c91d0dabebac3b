/**
 * Offset pagination as the routes do it: `items[(page-1)*limit : page*limit]`
 * with Python's clipping slice, and `total_pages = (total + limit - 1) // limit`.
 */
module Paging {
  import opened Sorting

  /** `xs[start:end]` for `0 <= start <= end`, which Python clips to the length. */
  function Slice<T>(xs: seq<T>, start: nat, end: nat): (r: seq<T>)
    requires start <= end
    ensures |r| <= end - start
  {
    if start >= |xs| then [] else if end >= |xs| then xs[start..] else xs[start..end]
  }

  /** `(total + limit - 1) // limit`. */
  function PageCount(total: nat, limit: nat): nat
    requires limit >= 1
  {
    (total + limit - 1) / limit
  }

  function Min(a: int, b: int): int {
    if a <= b then a else b
  }

  /** `(page - 1) * limit`, the number of entries before the page. */
  function Offset(page: nat, limit: nat): nat
    requires page >= 1
  {
    (page - 1) * limit
  }

  /** `xs[(page-1)*limit : page*limit]`. */
  function PageOf<T>(xs: seq<T>, page: nat, limit: nat): (r: seq<T>)
    requires page >= 1
    ensures |r| <= limit
  {
    Slice(xs, Offset(page, limit), Offset(page, limit) + limit)
  }

  /** `(total + limit - 1) // limit` is the ceiling of `total / limit`. */
  lemma PageCountSpec(total: nat, limit: nat)
    requires limit >= 1
    ensures PageCount(total, limit) * limit >= total
    ensures PageCount(total, limit) * limit < total + limit
  {
    var q := (total + limit - 1) / limit;
    var r := (total + limit - 1) % limit;
    assert q * limit + r == total + limit - 1;
  }

  /** A page holds the entries from its offset on, at most `limit` of them. */
  lemma PageOfSpec<T>(xs: seq<T>, page: nat, limit: nat)
    requires page >= 1
    ensures var r := PageOf(xs, page, limit);
      && |r| == (if Offset(page, limit) >= |xs| then 0 else Min(limit, |xs| - Offset(page, limit)))
      && forall k :: 0 <= k < |r| ==> r[k] == xs[Offset(page, limit) + k]
  {
  }

  lemma MulLe(a: nat, b: nat, c: nat)
    requires a <= b
    ensures a * c <= b * c
  {
    assert b * c == a * c + (b - a) * c;
  }

  /** A page holds something exactly when its number is at most `total_pages`. */
  lemma PageNonEmptyIff<T>(xs: seq<T>, page: nat, limit: nat)
    requires page >= 1 && limit >= 1
    ensures PageOf(xs, page, limit) != [] <==> page <= PageCount(|xs|, limit)
  {
    var p := PageCount(|xs|, limit);
    PageCountSpec(|xs|, limit);
    if page <= p {
      MulLe(page - 1, p - 1, limit);
      assert (p - 1) * limit == p * limit - limit;
    } else {
      MulLe(p, page - 1, limit);
    }
  }

  /** A page of a sorted list is sorted. */
  lemma PageSorted<T, K>(xs: seq<T>, page: nat, limit: nat, key: T -> K, prec: (K, K) -> bool)
    requires page >= 1
    requires SortedBy(xs, key, prec)
    ensures SortedBy(PageOf(xs, page, limit), key, prec)
  {
    PageOfSpec(xs, page, limit);
  }
}
