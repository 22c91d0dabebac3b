/**
 * What the scrapers read from a feed once HTTP and XML/HTML parsing are done:
 * RSS items whose child elements may be absent or empty, and the per-item loop
 * that keeps the postings an item yields, in feed order.
 */
module Feeds {
  import opened Wrappers
  import opened Text
  import opened Postings
  import opened Normalize

  /** `item.find(tag)`: no such child, or a child whose `.text` is `None` or a string. */
  datatype Elem = Absent | Present(text: Option<string>)

  /**
   * An RSS `<item>`. `published` is what `strptime(pubDate, "%a, %d %b %Y %H:%M:%S %z")`
   * gives, `None` when the element is missing or does not parse.
   */
  datatype RssItem = RssItem(title: Elem, link: Elem, description: Elem, published: Option<DateTime>)

  /** A feed response: unusable (non-200 status, parse error, transport failure) or its items. */
  datatype Feed<T> = Unavailable | Items(items: seq<T>)

  /** The postings `f` yields for `items`, in order; an item yielding `None` is skipped. */
  function Collect<T>(items: seq<T>, f: T -> Option<HybridJob>): (r: seq<HybridJob>)
    ensures |r| <= |items|
  {
    if items == [] then []
    else
      var last := f(items[|items| - 1]);
      Collect(items[..|items| - 1], f) + (if last.Some? then [last.value] else [])
  }

  /** One more item appends what it yields, if anything. */
  lemma CollectStep<T>(items: seq<T>, i: nat, f: T -> Option<HybridJob>)
    requires i < |items|
    ensures Collect(items[..i + 1], f) == Collect(items[..i], f) + (if f(items[i]).Some? then [f(items[i]).value] else [])
  {
    assert items[..i + 1][..i] == items[..i];
  }

  /** Every collected posting is the image of some item, and every yielded posting is collected. */
  lemma {:induction false} CollectMembers<T>(items: seq<T>, f: T -> Option<HybridJob>)
    ensures forall j :: j in Collect(items, f) <==> exists i :: 0 <= i < |items| && f(items[i]) == Some(j)
  {
    if items != [] {
      var p := items[..|items| - 1];
      CollectMembers(p, f);
      forall j ensures j in Collect(items, f) <==> exists i :: 0 <= i < |items| && f(items[i]) == Some(j) {
        if exists i :: 0 <= i < |items| && f(items[i]) == Some(j) {
          var i :| 0 <= i < |items| && f(items[i]) == Some(j);
          if i < |p| {
            assert p[i] == items[i];
          }
        }
        if j in Collect(p, f) {
          var i :| 0 <= i < |p| && f(p[i]) == Some(j);
          assert items[i] == p[i];
        }
      }
    }
  }

  /** `link.split('/')[-1]`: the text after the last '/', or all of `link` without one. */
  function LastSegment(link: string): (r: string)
    ensures '/' !in r
    ensures |r| <= |link| && link[|link| - |r|..] == r
    ensures |r| < |link| ==> link[|link| - |r| - 1] == '/'
  {
    if link == [] || link[|link| - 1] == '/' then []
    else LastSegment(link[..|link| - 1]) + [link[|link| - 1]]
  }

  /**
   * The RSS scrapers' `job_id`: the site prefix plus the last path segment of a
   * truthy link, otherwise plus the decimal form of the title's `hash()`.
   */
  function FeedJobId(prefix: string, applyLink: Option<string>, fullTitle: string, hash: string -> int): (r: string)
    ensures Truthy(applyLink) ==> r == prefix + LastSegment(applyLink.value)
    ensures !Truthy(applyLink) ==> r == prefix + IntToString(hash(fullTitle))
  {
    if Truthy(applyLink) then prefix + LastSegment(applyLink.value)
    else prefix + IntToString(hash(fullTitle))
  }
}
