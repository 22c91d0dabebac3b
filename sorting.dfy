/**
 * Python's `list.sort(key=...)` and `sorted(..., key=..., reverse=...)`: a stable
 * sort by a key. `prec(a, b)` says key `a` goes strictly before key `b`, so an
 * ascending sort uses `<` and a `reverse=True` sort uses `>`; elements whose keys
 * are equal keep their original order in both cases, as in Python.
 */
module Sorting {

  /** `prec` is irreflexive, transitive and total on distinct keys. */
  ghost predicate StrictTotalOrder<K(!new)>(prec: (K, K) -> bool) {
    (forall a :: !prec(a, a)) &&
    (forall a, b, c :: prec(a, b) && prec(b, c) ==> prec(a, c)) &&
    (forall a, b :: a != b ==> prec(a, b) || prec(b, a))
  }

  /** No element has a key that goes strictly before the key of an element ahead of it. */
  ghost predicate SortedBy<T, K>(s: seq<T>, key: T -> K, prec: (K, K) -> bool) {
    forall i, j :: 0 <= i < j < |s| ==> !prec(key(s[j]), key(s[i]))
  }

  /** Inserts `x` in front of the first element whose key does not go strictly before `key(x)`. */
  function Insert<T, K>(x: T, s: seq<T>, key: T -> K, prec: (K, K) -> bool): (r: seq<T>)
    ensures multiset(r) == multiset(s) + multiset{x}
    ensures |r| == |s| + 1
  {
    if s == [] || !prec(key(s[0]), key(x)) then [x] + s
    else
      assert s == [s[0]] + s[1..];
      [s[0]] + Insert(x, s[1..], key, prec)
  }

  /** The stable sort of `s` by `key`, ordered by `prec`. */
  function SortBy<T, K>(s: seq<T>, key: T -> K, prec: (K, K) -> bool): (r: seq<T>)
    ensures multiset(r) == multiset(s)
    ensures |r| == |s|
  {
    if s == [] then []
    else
      assert s == [s[0]] + s[1..];
      Insert(s[0], SortBy(s[1..], key, prec), key, prec)
  }

  /** Every element of the sorted sequence comes from the input, and conversely. */
  lemma SortByMembers<T, K>(s: seq<T>, key: T -> K, prec: (K, K) -> bool)
    ensures forall x :: x in SortBy(s, key, prec) <==> x in s
  {
    var r := SortBy(s, key, prec);
    assert forall x :: x in r <==> x in multiset(r);
    assert forall x :: x in s <==> x in multiset(s);
  }

  lemma {:induction false} InsertSorted<T, K(!new)>(x: T, s: seq<T>, key: T -> K, prec: (K, K) -> bool)
    requires StrictTotalOrder(prec) && SortedBy(s, key, prec)
    ensures SortedBy(Insert(x, s, key, prec), key, prec)
  {
    if s == [] || !prec(key(s[0]), key(x)) {
      var r := [x] + s;
      forall i, j | 0 <= i < j < |r| ensures !prec(key(r[j]), key(r[i])) {
        if i == 0 && j > 1 {
          assert r[j] == s[j - 1];
          assert !prec(key(s[j - 1]), key(s[0]));
        } else if i > 0 {
          assert r[i] == s[i - 1] && r[j] == s[j - 1];
        }
      }
    } else {
      InsertSorted(x, s[1..], key, prec);
      var t := Insert(x, s[1..], key, prec);
      var r := [s[0]] + t;
      forall i, j | 0 <= i < j < |r| ensures !prec(key(r[j]), key(r[i])) {
        if i == 0 {
          assert r[j] in multiset(t);
          assert r[j] in multiset(s[1..]) + multiset{x};
          if r[j] != x {
            var k :| 0 <= k < |s[1..]| && s[1..][k] == r[j];
            assert s[k + 1] == r[j];
          }
        } else {
          assert r[i] == t[i - 1] && r[j] == t[j - 1];
        }
      }
    }
  }

  /** The result is sorted when `prec` is a strict total order. */
  lemma {:induction false} SortBySorted<T, K(!new)>(s: seq<T>, key: T -> K, prec: (K, K) -> bool)
    requires StrictTotalOrder(prec)
    ensures SortedBy(SortBy(s, key, prec), key, prec)
  {
    if s != [] {
      SortBySorted(s[1..], key, prec);
      InsertSorted(s[0], SortBy(s[1..], key, prec), key, prec);
    }
  }

  lemma NotBeforeItself<K>(a: K, prec: (K, K) -> bool)
    requires forall b :: !prec(b, b)
    ensures !prec(a, a)
  {
  }

  /** The elements of `s` whose key is `k`, in their order in `s`. */
  function WithKey<T, K(==)>(s: seq<T>, key: T -> K, k: K): (r: seq<T>)
    ensures |r| <= |s|
  {
    if s == [] then []
    else if key(s[0]) == k then [s[0]] + WithKey(s[1..], key, k)
    else WithKey(s[1..], key, k)
  }

  lemma {:induction false} InsertWithKey<T, K>(x: T, s: seq<T>, key: T -> K, prec: (K, K) -> bool, k: K)
    requires forall a :: !prec(a, a)
    ensures WithKey(Insert(x, s, key, prec), key, k)
         == if key(x) == k then [x] + WithKey(s, key, k) else WithKey(s, key, k)
  {
    if s == [] || !prec(key(s[0]), key(x)) {
      assert ([x] + s)[1..] == s;
    } else {
      InsertWithKey(x, s[1..], key, prec, k);
      assert ([s[0]] + Insert(x, s[1..], key, prec))[1..] == Insert(x, s[1..], key, prec);
      NotBeforeItself(key(x), prec);
    }
  }

  /** Stability: elements with equal keys keep their relative order. */
  lemma {:induction false} SortByStable<T, K>(s: seq<T>, key: T -> K, prec: (K, K) -> bool, k: K)
    requires forall a :: !prec(a, a)
    ensures WithKey(SortBy(s, key, prec), key, k) == WithKey(s, key, k)
  {
    if s != [] {
      SortByStable(s[1..], key, prec, k);
      InsertWithKey(s[0], SortBy(s[1..], key, prec), key, prec, k);
    }
  }

  /** Sorting an already sorted sequence changes nothing. */
  lemma {:induction false} SortBySortedFixed<T, K>(s: seq<T>, key: T -> K, prec: (K, K) -> bool)
    requires SortedBy(s, key, prec)
    ensures SortBy(s, key, prec) == s
  {
    if s != [] {
      assert SortedBy(s[1..], key, prec) by {
        forall i, j | 0 <= i < j < |s[1..]| ensures !prec(key(s[1..][j]), key(s[1..][i])) {
          assert s[1..][i] == s[i + 1] && s[1..][j] == s[j + 1];
        }
      }
      SortBySortedFixed(s[1..], key, prec);
      if |s| > 1 {
        assert !prec(key(s[1]), key(s[0]));
        assert s[1..] == [s[1]] + s[2..];
      }
    }
  }

  /** Sorting is idempotent. */
  lemma SortByIdempotent<T, K(!new)>(s: seq<T>, key: T -> K, prec: (K, K) -> bool)
    requires StrictTotalOrder(prec)
    ensures SortBy(SortBy(s, key, prec), key, prec) == SortBy(s, key, prec)
  {
    SortBySorted(s, key, prec);
    SortBySortedFixed(SortBy(s, key, prec), key, prec);
  }

  /** No two elements of `s` share a value of `f`. */
  ghost predicate DistinctBy<T, F>(s: seq<T>, f: T -> F) {
    forall i, j :: 0 <= i < j < |s| ==> f(s[i]) != f(s[j])
  }

  lemma {:induction false} InsertDistinctBy<T, K, F>(x: T, s: seq<T>, key: T -> K, prec: (K, K) -> bool, f: T -> F)
    requires DistinctBy([x] + s, f)
    ensures DistinctBy(Insert(x, s, key, prec), f)
  {
    if s != [] && prec(key(s[0]), key(x)) {
      var s' := s[1..];
      assert DistinctBy([x] + s', f) by {
        forall i, j | 0 <= i < j < |[x] + s'| ensures f(([x] + s')[i]) != f(([x] + s')[j]) {
          assert ([x] + s')[j] == ([x] + s)[j + 1];
          if i == 0 {
            assert ([x] + s')[0] == ([x] + s)[0];
          } else {
            assert ([x] + s')[i] == ([x] + s)[i + 1];
          }
        }
      }
      InsertDistinctBy(x, s', key, prec, f);
      var t := Insert(x, s', key, prec);
      var r := [s[0]] + t;
      forall i, j | 0 <= i < j < |r| ensures f(r[i]) != f(r[j]) {
        assert r[j] == t[j - 1];
        if i == 0 {
          assert r[j] in multiset(t);
          assert r[j] in multiset(s') + multiset{x};
          if r[j] == x {
            assert ([x] + s)[1] == s[0];
          } else {
            var k :| 0 <= k < |s'| && s'[k] == r[j];
            assert ([x] + s)[k + 2] == r[j] && ([x] + s)[1] == s[0];
          }
        } else {
          assert r[i] == t[i - 1] && r[j] == t[j - 1];
        }
      }
    }
  }

  /** Sorting keeps a sequence free of duplicates under `f`. */
  lemma {:induction false} SortByDistinctBy<T, K, F>(s: seq<T>, key: T -> K, prec: (K, K) -> bool, f: T -> F)
    requires DistinctBy(s, f)
    ensures DistinctBy(SortBy(s, key, prec), f)
  {
    if s != [] {
      var t := SortBy(s[1..], key, prec);
      assert DistinctBy(s[1..], f) by {
        forall i, j | 0 <= i < j < |s[1..]| ensures f(s[1..][i]) != f(s[1..][j]) {
          assert s[1..][i] == s[i + 1] && s[1..][j] == s[j + 1];
        }
      }
      SortByDistinctBy(s[1..], key, prec, f);
      assert DistinctBy([s[0]] + t, f) by {
        forall i, j | 0 <= i < j < |[s[0]] + t| ensures f(([s[0]] + t)[i]) != f(([s[0]] + t)[j]) {
          if i == 0 {
            var y := t[j - 1];
            assert y in multiset(s[1..]);
            var k :| 0 <= k < |s[1..]| && s[1..][k] == y;
            assert s[k + 1] == y;
          } else {
            assert ([s[0]] + t)[i] == t[i - 1] && ([s[0]] + t)[j] == t[j - 1];
          }
        }
      }
      InsertDistinctBy(s[0], t, key, prec, f);
    }
  }

  /** `<` on integers, the order of an ascending sort. */
  function Ascending(a: int, b: int): bool { a < b }

  /** `>` on integers, the order of a `reverse=True` sort. */
  function Descending(a: int, b: int): bool { a > b }

  lemma AscendingIsOrder()
    ensures StrictTotalOrder(Ascending)
  {
  }

  lemma DescendingIsOrder()
    ensures StrictTotalOrder(Descending)
  {
  }

  /** `a` is `b` with some elements left out, the rest in their order. */
  ghost predicate Subsequence<T>(a: seq<T>, b: seq<T>)
    decreases |b|
  {
    if a == [] then true
    else if b == [] then false
    else (a[|a| - 1] == b[|b| - 1] && Subsequence(a[..|a| - 1], b[..|b| - 1])) || Subsequence(a, b[..|b| - 1])
  }

  /** Members of a subsequence are members of the whole. */
  lemma {:induction false} SubsequenceMembers<T>(a: seq<T>, b: seq<T>)
    requires Subsequence(a, b)
    ensures forall x :: x in a ==> x in b
  {
    if a != [] {
      if a[|a| - 1] == b[|b| - 1] && Subsequence(a[..|a| - 1], b[..|b| - 1]) {
        SubsequenceMembers(a[..|a| - 1], b[..|b| - 1]);
        assert a == a[..|a| - 1] + [a[|a| - 1]];
        assert b == b[..|b| - 1] + [b[|b| - 1]];
      } else {
        SubsequenceMembers(a, b[..|b| - 1]);
        assert b == b[..|b| - 1] + [b[|b| - 1]];
      }
    }
  }

  lemma LastSplit<T>(s: seq<T>)
    requires s != []
    ensures s == s[..|s| - 1] + [s[|s| - 1]]
  {
  }
}
