/**
 * Sequence operations that the dashboard's table code is built from:
 * boolean-mask selection (Filter), column extraction (Map) and the
 * first-appearance de-duplication that `Series.unique()` performs (Unique).
 */
module Sequences {

  /** `a` is obtained from `b` by deleting elements and keeping the order of the rest. */
  ghost predicate IsSubsequence<T>(a: seq<T>, b: seq<T>)
    decreases |b|
  {
    if a == [] then true
    else if b == [] then false
    else (a[0] == b[0] && IsSubsequence(a[1..], b[1..])) || IsSubsequence(a, b[1..])
  }

  /** No element occurs twice. */
  ghost predicate NoDuplicates<T>(s: seq<T>)
  {
    forall i, j :: 0 <= i < j < |s| ==> s[i] != s[j]
  }

  /**
   * The rows of `s` for which the mask `p` is true, in their original order:
   * what `frame[mask]` returns. The result keeps every occurrence of an
   * element that satisfies `p` and none of the others.
   */
  function Filter<T(!new)>(s: seq<T>, p: T -> bool): (r: seq<T>)
    ensures |r| <= |s|
    ensures forall x :: x in r <==> x in s && p(x)
  {
    if s == [] then []
    else
      var rest := Filter(s[1..], p);
      assert s == [s[0]] + s[1..];
      if p(s[0]) then [s[0]] + rest else rest
  }

  /** Filter keeps every occurrence of a selected element and none of the others. */
  lemma {:induction false} FilterCounts<T(!new)>(s: seq<T>, p: T -> bool)
    ensures forall x :: multiset(Filter(s, p))[x] == if p(x) then multiset(s)[x] else 0
  {
    if s != [] {
      assert s == [s[0]] + s[1..];
      FilterCounts(s[1..], p);
    }
  }

  /** Filter keeps the selected rows in their original order. */
  lemma {:induction false} FilterSubsequence<T(!new)>(s: seq<T>, p: T -> bool)
    ensures IsSubsequence(Filter(s, p), s)
  {
    if s != [] {
      var rest := Filter(s[1..], p);
      FilterSubsequence(s[1..], p);
      if p(s[0]) {
        assert ([s[0]] + rest)[1..] == rest;
      }
    }
  }

  /** A mask over a single row keeps it exactly when the row satisfies the mask. */
  lemma FilterSingleton<T(!new)>(x: T, p: T -> bool)
    ensures Filter([x], p) == if p(x) then [x] else []
  {
    assert [x][1..] == [];
  }

  /** The column `f` of every row, in row order. */
  function Map<T, U>(s: seq<T>, f: T -> U): (r: seq<U>)
    ensures |r| == |s|
    ensures forall i :: 0 <= i < |s| ==> r[i] == f(s[i])
  {
    if s == [] then [] else [f(s[0])] + Map(s[1..], f)
  }

  /**
   * The distinct elements of `s`, each once, in order of first appearance.
   * Built by scanning from the back: the last element is appended when it
   * has not been seen before.
   */
  function Unique<T(==,!new)>(s: seq<T>): (r: seq<T>)
    ensures forall x :: x in r <==> x in s
    ensures NoDuplicates(r)
  {
    if s == [] then []
    else
      var init := s[..|s| - 1];
      var last := s[|s| - 1];
      var u := Unique(init);
      assert s == init + [last];
      if last in u then u else u + [last]
  }

  /** The position of the first occurrence of `x` in `s`. */
  function FirstIndex<T(==)>(s: seq<T>, x: T): (i: nat)
    requires x in s
    ensures i < |s| && s[i] == x
    ensures forall j :: 0 <= j < i ==> s[j] != x
  {
    if s[0] == x then 0
    else
      var i := 1 + FirstIndex(s[1..], x);
      assert forall j :: 1 <= j < i ==> s[j] == s[1..][j - 1];
      i
  }

  lemma {:induction false} FilterAppend<T(!new)>(a: seq<T>, b: seq<T>, p: T -> bool)
    ensures Filter(a + b, p) == Filter(a, p) + Filter(b, p)
  {
    if a == [] {
      assert a + b == b;
    } else {
      assert (a + b)[0] == a[0];
      assert (a + b)[1..] == a[1..] + b;
      FilterAppend(a[1..], b, p);
    }
  }

  /** Masking with a condition every row already meets changes nothing. */
  lemma {:induction false} FilterAll<T(!new)>(s: seq<T>, p: T -> bool)
    requires forall x :: x in s ==> p(x)
    ensures Filter(s, p) == s
  {
    if s != [] {
      assert s == [s[0]] + s[1..];
      FilterAll(s[1..], p);
    }
  }

  /** Two masks applied one after the other select what their conjunction selects. */
  lemma {:induction false} FilterFilter<T(!new)>(s: seq<T>, p: T -> bool, q: T -> bool, pq: T -> bool)
    requires forall x :: pq(x) == (p(x) && q(x))
    ensures Filter(Filter(s, p), q) == Filter(s, pq)
  {
    if s != [] {
      FilterFilter(s[1..], p, q, pq);
      var rest := Filter(s[1..], p);
      if p(s[0]) {
        assert Filter(s, p) == [s[0]] + rest;
        assert ([s[0]] + rest)[1..] == rest;
      }
    }
  }

  /** Extracting a column commutes with a mask that only looks at that column. */
  lemma {:induction false} MapFilter<T(!new), U(!new)>(s: seq<T>, f: T -> U, p: T -> bool, q: U -> bool)
    requires forall x :: p(x) == q(f(x))
    ensures Map(Filter(s, p), f) == Filter(Map(s, f), q)
  {
    if s != [] {
      MapFilter(s[1..], f, p, q);
      var rest := Filter(s[1..], p);
      var mapped := Map(s[1..], f);
      assert Map(s, f) == [f(s[0])] + mapped;
      assert ([f(s[0])] + mapped)[1..] == mapped;
      if p(s[0]) {
        assert ([s[0]] + rest)[1..] == rest;
        assert Map([s[0]] + rest, f) == [f(s[0])] + Map(rest, f);
      }
    }
  }

  lemma FirstIndexAppend<T(!new)>(a: seq<T>, b: seq<T>, x: T)
    requires x in a
    ensures FirstIndex(a + b, x) == FirstIndex(a, x)
  {
    var k := FirstIndex(a, x);
    assert (a + b)[k] == x;
    assert forall j :: 0 <= j < k ==> (a + b)[j] == a[j];
  }

  /** Unique lists the distinct elements in the order in which they first appear. */
  lemma {:induction false} UniqueFirstAppearance<T(!new)>(s: seq<T>)
    ensures forall i, j :: 0 <= i < j < |Unique(s)| ==>
      FirstIndex(s, Unique(s)[i]) < FirstIndex(s, Unique(s)[j])
  {
    if s != [] {
      var init := s[..|s| - 1];
      var last := s[|s| - 1];
      var u := Unique(init);
      assert s == init + [last];
      UniqueFirstAppearance(init);
      forall x | x in init
        ensures FirstIndex(s, x) == FirstIndex(init, x)
      {
        FirstIndexAppend(init, [last], x);
      }
      if last !in u {
        assert FirstIndex(s, last) == |init|;
        assert Unique(s) == u + [last];
      }
    }
  }

  /** De-duplicating commutes with a mask. */
  lemma {:induction false} UniqueFilter<T(!new)>(s: seq<T>, p: T -> bool)
    ensures Unique(Filter(s, p)) == Filter(Unique(s), p)
  {
    if s != [] {
      var init := s[..|s| - 1];
      var last := s[|s| - 1];
      assert s == init + [last];
      UniqueFilter(init, p);
      FilterAppend(init, [last], p);
      FilterSingleton(last, p);
      var f := Filter(init, p);
      var u := Unique(init);
      assert last in u <==> last in init;
      if last !in u {
        FilterAppend(u, [last], p);
        assert Unique(s) == u + [last];
      } else {
        assert Unique(s) == u;
      }
      if p(last) {
        assert Filter(s, p) == f + [last];
        assert (f + [last])[..|f + [last]| - 1] == f;
        assert last in f <==> last in init;
      } else {
        assert Filter(s, p) == f;
      }
    }
  }

  lemma {:induction false} FilterPrefixUpTo<T(!new)>(u: seq<T>, m: nat, n: nat, q: T -> bool)
    requires NoDuplicates(u)
    requires m <= n <= |u|
    requires forall x :: q(x) == (x in u[..m])
    ensures Filter(u[..n], q) == u[..m]
  {
    if n == m {
      FilterAll(u[..m], q);
    } else {
      FilterPrefixUpTo(u, m, n - 1, q);
      assert u[..n] == u[..n - 1] + [u[n - 1]];
      FilterAppend(u[..n - 1], [u[n - 1]], q);
      assert u[n - 1] !in u[..m];
      FilterSingleton(u[n - 1], q);
    }
  }

  /** In a sequence without duplicates, keeping the members of a prefix keeps exactly that prefix. */
  lemma FilterPrefix<T(!new)>(u: seq<T>, m: nat, q: T -> bool)
    requires NoDuplicates(u)
    requires m <= |u|
    requires forall x :: q(x) == (x in u[..m])
    ensures Filter(u, q) == u[..m]
  {
    FilterPrefixUpTo(u, m, |u|, q);
    assert u[..|u|] == u;
  }
}
