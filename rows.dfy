/**
 * Reading a table: rows listed by key (ascending for ORDER BY created_at,
 * descending for ORDER BY created_at DESC), WHERE filters and COUNT(*).
 */
module Rows {

  /** The rows with a key below `n`, smallest key first. */
  function Ascending<T>(m: map<nat, T>, n: nat): (r: seq<T>)
    ensures |r| <= n
  {
    if n == 0 then []
    else Ascending(m, n - 1) + (if n - 1 in m then [m[n - 1]] else [])
  }

  /** The rows with a key below `n`, largest key first. */
  function Descending<T>(m: map<nat, T>, n: nat): (r: seq<T>)
    ensures |r| <= n
  {
    if n == 0 then []
    else (if n - 1 in m then [m[n - 1]] else []) + Descending(m, n - 1)
  }

  /** Rows that carry their own key (every row's `id` equals its key). */
  ghost predicate Keyed<T>(m: map<nat, T>, key: T -> nat)
  {
    forall k :: k in m ==> key(m[k]) == k
  }

  /**
   * The listing holds every row with a key below `n` and only those, each
   * once, strictly increasing by key.
   */
  lemma {:induction false} AscendingRows<T>(m: map<nat, T>, n: nat, key: T -> nat)
    requires Keyed(m, key)
    ensures forall k :: k in m && k < n ==> m[k] in Ascending(m, n)
    ensures forall i :: 0 <= i < |Ascending(m, n)| ==>
      var k := key(Ascending(m, n)[i]); k in m && k < n && m[k] == Ascending(m, n)[i]
    ensures forall i, j :: 0 <= i < j < |Ascending(m, n)| ==>
      key(Ascending(m, n)[i]) < key(Ascending(m, n)[j])
  {
    if n > 0 {
      AscendingRows(m, n - 1, key);
      var p := Ascending(m, n - 1);
      var r := Ascending(m, n);
      assert r[..|p|] == p;
      forall k | k in m && k < n
        ensures m[k] in r
      {
        if k < n - 1 {
          var i :| 0 <= i < |p| && p[i] == m[k];
          assert r[i] == m[k];
        } else {
          assert r[|r| - 1] == m[k];
        }
      }
    }
  }

  /** A key that holds no row adds nothing to the listing. */
  lemma AscendingSkip<T>(m: map<nat, T>, n: nat)
    requires n !in m
    ensures Ascending(m, n + 1) == Ascending(m, n)
  {
  }

  /**
   * The newest-first listing holds every row with a key below `n` and only
   * those, each once, strictly decreasing by key.
   */
  lemma DescendingRows<T>(m: map<nat, T>, n: nat, key: T -> nat)
    requires Keyed(m, key)
    ensures forall k :: k in m && k < n ==> m[k] in Descending(m, n)
    ensures forall i :: 0 <= i < |Descending(m, n)| ==>
      var k := key(Descending(m, n)[i]); k in m && k < n && m[k] == Descending(m, n)[i]
    ensures forall i, j :: 0 <= i < j < |Descending(m, n)| ==>
      key(Descending(m, n)[i]) > key(Descending(m, n)[j])
  {
    DescendingHas(m, n);
    DescendingOnly(m, n, key);
    DescendingOrder(m, n, key);
  }

  lemma {:induction false} DescendingHas<T>(m: map<nat, T>, n: nat)
    ensures forall k :: k in m && k < n ==> m[k] in Descending(m, n)
  {
    if n > 0 {
      DescendingHas(m, n - 1);
    }
  }

  lemma {:induction false} DescendingOnly<T>(m: map<nat, T>, n: nat, key: T -> nat)
    requires Keyed(m, key)
    ensures forall i :: 0 <= i < |Descending(m, n)| ==>
      var k := key(Descending(m, n)[i]); k in m && k < n && m[k] == Descending(m, n)[i]
  {
    if n > 0 {
      DescendingOnly(m, n - 1, key);
      var p := Descending(m, n - 1);
      var h := if n - 1 in m then [m[n - 1]] else [];
      var r := Descending(m, n);
      assert r == h + p;
      forall i | 0 <= i < |r|
        ensures key(r[i]) in m && key(r[i]) < n && m[key(r[i])] == r[i]
      {
        if i >= |h| {
          assert r[i] == p[i - |h|];
        }
      }
    }
  }

  lemma {:induction false} DescendingOrder<T>(m: map<nat, T>, n: nat, key: T -> nat)
    requires Keyed(m, key)
    ensures forall i, j :: 0 <= i < j < |Descending(m, n)| ==>
      key(Descending(m, n)[i]) > key(Descending(m, n)[j])
  {
    if n > 0 {
      DescendingOrder(m, n - 1, key);
      DescendingOnly(m, n - 1, key);
      var p := Descending(m, n - 1);
      var h := if n - 1 in m then [m[n - 1]] else [];
      var r := Descending(m, n);
      assert r == h + p;
      forall i, j | 0 <= i < j < |r|
        ensures key(r[i]) > key(r[j])
      {
        assert r[j] == p[j - |h|];
        if i >= |h| {
          assert r[i] == p[i - |h|];
        }
      }
    }
  }

  /** Descending lists the same rows as Ascending, backwards. */
  lemma {:induction false} DescendingReversed<T>(m: map<nat, T>, n: nat)
    ensures var a := Ascending(m, n);
      var d := Descending(m, n);
      |d| == |a| && forall i :: 0 <= i < |d| ==> d[i] == a[|a| - 1 - i]
  {
    if n > 0 {
      DescendingReversed(m, n - 1);
    }
  }

  /** WHERE: the rows satisfying `p`, in their original order. */
  function Filter<T>(s: seq<T>, p: T -> bool): (r: seq<T>)
    ensures |r| <= |s|
    ensures forall i :: 0 <= i < |r| ==> r[i] in s && p(r[i])
    ensures forall i :: 0 <= i < |s| && p(s[i]) ==> s[i] in r
  {
    if s == [] then []
    else Filter(s[..|s| - 1], p) + (if p(s[|s| - 1]) then [s[|s| - 1]] else [])
  }

  lemma FilterPrefix<T>(s: seq<T>, i: nat, p: T -> bool)
    requires i < |s|
    ensures Filter(s[..i + 1], p) == Filter(s[..i], p) + (if p(s[i]) then [s[i]] else [])
  {
    assert s[..i + 1][..i] == s[..i];
  }

  lemma {:induction false} FilterAppend<T>(a: seq<T>, b: seq<T>, p: T -> bool)
    ensures Filter(a + b, p) == Filter(a, p) + Filter(b, p)
  {
    if b != [] {
      assert (a + b)[..|a + b| - 1] == a + b[..|b| - 1];
      FilterAppend(a, b[..|b| - 1], p);
    } else {
      assert a + b == a;
    }
  }

  /** Filtering keeps relative order: the result is a subsequence. */
  lemma {:induction false} FilterOfFilter<T>(s: seq<T>, p: T -> bool, q: T -> bool)
    ensures Filter(Filter(s, p), q) == Filter(s, x => p(x) && q(x))
  {
    if s != [] {
      var init := s[..|s| - 1];
      FilterOfFilter(init, p, q);
      FilterAppend(Filter(init, p), if p(s[|s| - 1]) then [s[|s| - 1]] else [], q);
    }
  }

  /** Filtering a listing that is increasing by key keeps it increasing. */
  lemma {:induction false} FilterIncreasing<T>(s: seq<T>, p: T -> bool, key: T -> nat)
    requires forall i, j :: 0 <= i < j < |s| ==> key(s[i]) < key(s[j])
    ensures forall i, j :: 0 <= i < j < |Filter(s, p)| ==> key(Filter(s, p)[i]) < key(Filter(s, p)[j])
  {
    if s != [] {
      var init := s[..|s| - 1];
      FilterIncreasing(init, p, key);
      var f := Filter(init, p);
      forall i | 0 <= i < |f|
        ensures key(f[i]) < key(s[|s| - 1])
      {
        assert f[i] in init;
        var a :| 0 <= a < |init| && init[a] == f[i];
      }
    }
  }

  /** Filtering a listing that is decreasing by key keeps it decreasing. */
  lemma {:induction false} FilterDecreasing<T>(s: seq<T>, p: T -> bool, key: T -> nat)
    requires forall i, j :: 0 <= i < j < |s| ==> key(s[i]) > key(s[j])
    ensures forall i, j :: 0 <= i < j < |Filter(s, p)| ==> key(Filter(s, p)[i]) > key(Filter(s, p)[j])
  {
    if s != [] {
      var init := s[..|s| - 1];
      FilterDecreasing(init, p, key);
      var f := Filter(init, p);
      forall i | 0 <= i < |f|
        ensures key(f[i]) > key(s[|s| - 1])
      {
        assert f[i] in init;
        var a :| 0 <= a < |init| && init[a] == f[i];
      }
    }
  }

  /** A listing strictly increasing by key holds each value at most once. */
  lemma {:induction false} IncreasingOnce<T>(s: seq<T>, key: T -> nat)
    requires forall i, j :: 0 <= i < j < |s| ==> key(s[i]) < key(s[j])
    ensures forall x :: multiset(s)[x] <= 1
  {
    if s != [] {
      var init := s[..|s| - 1];
      var last := s[|s| - 1];
      IncreasingOnce(init, key);
      assert s == init + [last];
      forall i | 0 <= i < |init|
        ensures init[i] != last
      {
        assert key(s[i]) < key(s[|s| - 1]);
      }
    }
  }

  /** A sequence that holds each value at most once has no repeated element. */
  lemma OnceDistinct<T>(r: seq<T>)
    requires forall x :: multiset(r)[x] <= 1
    ensures forall i, j :: 0 <= i < j < |r| ==> r[i] != r[j]
  {
    forall i, j | 0 <= i < j < |r|
      ensures r[i] != r[j]
    {
      RepeatCounted(r, i, j);
    }
  }

  /** A value at two positions occurs at least twice. */
  lemma RepeatCounted<T>(r: seq<T>, i: nat, j: nat)
    requires i < j < |r|
    ensures r[i] == r[j] ==> multiset(r)[r[i]] >= 2
  {
    assert r == r[..j] + r[j..];
    assert multiset(r) == multiset(r[..j]) + multiset(r[j..]);
    assert r[..j][i] == r[i];
    assert r[j..][0] == r[j];
  }

  /** COUNT(*) of a WHERE clause. */
  function Count<T>(s: seq<T>, p: T -> bool): (n: nat)
    ensures n <= |s|
  {
    |Filter(s, p)|
  }

  /** Counts of two disjoint conditions add up to at most the whole. */
  lemma {:induction false} CountDisjoint<T>(s: seq<T>, p: T -> bool, q: T -> bool)
    requires forall i :: 0 <= i < |s| ==> !(p(s[i]) && q(s[i]))
    ensures Count(s, p) + Count(s, q) <= |s|
  {
    if s != [] {
      var init := s[..|s| - 1];
      CountDisjoint(init, p, q);
    }
  }
}
