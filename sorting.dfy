/** A stable insertion sort by a total preorder, the model of Python's
    `sorted(xs, key=...)` and `list.sort(key=...)`. */
module Sorting {
  import opened Common

  /** `le` is a total preorder: every two elements compare, transitively. */
  ghost predicate TotalPreorder<T(!new)>(le: (T, T) -> bool) {
    && (forall a, b :: le(a, b) || le(b, a))
    && (forall a, b, c :: le(a, b) && le(b, c) ==> le(a, c))
  }

  predicate SortedBy<T>(s: seq<T>, le: (T, T) -> bool) {
    forall i, j :: 0 <= i < j < |s| ==> le(s[i], s[j])
  }

  /** Inserts `x` after every element that is at most `x`. */
  function InsertBy<T>(x: T, s: seq<T>, le: (T, T) -> bool): (r: seq<T>)
    ensures multiset(r) == multiset(s) + multiset{x}
  {
    if s == [] then [x]
    else if le(s[0], x) then
      assert s == [s[0]] + s[1..];
      [s[0]] + InsertBy(x, s[1..], le)
    else [x] + s
  }

  /** Sorts by inserting the elements one after the other, left to right. */
  function SortBy<T>(xs: seq<T>, le: (T, T) -> bool): (r: seq<T>)
    ensures multiset(r) == multiset(xs)
  {
    if xs == [] then []
    else
      assert xs == xs[..|xs| - 1] + [xs[|xs| - 1]];
      InsertBy(xs[|xs| - 1], SortBy(xs[..|xs| - 1], le), le)
  }

  /** Every element of `InsertBy(x, s)` is `x` or comes from `s`. */
  lemma InsertByMembers<T>(x: T, s: seq<T>, le: (T, T) -> bool)
    ensures forall y :: y in InsertBy(x, s, le) ==> y == x || y in s
  {
    var r := InsertBy(x, s, le);
    forall y | y in r
      ensures y == x || y in s
    {
      assert y in multiset(r);
    }
  }

  lemma {:induction false} InsertBySorted<T(!new)>(x: T, s: seq<T>, le: (T, T) -> bool)
    requires TotalPreorder(le)
    requires SortedBy(s, le)
    ensures SortedBy(InsertBy(x, s, le), le)
    decreases |s|, 1
  {
    if s != [] && le(s[0], x) {
      InsertAfterHead(x, s, le);
    } else if s != [] {
      InsertBeforeHead(x, s, le);
    }
  }

  lemma {:induction false} InsertAfterHead<T(!new)>(x: T, s: seq<T>, le: (T, T) -> bool)
    requires TotalPreorder(le)
    requires SortedBy(s, le)
    requires s != [] && le(s[0], x)
    ensures SortedBy(InsertBy(x, s, le), le)
    decreases |s|, 0
  {
    var t := InsertBy(x, s[1..], le);
    InsertBySorted(x, s[1..], le);
    InsertByMembers(x, s[1..], le);
    var r := InsertBy(x, s, le);
    assert r == [s[0]] + t;
    forall j | 0 <= j < |t|
      ensures le(s[0], t[j])
    {
      assert t[j] in t;
      if t[j] != x {
        var k :| 0 <= k < |s[1..]| && s[1..][k] == t[j];
        assert t[j] == s[k + 1];
      }
    }
    forall i, j | 0 <= i < j < |r|
      ensures le(r[i], r[j])
    {
      if i > 0 {
        assert r[i] == t[i - 1] && r[j] == t[j - 1];
      } else {
        assert r[j] == t[j - 1];
      }
    }
  }

  lemma InsertBeforeHead<T(!new)>(x: T, s: seq<T>, le: (T, T) -> bool)
    requires TotalPreorder(le)
    requires SortedBy(s, le)
    requires s != [] && !le(s[0], x)
    ensures SortedBy(InsertBy(x, s, le), le)
  {
    assert le(x, s[0]);
    forall k | 0 <= k < |s|
      ensures le(x, s[k])
    {
      if k > 0 {
        assert le(s[0], s[k]);
      }
    }
    ConsSorted(x, s, le);
  }

  /** An element at most every element of a sorted list can go in front. */
  lemma ConsSorted<T>(x: T, s: seq<T>, le: (T, T) -> bool)
    requires SortedBy(s, le)
    requires forall k :: 0 <= k < |s| ==> le(x, s[k])
    ensures SortedBy([x] + s, le)
  {
    var r := [x] + s;
    forall i, j | 0 <= i < j < |r|
      ensures le(r[i], r[j])
    {
      if i == 0 {
        assert r[j] == s[j - 1];
      } else {
        assert r[i] == s[i - 1] && r[j] == s[j - 1];
      }
    }
  }

  /** The sort orders its output and only permutes its input. */
  lemma {:induction false} SortBySorted<T(!new)>(xs: seq<T>, le: (T, T) -> bool)
    requires TotalPreorder(le)
    ensures SortedBy(SortBy(xs, le), le)
    ensures multiset(SortBy(xs, le)) == multiset(xs)
  {
    if xs != [] {
      SortBySorted(xs[..|xs| - 1], le);
      InsertBySorted(xs[|xs| - 1], SortBy(xs[..|xs| - 1], le), le);
    }
  }

  /** The sorted list holds exactly the elements of the input. */
  lemma SortByMembers<T(!new)>(xs: seq<T>, le: (T, T) -> bool)
    ensures forall y :: y in SortBy(xs, le) <==> y in xs
  {
    forall y
      ensures y in SortBy(xs, le) <==> y in xs
    {
      assert y in SortBy(xs, le) <==> y in multiset(SortBy(xs, le));
      assert y in xs <==> y in multiset(xs);
    }
  }

  /** The elements that compare equal to `k` in both directions. */
  function SameRank<T>(le: (T, T) -> bool, k: T): T -> bool {
    y => le(y, k) && le(k, y)
  }

  /** Inserting `x` places it after every element of its rank already in
      the sorted list. */
  lemma {:induction false} InsertByStable<T(!new)>(x: T, s: seq<T>, le: (T, T) -> bool, k: T)
    requires TotalPreorder(le)
    requires SortedBy(s, le)
    ensures Filter(InsertBy(x, s, le), SameRank(le, k)) == Filter(s, SameRank(le, k)) + Filter([x], SameRank(le, k))
    decreases |s|
  {
    var p := SameRank(le, k);
    if s == [] {
      assert [x] == [] + [x];
      FilterAppend([], [x], p);
    } else if le(s[0], x) {
      assert SortedBy(s[1..], le);
      InsertByStable(x, s[1..], le, k);
      InsertAfterStable(x, s, le, k);
    } else {
      InsertBeforeStable(x, s, le, k);
    }
  }

  lemma InsertAfterStable<T(!new)>(x: T, s: seq<T>, le: (T, T) -> bool, k: T)
    requires s != [] && le(s[0], x)
    requires Filter(InsertBy(x, s[1..], le), SameRank(le, k)) == Filter(s[1..], SameRank(le, k)) + Filter([x], SameRank(le, k))
    ensures Filter(InsertBy(x, s, le), SameRank(le, k)) == Filter(s, SameRank(le, k)) + Filter([x], SameRank(le, k))
  {
    var p := SameRank(le, k);
    var rest := InsertBy(x, s[1..], le);
    assert InsertBy(x, s, le) == [s[0]] + rest;
    FilterAppend([s[0]], rest, p);
    FilterAppend([s[0]], s[1..], p);
    assert [s[0]] + s[1..] == s;
  }

  lemma InsertBeforeStable<T(!new)>(x: T, s: seq<T>, le: (T, T) -> bool, k: T)
    requires TotalPreorder(le)
    requires SortedBy(s, le)
    requires s != [] && !le(s[0], x)
    ensures Filter(InsertBy(x, s, le), SameRank(le, k)) == Filter(s, SameRank(le, k)) + Filter([x], SameRank(le, k))
  {
    var p := SameRank(le, k);
    assert InsertBy(x, s, le) == [x] + s;
    FilterAppend([x], s, p);
    if p(x) {
      forall i | 0 <= i < |s|
        ensures !p(s[i])
      {
        if i > 0 {
          assert le(s[0], s[i]);
          NotBelow(le, s[0], s[i], x);
        }
        NotSameRank(le, k, s[i], x);
      }
      FilterNone(s, p);
    } else {
      assert Filter([x], p) == [];
    }
  }

  /** What is above something that is not below `x` is not below `x`. */
  lemma NotBelow<T(!new)>(le: (T, T) -> bool, a: T, b: T, x: T)
    requires TotalPreorder(le)
    requires le(a, b) && !le(a, x)
    ensures !le(b, x)
  {
  }

  /** Two elements of the same rank are below each other. */
  lemma NotSameRank<T(!new)>(le: (T, T) -> bool, k: T, y: T, x: T)
    requires TotalPreorder(le)
    requires !le(y, x) && SameRank(le, k)(x)
    ensures !SameRank(le, k)(y)
  {
  }

  /** The sort is stable: elements of the same rank come out in the order
      they went in. */
  lemma {:induction false} SortByStable<T(!new)>(xs: seq<T>, le: (T, T) -> bool, k: T)
    requires TotalPreorder(le)
    ensures Filter(SortBy(xs, le), SameRank(le, k)) == Filter(xs, SameRank(le, k))
  {
    if xs != [] {
      var init, x := xs[..|xs| - 1], xs[|xs| - 1];
      SortByStable(init, le, k);
      SortBySorted(init, le);
      InsertByStable(x, SortBy(init, le), le, k);
      SortByStableStep(xs, le, k);
    }
  }

  lemma SortByStableStep<T>(xs: seq<T>, le: (T, T) -> bool, k: T)
    requires xs != []
    requires var init := xs[..|xs| - 1];
      Filter(SortBy(init, le), SameRank(le, k)) == Filter(init, SameRank(le, k))
    requires var init, x := xs[..|xs| - 1], xs[|xs| - 1];
      Filter(InsertBy(x, SortBy(init, le), le), SameRank(le, k))
        == Filter(SortBy(init, le), SameRank(le, k)) + Filter([x], SameRank(le, k))
    ensures Filter(SortBy(xs, le), SameRank(le, k)) == Filter(xs, SameRank(le, k))
  {
    var init, x := xs[..|xs| - 1], xs[|xs| - 1];
    FilterAppend(init, [x], SameRank(le, k));
    assert init + [x] == xs;
  }

  /** Dropping elements from a sorted list leaves it sorted. */
  lemma {:induction false} FilterSortedBy<T>(s: seq<T>, p: T -> bool, le: (T, T) -> bool)
    requires SortedBy(s, le)
    ensures SortedBy(Filter(s, p), le)
  {
    if s != [] {
      var init := s[..|s| - 1];
      assert SortedBy(init, le);
      FilterSortedBy(init, p, le);
      FilterMembers(init, p);
      var r := Filter(s, p);
      if p(s[|s| - 1]) {
        var f := Filter(init, p);
        assert r == f + [s[|s| - 1]];
        forall i, j | 0 <= i < j < |r|
          ensures le(r[i], r[j])
        {
          if j == |r| - 1 {
            var y := f[i];
            assert y in f;
            MemberOfFilter(init, p, y);
            var k :| 0 <= k < |init| && init[k] == y;
            assert s[k] == r[i] && s[|s| - 1] == r[j];
          } else {
            assert r[i] == f[i] && r[j] == f[j];
          }
        }
      }
    }
  }
}
