/** Stable sorting, as JavaScript's `Array.prototype.sort` does it (ECMAScript
    2019 made stability a requirement), and the facts about it that the pod
    lists, the peer lists and the API tables rely on. */
module Sorting {

  ghost predicate TotalPreorder<T(!new)>(leq: (T, T) -> bool) {
    && (forall x, y :: leq(x, y) || leq(y, x))
    && (forall x, y, z :: leq(x, y) && leq(y, z) ==> leq(x, z))
  }

  ghost predicate Antisymmetric<T(!new)>(leq: (T, T) -> bool) {
    forall x, y :: leq(x, y) && leq(y, x) ==> x == y
  }

  ghost predicate Sorted<T>(leq: (T, T) -> bool, s: seq<T>) {
    forall i, j :: 0 <= i < j < |s| ==> leq(s[i], s[j])
  }

  function Filter<T>(keep: T -> bool, s: seq<T>): (r: seq<T>)
    ensures |r| <= |s|
  {
    if s == [] then []
    else
      var front := Filter(keep, s[..|s| - 1]);
      if keep(s[|s| - 1]) then front + [s[|s| - 1]] else front
  }

  /** Puts `x` behind every element that may stand before it. */
  function Insert<T>(leq: (T, T) -> bool, s: seq<T>, x: T): seq<T> {
    if s == [] || leq(s[|s| - 1], x) then s + [x]
    else Insert(leq, s[..|s| - 1], x) + [s[|s| - 1]]
  }

  function Sort<T>(leq: (T, T) -> bool, s: seq<T>): seq<T> {
    if s == [] then [] else Insert(leq, Sort(leq, s[..|s| - 1]), s[|s| - 1])
  }

  lemma {:induction false} InsertPermutes<T>(leq: (T, T) -> bool, s: seq<T>, x: T)
    ensures multiset(Insert(leq, s, x)) == multiset(s) + multiset{x}
  {
    if s == [] || leq(s[|s| - 1], x) {
    } else {
      InsertPermutes(leq, s[..|s| - 1], x);
      assert s == s[..|s| - 1] + [s[|s| - 1]];
    }
  }

  lemma {:induction false} SortPermutes<T>(leq: (T, T) -> bool, s: seq<T>)
    ensures multiset(Sort(leq, s)) == multiset(s)
  {
    if s != [] {
      SortPermutes(leq, s[..|s| - 1]);
      InsertPermutes(leq, Sort(leq, s[..|s| - 1]), s[|s| - 1]);
      assert s == s[..|s| - 1] + [s[|s| - 1]];
    }
  }

  /** Sorting neither loses, invents nor repeats an element. */
  lemma SortSameElements<T>(leq: (T, T) -> bool, s: seq<T>)
    ensures |Sort(leq, s)| == |s|
    ensures forall x :: x in Sort(leq, s) <==> x in s
  {
    SortPermutes(leq, s);
    assert |multiset(Sort(leq, s))| == |Sort(leq, s)|;
    assert |multiset(s)| == |s|;
    forall x ensures x in Sort(leq, s) <==> x in s {
      assert x in Sort(leq, s) <==> x in multiset(Sort(leq, s));
      assert x in s <==> x in multiset(s);
    }
  }

  lemma {:induction false} InsertSorted<T(!new)>(leq: (T, T) -> bool, s: seq<T>, x: T)
    requires TotalPreorder(leq) && Sorted(leq, s)
    ensures Sorted(leq, Insert(leq, s, x))
  {
    if s == [] {
    } else {
      var front, last := s[..|s| - 1], s[|s| - 1];
      if leq(last, x) {
        forall i | 0 <= i < |s| ensures leq(s[i], x) {
          assert leq(s[i], last) || i == |s| - 1;
        }
      } else {
        InsertSorted(leq, front, x);
        InsertPermutes(leq, front, x);
        var r := Insert(leq, front, x);
        forall i | 0 <= i < |r| ensures leq(r[i], last) {
          assert r[i] in multiset(r);
          if r[i] != x {
            assert r[i] in multiset(front);
          }
        }
      }
    }
  }

  lemma {:induction false} SortSorts<T(!new)>(leq: (T, T) -> bool, s: seq<T>)
    requires TotalPreorder(leq)
    ensures Sorted(leq, Sort(leq, s))
  {
    if s != [] {
      SortSorts(leq, s[..|s| - 1]);
      InsertSorted(leq, Sort(leq, s[..|s| - 1]), s[|s| - 1]);
    }
  }

  lemma {:induction false} FilterAppend<T>(keep: T -> bool, s: seq<T>, x: T)
    ensures Filter(keep, s + [x]) == if keep(x) then Filter(keep, s) + [x] else Filter(keep, s)
  {
    assert (s + [x])[..|s|] == s;
  }

  lemma {:induction false} FilterIn<T>(keep: T -> bool, s: seq<T>)
    ensures forall x :: x in Filter(keep, s) <==> x in s && keep(x)
  {
    if s != [] {
      FilterIn(keep, s[..|s| - 1]);
      assert s == s[..|s| - 1] + [s[|s| - 1]];
    }
  }

  lemma {:induction false} FilterSorted<T(!new)>(leq: (T, T) -> bool, keep: T -> bool, s: seq<T>)
    requires Sorted(leq, s)
    ensures Sorted(leq, Filter(keep, s))
  {
    if s != [] {
      var front, last := s[..|s| - 1], s[|s| - 1];
      FilterSorted(leq, keep, front);
      FilterIn(keep, front);
      forall i | 0 <= i < |Filter(keep, front)| ensures leq(Filter(keep, front)[i], last) {
        var p := Filter(keep, front)[i];
        assert p in front;
        var j :| 0 <= j < |front| && front[j] == p;
        assert leq(s[j], s[|s| - 1]);
      }
    }
  }

  lemma {:induction false} FilterConcat<T>(keep: T -> bool, s: seq<T>, t: seq<T>)
    ensures Filter(keep, s + t) == Filter(keep, s) + Filter(keep, t)
  {
    if t == [] {
      assert s + t == s;
    } else {
      var front, last := t[..|t| - 1], t[|t| - 1];
      FilterConcat(keep, s, front);
      assert (s + t)[..|s + t| - 1] == s + front && (s + t)[|s + t| - 1] == last;
    }
  }

  /** An element that goes last still does after the filter. */
  lemma InsertLastFilter<T(!new)>(leq: (T, T) -> bool, keep: T -> bool, s: seq<T>, x: T)
    requires forall y :: y in s ==> leq(y, x)
    ensures Filter(keep, Insert(leq, s, x)) ==
            if keep(x) then Insert(leq, Filter(keep, s), x) else Filter(keep, s)
  {
    FilterAppend(keep, s, x);
    FilterIn(keep, s);
    var f := Filter(keep, s);
    assert f != [] ==> f[|f| - 1] in f;
  }

  lemma LastIsGreatest<T(!new)>(leq: (T, T) -> bool, s: seq<T>, x: T)
    requires TotalPreorder(leq) && Sorted(leq, s) && s != [] && leq(s[|s| - 1], x)
    ensures forall y :: y in s ==> leq(y, x)
  {
    forall y | y in s ensures leq(y, x) {
      var i :| 0 <= i < |s| && s[i] == y;
      assert i < |s| - 1 ==> leq(s[i], s[|s| - 1]);
    }
  }

  lemma {:induction false} InsertFilter<T(!new)>(leq: (T, T) -> bool, keep: T -> bool, s: seq<T>, x: T)
    requires TotalPreorder(leq) && Sorted(leq, s)
    ensures Filter(keep, Insert(leq, s, x)) ==
            if keep(x) then Insert(leq, Filter(keep, s), x) else Filter(keep, s)
  {
    if s == [] || leq(s[|s| - 1], x) {
      if s != [] { LastIsGreatest(leq, s, x); }
      InsertLastFilter(leq, keep, s, x);
    } else {
      var front, last := s[..|s| - 1], s[|s| - 1];
      InsertFilter(leq, keep, front, x);
      FilterAppend(keep, Insert(leq, front, x), last);
      if keep(last) {
        var f := Filter(keep, s);
        assert f == Filter(keep, front) + [last];
        assert f[..|f| - 1] == Filter(keep, front);
      }
    }
  }

  /** Stability, in the form the reconcilers need: taking pods out of a list and
      sorting it give the same list in either order. */
  lemma {:induction false} SortFilter<T(!new)>(leq: (T, T) -> bool, keep: T -> bool, s: seq<T>)
    requires TotalPreorder(leq)
    ensures Sort(leq, Filter(keep, s)) == Filter(keep, Sort(leq, s))
  {
    if s != [] {
      var front, last := s[..|s| - 1], s[|s| - 1];
      SortFilter(leq, keep, front);
      SortSorts(leq, front);
      InsertFilter(leq, keep, Sort(leq, front), last);
      if keep(last) {
        var f := Filter(keep, s);
        assert f[..|f| - 1] == Filter(keep, front);
      }
    }
  }

  /** The in-place sort the handlers call on the arrays the API returns. */
  method SortInPlace<T>(leq: (T, T) -> bool, a: array<T>)
    modifies a
    ensures a[..] == Sort(leq, old(a[..]))
  {
    ghost var was := a[..];
    var i := 0;
    while i < a.Length
      invariant 0 <= i <= a.Length == |was|
      invariant a[..i] == Sort(leq, was[..i])
      invariant forall k :: i <= k < a.Length ==> a[k] == was[k]
    {
      assert was[..i + 1][..i] == was[..i];
      SinkInPlace(leq, a, i);
      i := i + 1;
    }
    assert a[..] == a[..i] && was == was[..i];
  }

  /** One pass of the sort: moves `a[i]` down into the sorted part before it. */
  method SinkInPlace<T>(leq: (T, T) -> bool, a: array<T>, i: nat)
    requires i < a.Length
    modifies a
    ensures a[..i + 1] == Insert(leq, old(a[..i]), old(a[i]))
    ensures forall k :: i < k < a.Length ==> a[k] == old(a[k])
  {
    ghost var sorted := a[..i];
    var x, j := a[i], i;
    assert sorted[..i] == sorted && sorted[i..] == [];
    while j > 0 && !leq(a[j - 1], x)
      invariant 0 <= j <= i
      invariant forall k :: 0 <= k < j ==> a[k] == sorted[k]
      invariant forall k :: j < k <= i ==> a[k] == sorted[k - 1]
      invariant forall k :: i < k < a.Length ==> a[k] == old(a[k])
      invariant Insert(leq, sorted, x) == Insert(leq, sorted[..j], x) + sorted[j..]
    {
      InsertStep(leq, sorted, j, x);
      a[j] := a[j - 1];
      j := j - 1;
    }
    a[j] := x;
    Sunk(leq, a[..i + 1], sorted, j, x);
  }

  lemma Sunk<T>(leq: (T, T) -> bool, after: seq<T>, sorted: seq<T>, j: nat, x: T)
    requires j <= |sorted| && (j == 0 || leq(sorted[j - 1], x))
    requires |after| == |sorted| + 1 && after[j] == x
    requires forall k :: 0 <= k < j ==> after[k] == sorted[k]
    requires forall k :: j < k < |after| ==> after[k] == sorted[k - 1]
    ensures after == Insert(leq, sorted[..j], x) + sorted[j..]
  {
    assert Insert(leq, sorted[..j], x) == sorted[..j] + [x];
    assert after == sorted[..j] + [x] + sorted[j..];
  }

  lemma InsertStep<T>(leq: (T, T) -> bool, sorted: seq<T>, j: nat, x: T)
    requires 0 < j <= |sorted| && !leq(sorted[j - 1], x)
    ensures Insert(leq, sorted[..j], x) + sorted[j..] ==
            Insert(leq, sorted[..j - 1], x) + sorted[j - 1..]
  {
    assert sorted[..j][..j - 1] == sorted[..j - 1];
    assert sorted[j - 1..] == [sorted[j - 1]] + sorted[j..];
  }
}
