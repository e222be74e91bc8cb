/** Lexicographic order of sequences, and uniqueness of sorted arrangements. */
module Ordering {

  /** A strict total order. */
  ghost predicate StrictOrder<T(!new)>(less: (T, T) -> bool) {
    && (forall x :: !less(x, x))
    && (forall x, y :: less(x, y) || x == y || less(y, x))
    && (forall x, y, z :: less(x, y) && less(y, z) ==> less(x, z))
  }

  predicate LexLess<T(==)>(less: (T, T) -> bool, xs: seq<T>, ys: seq<T>) {
    if ys == [] then false
    else if xs == [] then true
    else less(xs[0], ys[0]) || (xs[0] == ys[0] && LexLess(less, xs[1..], ys[1..]))
  }

  lemma {:induction false} LexIrreflexive<T(!new)>(less: (T, T) -> bool, xs: seq<T>)
    requires StrictOrder(less)
    ensures !LexLess(less, xs, xs)
  {
    if xs == [] {
    } else {
      LexIrreflexive(less, xs[1..]);
    }
  }

  lemma {:induction false} LexConnected<T(!new)>(less: (T, T) -> bool, xs: seq<T>, ys: seq<T>)
    requires StrictOrder(less)
    ensures LexLess(less, xs, ys) || xs == ys || LexLess(less, ys, xs)
  {
    if xs == [] || ys == [] || xs[0] != ys[0] {
    } else {
      LexConnected(less, xs[1..], ys[1..]);
      assert xs == [xs[0]] + xs[1..] && ys == [ys[0]] + ys[1..];
    }
  }

  lemma {:induction false} LexTransitive<T(!new)>(less: (T, T) -> bool, xs: seq<T>, ys: seq<T>, zs: seq<T>)
    requires StrictOrder(less) && LexLess(less, xs, ys) && LexLess(less, ys, zs)
    ensures LexLess(less, xs, zs)
  {
    if xs == [] || ys == [] || zs == [] || xs[0] != ys[0] || ys[0] != zs[0] {
    } else {
      LexTransitive(less, xs[1..], ys[1..], zs[1..]);
    }
  }

  // ---------------------------------------------------------------- sorting

  /** What a sort key induces on the things sorted by it. */
  ghost predicate StrictWeakOrder<T(!new)>(less: (T, T) -> bool) {
    && (forall x :: !less(x, x))
    && (forall x, y, z :: less(x, y) && less(y, z) ==> less(x, z))
    && (forall x, y, z :: less(x, z) ==> less(x, y) || less(y, z))
  }

  ghost predicate Sorted<T>(less: (T, T) -> bool, xs: seq<T>) {
    forall i, j :: 0 <= i < j < |xs| ==> !less(xs[j], xs[i])
  }

  ghost predicate StrictlySorted<T>(less: (T, T) -> bool, xs: seq<T>) {
    forall i, j :: 0 <= i < j < |xs| ==> less(xs[i], xs[j])
  }

  /** Puts `x` after everything that is not greater, so equal keys keep their order. */
  function Insert<T>(less: (T, T) -> bool, xs: seq<T>, x: T): seq<T> {
    if xs == [] || !less(x, xs[|xs| - 1]) then xs + [x]
    else Insert(less, xs[..|xs| - 1], x) + [xs[|xs| - 1]]
  }

  /** A stable sort. */
  function Sort<T>(less: (T, T) -> bool, xs: seq<T>): seq<T> {
    if xs == [] then [] else Insert(less, Sort(less, xs[..|xs| - 1]), xs[|xs| - 1])
  }

  lemma {:induction false} InsertAdds<T(!new)>(less: (T, T) -> bool, xs: seq<T>, x: T)
    ensures multiset(Insert(less, xs, x)) == multiset(xs) + multiset{x}
  {
    if xs == [] || !less(x, xs[|xs| - 1]) {
    } else {
      InsertAdds(less, xs[..|xs| - 1], x);
      assert xs == xs[..|xs| - 1] + [xs[|xs| - 1]];
    }
  }

  lemma {:induction false} SortPermutes<T(!new)>(less: (T, T) -> bool, xs: seq<T>)
    ensures multiset(Sort(less, xs)) == multiset(xs)
    ensures |Sort(less, xs)| == |xs|
  {
    if xs == [] {
    } else {
      var front := xs[..|xs| - 1];
      SortPermutes(less, front);
      InsertAdds(less, Sort(less, front), xs[|xs| - 1]);
      assert xs == front + [xs[|xs| - 1]];
    }
    assert |multiset(Sort(less, xs))| == |Sort(less, xs)| && |multiset(xs)| == |xs|;
  }

  lemma InMultiset<T>(xs: seq<T>, ys: seq<T>, i: nat)
    requires multiset(xs) == multiset(ys) && i < |xs|
    ensures xs[i] in ys
  {
    assert xs[i] in multiset(ys);
  }

  lemma {:induction false} InsertSorts<T(!new)>(less: (T, T) -> bool, xs: seq<T>, x: T)
    requires StrictWeakOrder(less) && Sorted(less, xs)
    ensures Sorted(less, Insert(less, xs, x))
  {
    if xs == [] || !less(x, xs[|xs| - 1]) {
      forall i | 0 <= i < |xs| ensures !less(x, xs[i]) {
        assert i < |xs| - 1 ==> !less(xs[|xs| - 1], xs[i]);
      }
    } else {
      var front, last := xs[..|xs| - 1], xs[|xs| - 1];
      InsertSorts(less, front, x);
      InsertAdds(less, front, x);
      var low := Insert(less, front, x);
      forall i | 0 <= i < |low| ensures !less(last, low[i]) {
        InMultiset(low, front + [x], i);
        assert low[i] in front || low[i] == x;
      }
    }
  }

  lemma {:induction false} SortSorts<T(!new)>(less: (T, T) -> bool, xs: seq<T>)
    requires StrictWeakOrder(less)
    ensures Sorted(less, Sort(less, xs))
  {
    if xs == [] {
    } else {
      SortSorts(less, xs[..|xs| - 1]);
      InsertSorts(less, Sort(less, xs[..|xs| - 1]), xs[|xs| - 1]);
    }
  }

  /** The first of the sorted elements is beaten by none of them. */
  lemma FirstIsUnbeaten<T(!new)>(less: (T, T) -> bool, xs: seq<T>)
    requires StrictWeakOrder(less) && xs != []
    ensures |Sort(less, xs)| == |xs| && Sort(less, xs)[0] in xs
    ensures forall i :: 0 <= i < |xs| ==> !less(xs[i], Sort(less, xs)[0])
  {
    var sorted := Sort(less, xs);
    SortPermutes(less, xs);
    SortSorts(less, xs);
    InMultiset(sorted, xs, 0);
    forall i | 0 <= i < |xs| ensures !less(xs[i], sorted[0]) {
      InMultiset(xs, sorted, i);
      var j :| 0 <= j < |sorted| && sorted[j] == xs[i];
    }
  }

  lemma {:induction false} InsertStrict<T(!new)>(less: (T, T) -> bool, xs: seq<T>, x: T)
    requires StrictWeakOrder(less) && StrictlySorted(less, xs)
    requires forall i :: 0 <= i < |xs| ==> less(xs[i], x) || less(x, xs[i])
    ensures StrictlySorted(less, Insert(less, xs, x))
  {
    if xs != [] && less(x, xs[|xs| - 1]) {
      var front, last := xs[..|xs| - 1], xs[|xs| - 1];
      InsertStrict(less, front, x);
      InsertAdds(less, front, x);
      var low := Insert(less, front, x);
      forall i | 0 <= i < |low| ensures less(low[i], last) {
        InMultiset(low, front + [x], i);
        assert low[i] in front || low[i] == x;
      }
    } else {
      forall i | 0 <= i < |xs| ensures less(xs[i], x) {
        assert i < |xs| - 1 ==> less(xs[i], xs[|xs| - 1]);
      }
    }
  }

  /** Pairwise comparable elements are sorted strictly. */
  lemma {:induction false} SortStrict<T(!new)>(less: (T, T) -> bool, xs: seq<T>)
    requires StrictWeakOrder(less)
    requires forall i, j :: 0 <= i < j < |xs| ==> less(xs[i], xs[j]) || less(xs[j], xs[i])
    ensures StrictlySorted(less, Sort(less, xs))
  {
    if xs == [] {
    } else {
      var front, last := xs[..|xs| - 1], xs[|xs| - 1];
      SortStrict(less, front);
      SortPermutes(less, front);
      var sorted := Sort(less, front);
      forall i | 0 <= i < |sorted| ensures less(sorted[i], last) || less(last, sorted[i]) {
        InMultiset(sorted, front, i);
        var j :| 0 <= j < |front| && front[j] == sorted[i];
        assert xs[j] == sorted[i];
      }
      InsertStrict(less, sorted, last);
    }
  }

  lemma FirstIsLeast<T(!new)>(less: (T, T) -> bool, xs: seq<T>, y: T)
    requires StrictlySorted(less, xs) && y in xs
    ensures y == xs[0] || less(xs[0], y)
  {
  }

  lemma TailMultiset<T>(xs: seq<T>)
    requires xs != []
    ensures multiset(xs[1..]) == multiset(xs) - multiset{xs[0]}
  {
    assert xs == [xs[0]] + xs[1..];
  }

  /** Two strictly sorted arrangements of the same elements are the same sequence. */
  lemma {:induction false} SortedIsUnique<T(!new)>(less: (T, T) -> bool, xs: seq<T>, ys: seq<T>)
    requires StrictWeakOrder(less)
    requires multiset(xs) == multiset(ys) && StrictlySorted(less, xs) && StrictlySorted(less, ys)
    ensures xs == ys
  {
    if xs == [] || ys == [] {
      assert |multiset(ys)| == |ys| && |multiset(xs)| == |xs|;
    } else {
      var x, y := xs[0], ys[0];
      InMultiset(xs, ys, 0);
      InMultiset(ys, xs, 0);
      FirstIsLeast(less, xs, y);
      FirstIsLeast(less, ys, x);
      assert x == y;
      var s, t := xs[1..], ys[1..];
      assert xs == [x] + s && ys == [y] + t;
      assert multiset(s) == multiset(t) by {
        TailMultiset(xs);
        TailMultiset(ys);
      }
      SortedIsUnique(less, s, t);
    }
  }

  // ---------------------------------------------------------------- filters and elementwise images

  function Filter<T>(p: T -> bool, xs: seq<T>): seq<T> {
    if xs == [] then []
    else Filter(p, xs[..|xs| - 1]) + if p(xs[|xs| - 1]) then [xs[|xs| - 1]] else []
  }

  /** Filtering keeps or drops each element for itself, in its place. */
  lemma {:induction false} FilterAppends<T>(p: T -> bool, xs: seq<T>, ys: seq<T>)
    ensures Filter(p, xs + ys) == Filter(p, xs) + Filter(p, ys)
  {
    if ys == [] {
      assert xs + ys == xs && Filter(p, xs) + [] == Filter(p, xs);
    } else {
      FilterAppends(p, xs, ys[..|ys| - 1]);
      assert (xs + ys)[..|xs + ys| - 1] == xs + ys[..|ys| - 1];
    }
  }

  lemma FilterOne<T>(p: T -> bool, x: T)
    ensures Filter(p, [x]) == if p(x) then [x] else []
  {
    assert [x][..0] == [];
  }

  lemma {:induction false} FilterMembers<T>(p: T -> bool, xs: seq<T>)
    ensures forall x :: x in Filter(p, xs) <==> x in xs && p(x)
  {
    if xs == [] {
    } else {
      FilterMembers(p, xs[..|xs| - 1]);
      assert xs == xs[..|xs| - 1] + [xs[|xs| - 1]];
    }
  }

  function Map<T, U>(f: T -> U, xs: seq<T>): seq<U> {
    seq(|xs|, i requires 0 <= i < |xs| => f(xs[i]))
  }

  lemma MapWithout<T, U>(f: T -> U, xs: seq<T>, j: nat)
    requires j < |xs|
    ensures var rest := xs[..j] + xs[j + 1..];
            && multiset(xs) == multiset(rest) + multiset{xs[j]}
            && multiset(Map(f, xs)) == multiset(Map(f, rest)) + multiset{f(xs[j])}
  {
    var rest := xs[..j] + xs[j + 1..];
    assert xs == xs[..j] + [xs[j]] + xs[j + 1..];
    assert Map(f, xs) == Map(f, xs[..j]) + [f(xs[j])] + Map(f, xs[j + 1..]);
    assert Map(f, rest) == Map(f, xs[..j]) + Map(f, xs[j + 1..]);
  }

  lemma SameWithout<T>(xs: seq<T>, ys: seq<T>, s: seq<T>, t: seq<T>, x: T)
    requires multiset(xs) == multiset(ys)
    requires multiset(xs) == multiset(s) + multiset{x} && multiset(ys) == multiset(t) + multiset{x}
    ensures multiset(s) == multiset(t)
  {
    assert multiset(s) == multiset(xs) - multiset{x};
    assert multiset(t) == multiset(ys) - multiset{x};
  }

  /** Images of rearrangements are rearrangements of the images. */
  lemma {:induction false} MapPermutes<T, U>(f: T -> U, xs: seq<T>, ys: seq<T>)
    requires multiset(xs) == multiset(ys)
    ensures multiset(Map(f, xs)) == multiset(Map(f, ys))
  {
    if xs == [] {
      assert |multiset(ys)| == |ys| && |multiset(xs)| == 0;
    } else {
      InMultiset(xs, ys, 0);
      var j :| 0 <= j < |ys| && ys[j] == xs[0];
      var s, t := xs[..0] + xs[0 + 1..], ys[..j] + ys[j + 1..];
      MapWithout(f, xs, 0);
      MapWithout(f, ys, j);
      SameWithout(xs, ys, s, t, xs[0]);
      MapPermutes(f, s, t);
    }
  }
}
