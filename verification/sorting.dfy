/** Stable sorting by a total preorder, and the two facts every caller needs:
    the result is the sorted rearrangement, and ties aside it is the only one. */
module Sorting {

  ghost predicate TotalPreorder<T(!new)>(leq: (T, T) -> bool) {
    && (forall x, y :: leq(x, y) || leq(y, x))
    && (forall x, y, z :: leq(x, y) && leq(y, z) ==> leq(x, z))
  }

  ghost predicate Sorted<T>(xs: seq<T>, leq: (T, T) -> bool) {
    forall i, j | 0 <= i < j < |xs| :: leq(xs[i], xs[j])
  }

  /** No two distinct members compare equal. */
  ghost predicate NoTies<T>(xs: multiset<T>, leq: (T, T) -> bool) {
    forall x, y | x in xs && y in xs && leq(x, y) && leq(y, x) :: x == y
  }

  function Insert<T>(x: T, xs: seq<T>, leq: (T, T) -> bool): seq<T> {
    if xs == [] then [x]
    else if leq(x, xs[0]) then [x] + xs
    else [xs[0]] + Insert(x, xs[1..], leq)
  }

  /** Equal elements keep their order, as sort.SliceStable promises. */
  function StableSort<T>(xs: seq<T>, leq: (T, T) -> bool): seq<T> {
    if xs == [] then [] else Insert(xs[0], StableSort(xs[1..], leq), leq)
  }

  lemma {:induction false} InsertPermutes<T>(x: T, xs: seq<T>, leq: (T, T) -> bool)
    ensures multiset(Insert(x, xs, leq)) == multiset{x} + multiset(xs)
  {
    if xs != [] && !leq(x, xs[0]) {
      InsertPermutes(x, xs[1..], leq);
      assert xs == [xs[0]] + xs[1..];
    }
  }

  lemma {:induction false} InsertSorts<T(!new)>(x: T, xs: seq<T>, leq: (T, T) -> bool)
    requires TotalPreorder(leq) && Sorted(xs, leq)
    ensures Sorted(Insert(x, xs, leq), leq)
  {
    if xs != [] && !leq(x, xs[0]) {
      InsertSorts(x, xs[1..], leq);
      InsertPermutes(x, xs[1..], leq);
      var rest := Insert(x, xs[1..], leq);
      forall j | 0 <= j < |rest| ensures leq(xs[0], rest[j]) {
        assert rest[j] in multiset(rest);
        if rest[j] != x {
          assert rest[j] in xs[1..];
        }
      }
    }
  }

  lemma {:induction false} StableSortSorts<T(!new)>(xs: seq<T>, leq: (T, T) -> bool)
    requires TotalPreorder(leq)
    ensures multiset(StableSort(xs, leq)) == multiset(xs)
    ensures |StableSort(xs, leq)| == |xs|
    ensures Sorted(StableSort(xs, leq), leq)
  {
    if xs != [] {
      StableSortSorts(xs[1..], leq);
      InsertPermutes(xs[0], StableSort(xs[1..], leq), leq);
      InsertSorts(xs[0], StableSort(xs[1..], leq), leq);
      assert xs == [xs[0]] + xs[1..];
    }
    assert |multiset(StableSort(xs, leq))| == |StableSort(xs, leq)|;
  }

  lemma WithoutFirst<T>(xs: seq<T>)
    requires xs != []
    ensures multiset(xs) == multiset{xs[0]} + multiset(xs[1..])
  {
    assert xs == [xs[0]] + xs[1..];
  }

  lemma SameSize<T>(xs: seq<T>, ys: seq<T>)
    requires multiset(xs) == multiset(ys)
    ensures |xs| == |ys|
  {
    assert |multiset(xs)| == |xs| && |multiset(ys)| == |ys|;
  }

  /** The first of either is least of both. */
  lemma SameFirst<T>(xs: seq<T>, ys: seq<T>, leq: (T, T) -> bool)
    requires xs != [] && ys != [] && Sorted(xs, leq) && Sorted(ys, leq)
    requires multiset(xs) == multiset(ys) && NoTies(multiset(xs), leq)
    ensures xs[0] == ys[0]
  {
    assert xs[0] in multiset(ys) && ys[0] in multiset(xs);
    var i :| 0 <= i < |ys| && ys[i] == xs[0];
    var j :| 0 <= j < |xs| && xs[j] == ys[0];
  }

  /** Two sorted rearrangements of the same elements are the same sequence. */
  lemma {:induction false} SortedIsUnique<T>(xs: seq<T>, ys: seq<T>, leq: (T, T) -> bool)
    requires Sorted(xs, leq) && Sorted(ys, leq)
    requires multiset(xs) == multiset(ys) && NoTies(multiset(xs), leq)
    ensures xs == ys
  {
    SameSize(xs, ys);
    if xs != [] {
      SameFirst(xs, ys, leq);
      WithoutFirst(xs);
      WithoutFirst(ys);
      assert multiset(xs[1..]) == multiset(xs) - multiset{xs[0]} == multiset(ys[1..]);
      SortedIsUnique(xs[1..], ys[1..], leq);
    }
  }

  /** So the order the elements arrive in does not matter. */
  lemma SortIgnoresInputOrder<T(!new)>(xs: seq<T>, ys: seq<T>, leq: (T, T) -> bool)
    requires TotalPreorder(leq) && multiset(xs) == multiset(ys) && NoTies(multiset(xs), leq)
    ensures StableSort(xs, leq) == StableSort(ys, leq)
  {
    StableSortSorts(xs, leq);
    StableSortSorts(ys, leq);
    SortedIsUnique(StableSort(xs, leq), StableSort(ys, leq), leq);
  }

  // ---- sorting and leaving out ---------------------------------------------------

  function Keep<T>(xs: seq<T>, p: T -> bool): seq<T> {
    if xs == [] then []
    else if p(xs[0]) then [xs[0]] + Keep(xs[1..], p)
    else Keep(xs[1..], p)
  }

  lemma {:induction false} KeepAppends<T>(xs: seq<T>, x: T, p: T -> bool)
    ensures Keep(xs + [x], p) == if p(x) then Keep(xs, p) + [x] else Keep(xs, p)
  {
    if xs != [] {
      KeepAppends(xs[1..], x, p);
      assert (xs + [x])[1..] == xs[1..] + [x];
    }
  }

  lemma {:induction false} KeptAreListed<T>(xs: seq<T>, p: T -> bool)
    ensures forall x | x in Keep(xs, p) :: x in xs
  {
    if xs != [] {
      KeptAreListed(xs[1..], p);
    }
  }

  lemma {:induction false} KeepInserts<T(!new)>(x: T, xs: seq<T>, leq: (T, T) -> bool, p: T -> bool)
    requires TotalPreorder(leq) && Sorted(xs, leq)
    ensures Keep(Insert(x, xs, leq), p) == if p(x) then Insert(x, Keep(xs, p), leq) else Keep(xs, p)
  {
    if xs != [] {
      if leq(x, xs[0]) {
        KeptAreListed(xs, p);
        var kept := Keep(xs, p);
        assert ([x] + xs)[1..] == xs;
        if kept != [] {
          assert kept[0] in xs;
          var k :| 0 <= k < |xs| && xs[k] == kept[0];
          assert leq(x, xs[k]);
        }
      } else {
        KeepInserts(x, xs[1..], leq, p);
        var rest := Insert(x, xs[1..], leq);
        assert ([xs[0]] + rest)[1..] == rest;
      }
    }
  }

  /** Sorting what is kept is keeping from what is sorted. */
  lemma {:induction false} SortKeeps<T(!new)>(xs: seq<T>, leq: (T, T) -> bool, p: T -> bool)
    requires TotalPreorder(leq)
    ensures StableSort(Keep(xs, p), leq) == Keep(StableSort(xs, leq), p)
  {
    if xs != [] {
      SortKeeps(xs[1..], leq, p);
      StableSortSorts(xs[1..], leq);
      KeepInserts(xs[0], StableSort(xs[1..], leq), leq, p);
      assert ([xs[0]] + Keep(xs[1..], p))[1..] == Keep(xs[1..], p);
    }
  }

  // ---- the byte order of strings -----------------------------------------------

  /** Go's `<=` on strings. */
  predicate StringLeq(a: string, b: string) {
    a == [] || (b != [] && (a[0] < b[0] || (a[0] == b[0] && StringLeq(a[1..], b[1..]))))
  }

  lemma {:induction false} StringLeqTotal(a: string, b: string)
    ensures StringLeq(a, b) || StringLeq(b, a)
    ensures StringLeq(a, b) && StringLeq(b, a) ==> a == b
  {
    if a != [] && b != [] && a[0] == b[0] {
      StringLeqTotal(a[1..], b[1..]);
      assert a == [a[0]] + a[1..] && b == [b[0]] + b[1..];
    }
  }

  lemma {:induction false} StringLeqTransitive(a: string, b: string, c: string)
    requires StringLeq(a, b) && StringLeq(b, c)
    ensures StringLeq(a, c)
  {
    if a != [] && a[0] == b[0] == c[0] {
      StringLeqTransitive(a[1..], b[1..], c[1..]);
    }
  }
}
