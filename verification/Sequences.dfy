/** Facts about finite sequences shared by the other modules. */
module Sequences {

  datatype Option<+T> = None | Some(value: T)

  /** The elements of `xs` satisfying `p`, in order. */
  function Filter<T(!new)>(xs: seq<T>, p: T -> bool): (r: seq<T>)
    ensures forall x :: x in r <==> x in xs && p(x)
    ensures |r| <= |xs|
  {
    if xs == [] then []
    else if p(xs[0]) then [xs[0]] + Filter(xs[1..], p)
    else Filter(xs[1..], p)
  }

  lemma {:induction false} FilterAppend<T(!new)>(xs: seq<T>, ys: seq<T>, p: T -> bool)
    ensures Filter(xs + ys, p) == Filter(xs, p) + Filter(ys, p)
  {
    if xs == [] {
      assert xs + ys == ys;
    } else {
      assert (xs + ys)[1..] == xs[1..] + ys;
      FilterAppend(xs[1..], ys, p);
    }
  }

  lemma {:induction false} FilterSame<T(!new)>(xs: seq<T>, p: T -> bool, q: T -> bool)
    requires forall x :: x in xs ==> p(x) == q(x)
    ensures Filter(xs, p) == Filter(xs, q)
  {
    if xs != [] {
      FilterSame(xs[1..], p, q);
    }
  }

  /** The image of `xs` under `f`, in order. */
  function Map<A, B>(xs: seq<A>, f: A -> B): (r: seq<B>)
    ensures |r| == |xs|
    ensures forall i :: 0 <= i < |xs| ==> r[i] == f(xs[i])
  {
    if xs == [] then [] else [f(xs[0])] + Map(xs[1..], f)
  }

  predicate NoDup<T(==)>(xs: seq<T>) {
    forall i, j :: 0 <= i < j < |xs| ==> xs[i] != xs[j]
  }

  predicate Increasing(xs: seq<nat>) {
    forall i, j :: 0 <= i < j < |xs| ==> xs[i] < xs[j]
  }

  /** An increasing list is determined by its members. */
  lemma {:induction false} IncreasingUnique(xs: seq<nat>, ys: seq<nat>)
    requires Increasing(xs) && Increasing(ys)
    requires forall i :: i in xs <==> i in ys
    ensures xs == ys
  {
    if xs != [] { NonEmptyTransfer(xs, ys); }
    if ys != [] {
      NonEmptyTransfer(ys, xs);
      var m, n := |xs| - 1, |ys| - 1;
      assert xs[m] in ys && ys[n] in xs;
      assert xs[m] == ys[n];
      forall i ensures i in xs[..m] <==> i in ys[..n] {
        if i in xs[..m] { assert i in ys; }
        if i in ys[..n] { assert i in xs; }
      }
      IncreasingUnique(xs[..m], ys[..n]);
      assert xs == xs[..m] + [xs[m]] && ys == ys[..n] + [ys[n]];
    }
  }

  lemma {:induction false} HeadIn<T>(xs: seq<T>)
    ensures xs != [] ==> xs[0] in xs
  {}

  lemma {:induction false} NonEmptyTransfer<T>(xs: seq<T>, ys: seq<T>)
    requires xs != [] && forall x | x in xs :: x in ys
    ensures ys != []
  {
    assert xs[0] in ys;
  }

  /** The first position of `x`. */
  function IndexOf<T(==)>(xs: seq<T>, x: T): (k: nat)
    requires x in xs
    ensures k < |xs| && xs[k] == x
    ensures forall j :: 0 <= j < k ==> xs[j] != x
  {
    if xs[0] == x then 0 else 1 + IndexOf(xs[1..], x)
  }

  /** Python's `list.remove`: drops the first occurrence and demands that there is one. */
  function Remove<T(==)>(xs: seq<T>, x: T): (r: seq<T>)
    requires x in xs
    ensures |r| == |xs| - 1
  {
    var k := IndexOf(xs, x);
    xs[..k] + xs[k + 1..]
  }

  lemma {:induction false} RemoveIncreasing(xs: seq<nat>, x: nat)
    requires Increasing(xs) && x in xs
    ensures Increasing(Remove(xs, x))
    ensures forall y :: y in Remove(xs, x) <==> y in xs && y != x
  {
    var k := IndexOf(xs, x);
    assert xs == xs[..k] + [x] + xs[k + 1..];
  }

  /** The members of a finite set, each once, in some order. */
  method Enumerate<T(==)>(s: set<T>) returns (xs: seq<T>)
    ensures NoDup(xs)
    ensures forall x :: x in xs <==> x in s
  {
    xs := [];
    var rest := s;
    while rest != {}
      invariant NoDup(xs)
      invariant rest <= s
      invariant forall x :: x in xs <==> x in s && x !in rest
    {
      var x :| x in rest;
      xs := xs + [x];
      rest := rest - {x};
    }
  }

  function Min(a: int, b: int): int { if a <= b then a else b }

  function Max(a: int, b: int): int { if a <= b then b else a }
}

/** Python's `sorted`/`list.sort`: a stable sort, modelled as insertion sort. */
module Sorting {
  import opened Sequences

  ghost predicate TotalPreorder<T(!new)>(leq: (T, T) -> bool) {
    && (forall x, y :: leq(x, y) || leq(y, x))
    && (forall x, y, z :: leq(x, y) && leq(y, z) ==> leq(x, z))
  }

  ghost predicate SortedBy<T>(xs: seq<T>, leq: (T, T) -> bool) {
    forall i, j :: 0 <= i < j < |xs| ==> leq(xs[i], xs[j])
  }

  function Insert<T>(x: T, xs: seq<T>, leq: (T, T) -> bool): (r: seq<T>)
    ensures multiset(r) == multiset{x} + multiset(xs)
  {
    if xs == [] then [x]
    else if leq(x, xs[0]) then [x] + xs
    else
      assert xs == [xs[0]] + xs[1..];
      [xs[0]] + Insert(x, xs[1..], leq)
  }

  function StableSort<T>(xs: seq<T>, leq: (T, T) -> bool): (r: seq<T>)
    ensures multiset(r) == multiset(xs)
  {
    if xs == [] then []
    else
      assert xs == [xs[0]] + xs[1..];
      Insert(xs[0], StableSort(xs[1..], leq), leq)
  }

  lemma {:induction false} InsertSorted<T(!new)>(x: T, xs: seq<T>, leq: (T, T) -> bool)
    requires TotalPreorder(leq) && SortedBy(xs, leq)
    ensures SortedBy(Insert(x, xs, leq), leq)
  {
    if xs == [] {
    } else if leq(x, xs[0]) {
    } else {
      InsertSorted(x, xs[1..], leq);
      var rest := Insert(x, xs[1..], leq);
      forall j | 0 <= j < |rest| ensures leq(xs[0], rest[j]) {
        assert rest[j] in multiset(rest);
        assert rest[j] == x || rest[j] in xs[1..];
      }
    }
  }

  lemma {:induction false} SortSorts<T(!new)>(xs: seq<T>, leq: (T, T) -> bool)
    requires TotalPreorder(leq)
    ensures SortedBy(StableSort(xs, leq), leq)
    ensures |StableSort(xs, leq)| == |xs|
    ensures forall x :: x in StableSort(xs, leq) <==> x in xs
  {
    if xs != [] {
      SortSorts(xs[1..], leq);
      InsertSorted(xs[0], StableSort(xs[1..], leq), leq);
    }
    var r := StableSort(xs, leq);
    assert |multiset(r)| == |multiset(xs)|;
    forall x ensures x in r <==> x in xs {
      assert x in multiset(r) <==> x in multiset(xs);
    }
  }

  /** `p` picks elements of a single equivalence class of the order. */
  ghost predicate OneClass<T(!new)>(p: T -> bool, leq: (T, T) -> bool) {
    forall x, y :: p(x) && p(y) ==> leq(x, y)
  }

  lemma {:induction false} InsertStable<T(!new)>(x: T, xs: seq<T>, leq: (T, T) -> bool, p: T -> bool)
    requires OneClass(p, leq)
    ensures Filter(Insert(x, xs, leq), p) == Filter([x] + xs, p)
  {
    if xs == [] {
    } else if leq(x, xs[0]) {
    } else {
      InsertStable(x, xs[1..], leq, p);
      var tail := Insert(x, xs[1..], leq);
      assert ([xs[0]] + tail)[1..] == tail;
      assert ([x] + xs)[1..] == xs;
      assert ([x] + xs[1..])[1..] == xs[1..];
    }
  }

  /** Stability: sorting keeps the order of the elements of each equivalence class. */
  lemma {:induction false} SortStable<T(!new)>(xs: seq<T>, leq: (T, T) -> bool, p: T -> bool)
    requires OneClass(p, leq)
    ensures Filter(StableSort(xs, leq), p) == Filter(xs, p)
  {
    if xs != [] {
      SortStable(xs[1..], leq, p);
      var tail := StableSort(xs[1..], leq);
      InsertStable(xs[0], tail, leq, p);
      assert ([xs[0]] + tail)[1..] == tail;
    }
  }

  /** A list without repetitions stays so when sorted. */
  lemma {:induction false} SortNoDup<T>(xs: seq<T>, leq: (T, T) -> bool)
    requires NoDup(xs)
    ensures NoDup(StableSort(xs, leq))
  {
    var ys := StableSort(xs, leq);
    NoDupMultiset(xs);
    forall i, j | 0 <= i < j < |ys| ensures ys[i] != ys[j] {
      if ys[i] == ys[j] { MultisetTwice(ys, i, j); }
    }
  }

  lemma {:induction false} NoDupMultiset<T>(xs: seq<T>)
    requires NoDup(xs)
    ensures forall x :: multiset(xs)[x] <= 1
  {
    if xs != [] {
      var n := |xs| - 1;
      NoDupMultiset(xs[..n]);
      assert xs == xs[..n] + [xs[n]];
      assert xs[n] !in xs[..n];
    }
  }

  lemma {:induction false} MultisetTwice<T>(xs: seq<T>, i: nat, j: nat)
    requires i < j < |xs| && xs[i] == xs[j]
    ensures multiset(xs)[xs[i]] >= 2
  {
    assert xs == xs[..i] + [xs[i]] + xs[i + 1..j] + [xs[j]] + xs[j + 1..];
  }
}
