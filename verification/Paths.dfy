/** Repository paths: string order, and sorted lists without repetitions. */
module Paths {
  import opened Sequences
  import opened Sorting

  /** Python's order on `str`. */
  predicate StrLe(a: string, b: string) {
    a == "" || (b != "" && (a[0] < b[0] || (a[0] == b[0] && StrLe(a[1..], b[1..]))))
  }

  lemma {:induction false} StrLeTotal(a: string, b: string)
    ensures StrLe(a, b) || StrLe(b, a)
    ensures StrLe(a, b) && StrLe(b, a) ==> a == b
  {
    if a != "" && b != "" && a[0] == b[0] {
      StrLeTotal(a[1..], b[1..]);
      assert a == [a[0]] + a[1..] && b == [b[0]] + b[1..];
    }
  }

  lemma {:induction false} StrLeTransitive(a: string, b: string, c: string)
    requires StrLe(a, b) && StrLe(b, c)
    ensures StrLe(a, c)
  {
    if a != "" && a[0] == b[0] && b[0] == c[0] { StrLeTransitive(a[1..], b[1..], c[1..]); }
  }

  lemma {:induction false} StrLePreorder()
    ensures TotalPreorder(StrLe)
  {
    forall a, b ensures StrLe(a, b) || StrLe(b, a) { StrLeTotal(a, b); }
    forall a, b, c | StrLe(a, b) && StrLe(b, c) ensures StrLe(a, c) { StrLeTransitive(a, b, c); }
  }

  /** Python's `sorted(set(...))`. */
  ghost predicate IsSorted(xs: seq<string>, s: set<string>) {
    NoDup(xs) && SortedBy(xs, StrLe) && forall x :: x in xs <==> x in s
  }

  method SortedSet(s: set<string>) returns (xs: seq<string>)
    ensures IsSorted(xs, s)
  {
    hide StrLe;
    var all := Enumerate(s);
    xs := StableSort(all, StrLe);
    StrLePreorder();
    SortSorts(all, StrLe);
    SortNoDup(all, StrLe);
  }

  /** A sorted list without repetitions is determined by its members. */
  lemma {:induction false} SortedUnique(xs: seq<string>, ys: seq<string>, s: set<string>)
    requires IsSorted(xs, s) && IsSorted(ys, s)
    ensures xs == ys
    decreases |xs|
  {
    hide StrLe;
    if xs != [] { NonEmptyTransfer(xs, ys); }
    if ys != [] {
      NonEmptyTransfer(ys, xs);
      SameLast(xs, ys, s);
      var m, n := |xs| - 1, |ys| - 1;
      ButLast(xs, s);
      ButLast(ys, s);
      SortedUnique(xs[..m], ys[..n], s - {xs[m]});
      assert xs == xs[..m] + [xs[m]] && ys == ys[..n] + [ys[n]];
    }
  }

  lemma {:induction false} SameLast(xs: seq<string>, ys: seq<string>, s: set<string>)
    requires IsSorted(xs, s) && IsSorted(ys, s) && xs != [] && ys != []
    ensures xs[|xs| - 1] == ys[|ys| - 1]
  {
    hide StrLe;
    var a, b := xs[|xs| - 1], ys[|ys| - 1];
    assert a in xs && b in ys;
    var i :| 0 <= i < |ys| && ys[i] == a;
    var j :| 0 <= j < |xs| && xs[j] == b;
    if a != b {
      assert StrLe(ys[i], ys[|ys| - 1]) && StrLe(xs[j], xs[|xs| - 1]);
      StrLeTotal(a, b);
    }
  }

  lemma {:induction false} ButLast(xs: seq<string>, s: set<string>)
    requires IsSorted(xs, s) && xs != []
    ensures IsSorted(xs[..|xs| - 1], s - {xs[|xs| - 1]})
  {
    hide StrLe;
    var m := |xs| - 1;
    forall x ensures x in xs[..m] <==> x in s - {xs[m]} {
      if x in s - {xs[m]} {
        var i :| 0 <= i < |xs| && xs[i] == x;
        assert xs[..m][i] == x;
      }
      if x in xs[..m] {
        var i :| 0 <= i < m && xs[..m][i] == x;
        assert xs[i] == x && x in xs;
      }
    }
  }
}
