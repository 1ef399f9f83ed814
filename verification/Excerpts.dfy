/** The excerpt engine of the read-excerpt tier: core/context/excerpts.py. */
module Excerpts {
  import opened Sequences
  import opened Sorting
  import opened Text
  import opened Package

  /** An inclusive line range. */
  type Lines = (int, int)

  predicate LineLe(a: Lines, b: Lines) {
    a.0 < b.0 || (a.0 == b.0 && a.1 <= b.1)
  }

  predicate In(r: Lines, x: int) { r.0 <= x <= r.1 }

  predicate Proper(rs: seq<Lines>) { forall r :: r in rs ==> r.0 <= r.1 }

  /** Line `x` lies in one of the ranges. */
  predicate Covers(rs: seq<Lines>, x: int) { exists r :: r in rs && In(r, x) }

  /** In order, with at least one uncovered line between neighbours. */
  predicate Gapped(rs: seq<Lines>) { forall i, j :: 0 <= i < j < |rs| ==> rs[i].1 + 1 < rs[j].0 }

  /** The first range starts no later than any other. */
  predicate StartsFirst(rs: seq<Lines>) {
    rs != [] ==> forall r :: r in rs ==> rs[0].0 <= r.0
  }

  lemma {:induction false} LineLeTotal()
    ensures TotalPreorder(LineLe)
  {}

  // ----- Merging. -----

  /** One turn of the merge loop. */
  function MergeStep(merged: seq<Lines>, r: Lines): seq<Lines>
    requires merged != []
  {
    var m := |merged| - 1;
    if r.0 <= merged[m].1 + 1 then merged[m := (merged[m].0, Max(merged[m].1, r.1))]
    else merged + [r]
  }

  /** Everything a turn relies on: only the very first range can start after the next one. */
  ghost predicate MergeState(merged: seq<Lines>, next: int) {
    && merged != [] && Proper(merged) && Gapped(merged)
    && (|merged| > 1 ==> merged[|merged| - 1].0 <= next)
  }

  lemma {:induction false} CoversAppend(rs: seq<Lines>, r: Lines, x: int)
    ensures Covers(rs + [r], x) <==> Covers(rs, x) || In(r, x)
  {
    assert r in rs + [r];
  }

  /** Widening the last range adds just its own lines. */
  lemma {:induction false} CoversUpdate(rs: seq<Lines>, was: Lines, r: Lines, x: int)
    requires rs != [] && rs[|rs| - 1] == was && was.0 == r.0 && was.1 <= r.1
    ensures Covers(rs[|rs| - 1 := r], x) <==> Covers(rs, x) || In(r, x)
  {
    var m := |rs| - 1;
    assert rs == rs[..m] + [was] && rs[m := r] == rs[..m] + [r];
    CoversAppend(rs[..m], was, x);
    CoversAppend(rs[..m], r, x);
  }

  lemma {:induction false} MergeStepSound(merged: seq<Lines>, r: Lines, next: int)
    requires MergeState(merged, r.0) && r.0 <= r.1 && r.0 <= next
    ensures var merged' := MergeStep(merged, r);
            && MergeState(merged', next) && merged'[0].0 == merged[0].0
            && forall x :: Covers(merged', x) <==> Covers(merged, x) || (In(r, x) && merged[0].0 <= x)
  {
    var m := |merged| - 1;
    var last := merged[m];
    var merged' := MergeStep(merged, r);
    assert last in merged;
    if r.0 <= last.1 + 1 {
      var wide := (last.0, Max(last.1, r.1));
      forall x ensures Covers(merged', x) <==> Covers(merged, x) || (In(r, x) && merged[0].0 <= x) {
        CoversUpdate(merged, last, wide, x);
        assert In(wide, x) <==> In(last, x) || (In(r, x) && last.0 <= x);
      }
    } else {
      forall x ensures Covers(merged', x) <==> Covers(merged, x) || In(r, x) {
        CoversAppend(merged, r, x);
      }
    }
  }

  /** What is left out of the running union. */
  lemma {:induction false} CoversPrefix(rs: seq<Lines>, n: nat, x: int)
    requires 1 <= n < |rs|
    ensures Covers(rs[1..n + 1], x) <==> Covers(rs[1..n], x) || In(rs[n], x)
  {
    assert rs[1..n + 1] == rs[1..n] + [rs[n]];
    CoversAppend(rs[1..n], rs[n], x);
  }

  /**
   * `_merge_ranges`. It starts from `ranges[0]` but then runs over the sorted list without its first element,
   * so it keeps the union exactly when the given list starts with a range of least start.
   */
  method MergeRanges(ranges: seq<Lines>) returns (merged: seq<Lines>)
    requires Proper(ranges)
    ensures Proper(merged) && Gapped(merged)
    ensures (forall x :: Covers(merged, x) <==> Covers(ranges, x)) <==> StartsFirst(ranges)
  {
    if ranges == [] { return []; }
    hide MergedUpTo, Covers, LineLe, MergeStep;
    var sorted := StableSort(ranges, LineLe);
    LineLeTotal();
    SortSorts(ranges, LineLe);
    merged := [ranges[0]];
    MergeStart(ranges, sorted);
    for n := 1 to |sorted|
      invariant MergedUpTo(ranges[0], sorted, merged, n)
    {
      assert sorted[n] in sorted;
      MergeOne(ranges[0], sorted, merged, n);
      merged := MergeStep(merged, sorted[n]);
    }
    MergeExactly(ranges, sorted, merged);
  }

  /** Ranges 1 to n of the sorted list are merged into the first one given. */
  ghost predicate MergedUpTo(first: Lines, sorted: seq<Lines>, merged: seq<Lines>, n: nat) {
    && 1 <= n <= |sorted| && merged != [] && merged[0].0 == first.0
    && MergeState(merged, if n < |sorted| then sorted[n].0 else sorted[n - 1].0)
    && forall x :: Covers(merged, x) <==> first.0 <= x && (In(first, x) || Covers(sorted[1..n], x))
  }

  lemma {:induction false} MergeOne(first: Lines, sorted: seq<Lines>, merged: seq<Lines>, n: nat)
    requires n < |sorted| && SortedBy(sorted, LineLe) && sorted[n].0 <= sorted[n].1
    requires MergedUpTo(first, sorted, merged, n)
    ensures merged != [] && MergedUpTo(first, sorted, MergeStep(merged, sorted[n]), n + 1)
  {
    SortedStarts(sorted, n);
    hide MergeState, Covers, LineLe, MergeStep;
    MergeStepSound(merged, sorted[n], if n + 1 < |sorted| then sorted[n + 1].0 else sorted[n].0);
    var merged' := MergeStep(merged, sorted[n]);
    forall x ensures Covers(merged', x) <==> first.0 <= x && (In(first, x) || Covers(sorted[1..n + 1], x)) {
      CoversPrefix(sorted, n, x);
    }
  }

  lemma {:induction false} SortedStarts(sorted: seq<Lines>, n: nat)
    requires SortedBy(sorted, LineLe) && n < |sorted|
    ensures n + 1 < |sorted| ==> sorted[n].0 <= sorted[n + 1].0
  {}

  lemma {:induction false} MergeStart(ranges: seq<Lines>, sorted: seq<Lines>)
    requires Proper(ranges) && ranges != [] && |sorted| == |ranges|
    ensures MergedUpTo(ranges[0], sorted, [ranges[0]], 1)
  {
    assert ranges[0] in [ranges[0]];
  }

  lemma {:induction false} MergeExactly(ranges: seq<Lines>, sorted: seq<Lines>, merged: seq<Lines>)
    requires Proper(ranges) && ranges != []
    requires |sorted| == |ranges| && SortedBy(sorted, LineLe) && forall r :: r in sorted <==> r in ranges
    requires MergedUpTo(ranges[0], sorted, merged, |sorted|)
    ensures Proper(merged) && Gapped(merged)
    ensures (forall x :: Covers(merged, x) <==> Covers(ranges, x)) <==> StartsFirst(ranges)
  {
    assert sorted == [sorted[0]] + sorted[1..] && sorted[1..|sorted|] == sorted[1..];
    assert ranges[0] in sorted && sorted[0] in ranges;
    if StartsFirst(ranges) {
      assert LineLe(sorted[0], ranges[0]) by {
        if ranges[0] != sorted[0] {
          var k :| 0 <= k < |sorted| && sorted[k] == ranges[0];
          assert LineLe(sorted[0], sorted[k]);
        }
      }
      forall x ensures Covers(merged, x) <==> Covers(ranges, x) {
        if Covers(ranges, x) {
          var r :| r in ranges && In(r, x);
          assert r in sorted;
          assert r == sorted[0] || r in sorted[1..];
        }
      }
    } else {
      var r :| r in ranges && r.0 < ranges[0].0;
      assert In(r, r.0) && Covers(ranges, r.0) && !Covers(merged, r.0);
    }
  }

  // ----- Windows around symbol lines. -----

  /** Line `x` is within `context` lines of a symbol line. */
  ghost predicate Near(lines: seq<string>, isSymbol: string -> bool, context: nat, x: int) {
    exists i :: 0 <= i < |lines| && isSymbol(lines[i]) && i - context <= x <= i + context
  }

  /** The non-empty ones among lines lo..hi whose position satisfies `p`, in order. */
  ghost function Chosen(lines: seq<string>, p: int -> bool, lo: int, hi: int): seq<string>
    requires 0 <= lo <= hi <= |lines|
    decreases hi - lo
  {
    if lo == hi then []
    else Chosen(lines, p, lo, hi - 1) + (if p(hi - 1) && lines[hi - 1] != "" then [lines[hi - 1]] else [])
  }

  function NonEmpty(lines: seq<string>): seq<string> {
    if lines == [] then []
    else
      var n := |lines| - 1;
      NonEmpty(lines[..n]) + (if lines[n] != "" then [lines[n]] else [])
  }

  lemma {:induction false} NonEmptyAppend(xs: seq<string>, ys: seq<string>)
    ensures NonEmpty(xs + ys) == NonEmpty(xs) + NonEmpty(ys)
  {
    if ys == [] {
      assert xs + ys == xs;
    } else {
      var n := |ys| - 1;
      assert (xs + ys)[..|xs| + n] == xs + ys[..n];
      NonEmptyAppend(xs, ys[..n]);
    }
  }

  /** What line `x` contributes: itself, or a blank where it is the first one left out below a line shown. */
  ghost function RowsAt(lines: seq<string>, p: int -> bool, x: int): seq<string>
    requires 0 <= x < |lines|
  {
    if p(x) then [lines[x]] else if x > 0 && p(x - 1) then [""] else []
  }

  /** The rows of lines lo..hi, in order. */
  ghost function Shown(lines: seq<string>, p: int -> bool, lo: int, hi: int): seq<string>
    requires 0 <= lo <= hi <= |lines|
    decreases hi - lo
  {
    if lo == hi then [] else Shown(lines, p, lo, hi - 1) + RowsAt(lines, p, hi - 1)
  }

  function DropBlanks(rows: seq<string>): (r: seq<string>)
    ensures r <= rows && (r != [] ==> r[|r| - 1] != "")
    ensures forall k :: |r| <= k < |rows| ==> rows[k] == ""
  {
    if rows != [] && rows[|rows| - 1] == "" then DropBlanks(rows[..|rows| - 1]) else rows
  }

  lemma {:induction false} ShownSplit(lines: seq<string>, p: int -> bool, lo: int, mid: int, hi: int)
    requires 0 <= lo <= mid <= hi <= |lines|
    ensures Shown(lines, p, lo, hi) == Shown(lines, p, lo, mid) + Shown(lines, p, mid, hi)
    decreases hi - mid
  {
    if mid < hi { ShownSplit(lines, p, lo, mid, hi - 1); }
  }

  lemma {:induction false} ShownNone(lines: seq<string>, p: int -> bool, lo: int, hi: int)
    requires 0 <= lo <= hi <= |lines|
    requires forall x :: lo <= x < hi ==> !p(x)
    requires 0 < lo < hi ==> !p(lo - 1)
    ensures Shown(lines, p, lo, hi) == []
    decreases hi - lo
  {
    if lo < hi { ShownNone(lines, p, lo, hi - 1); }
  }

  lemma {:induction false} ShownAll(lines: seq<string>, p: int -> bool, lo: int, hi: int)
    requires 0 <= lo <= hi <= |lines| && forall x :: lo <= x < hi ==> p(x)
    ensures Shown(lines, p, lo, hi) == lines[lo..hi]
    decreases hi - lo
  {
    if lo < hi {
      ShownAll(lines, p, lo, hi - 1);
      assert lines[lo..hi] == lines[lo..hi - 1] + [lines[hi - 1]];
    }
  }

  lemma {:induction false} ShownOne(lines: seq<string>, p: int -> bool, x: int)
    requires 0 <= x < |lines|
    ensures Shown(lines, p, x, x + 1) == RowsAt(lines, p, x)
  {
    assert Shown(lines, p, x, x) == [];
  }

  lemma {:induction false} ShownSame(lines: seq<string>, p: int -> bool, q: int -> bool, hi: int)
    requires 0 <= hi <= |lines| && forall x :: 0 <= x < hi ==> p(x) == q(x)
    ensures Shown(lines, p, 0, hi) == Shown(lines, q, 0, hi)
    decreases hi
  {
    if 0 < hi { ShownSame(lines, p, q, hi - 1); }
  }

  /** Up to blank rows, what is shown is the filter. */
  lemma {:induction false} ShownFilters(lines: seq<string>, p: int -> bool, hi: int)
    requires 0 <= hi <= |lines|
    ensures NonEmpty(Shown(lines, p, 0, hi)) == Chosen(lines, p, 0, hi)
    decreases hi
  {
    if 0 < hi {
      ShownFilters(lines, p, hi - 1);
      var row := RowsAt(lines, p, hi - 1);
      NonEmptyAppend(Shown(lines, p, 0, hi - 1), row);
      if row != [] { assert row[..0] == []; }
    }
  }

  lemma {:induction false} DropBlanksFilters(rows: seq<string>)
    ensures NonEmpty(DropBlanks(rows)) == NonEmpty(rows)
  {
    if rows != [] && rows[|rows| - 1] == "" { DropBlanksFilters(rows[..|rows| - 1]); }
  }

  /** The window of line `i`. */
  function Window(i: int, context: nat, n: int): Lines {
    (Max(0, i - context), Min(n - 1, i + context))
  }

  /** The raw ranges, in file order. */
  ghost predicate IsRaw(raw: seq<Lines>, lines: seq<string>, isSymbol: string -> bool, context: nat, upTo: nat)
    requires upTo <= |lines|
  {
    && (forall i :: 0 <= i < upTo && isSymbol(lines[i]) ==> Window(i, context, |lines|) in raw)
    && (forall r :: r in raw ==> exists i :: 0 <= i < upTo && isSymbol(lines[i]) && r == Window(i, context, |lines|))
    && (raw != [] ==> forall i :: 0 <= i < upTo && isSymbol(lines[i]) ==> raw[0].0 <= Max(0, i - context))
  }

  lemma {:induction false} RawStep(raw: seq<Lines>, lines: seq<string>, isSymbol: string -> bool, context: nat, i: nat)
    requires i < |lines| && IsRaw(raw, lines, isSymbol, context, i)
    ensures IsRaw(if isSymbol(lines[i]) then raw + [Window(i, context, |lines|)] else raw, lines, isSymbol, context, i + 1)
  {
    if isSymbol(lines[i]) {
      var w := Window(i, context, |lines|);
      var raw' := raw + [w];
      assert w in raw';
      if raw != [] {
        assert raw[0] in raw;
        var j :| 0 <= j < i && isSymbol(lines[j]) && raw[0] == Window(j, context, |lines|);
        assert raw[0].0 <= w.0;
      } else {
        assert forall j :: 0 <= j < i && isSymbol(lines[j]) ==> Window(j, context, |lines|) in raw;
      }
    }
  }

  lemma {:induction false} RawCovers(raw: seq<Lines>, lines: seq<string>, isSymbol: string -> bool, context: nat)
    requires IsRaw(raw, lines, isSymbol, context, |lines|)
    ensures Proper(raw) && StartsFirst(raw)
    ensures forall x :: Covers(raw, x) <==> 0 <= x < |lines| && Near(lines, isSymbol, context, x)
  {
    forall r | r in raw ensures r.0 <= r.1 && raw[0].0 <= r.0 {
      var i :| 0 <= i < |lines| && isSymbol(lines[i]) && r == Window(i, context, |lines|);
    }
    forall x | 0 <= x < |lines| && Near(lines, isSymbol, context, x) ensures Covers(raw, x) {
      var i :| 0 <= i < |lines| && isSymbol(lines[i]) && i - context <= x <= i + context;
      assert In(Window(i, context, |lines|), x);
    }
    forall x | Covers(raw, x) ensures 0 <= x < |lines| && Near(lines, isSymbol, context, x) {
      var r :| r in raw && In(r, x);
      var i :| 0 <= i < |lines| && isSymbol(lines[i]) && r == Window(i, context, |lines|);
    }
  }

  /** Where the first k merged ranges end. */
  function EndOf(merged: seq<Lines>, k: nat): int
    requires k <= |merged|
  {
    if k == 0 then 0 else merged[k - 1].1 + 1
  }

  /** Every range lies inside the file. */
  ghost predicate Inside(merged: seq<Lines>, n: int) {
    Proper(merged) && Gapped(merged) && forall x :: Covers(merged, x) ==> 0 <= x < n
  }

  lemma {:induction false} RangeBounds(merged: seq<Lines>, n: int, k: nat)
    requires Inside(merged, n) && k < |merged| && n >= 0
    ensures 0 <= EndOf(merged, k) <= merged[k].0 <= merged[k].1 < n
    ensures EndOf(merged, k + 1) == merged[k].1 + 1
    ensures forall x :: EndOf(merged, k) <= x < merged[k].0 ==> !Covers(merged, x)
    ensures forall x :: merged[k].0 <= x <= merged[k].1 ==> Covers(merged, x)
  {
    var r := merged[k];
    assert r in merged && In(r, r.0) && In(r, r.1);
    assert Covers(merged, r.0) && Covers(merged, r.1);
    if k > 0 {
      var q := merged[k - 1];
      assert q in merged && In(q, q.1) && Covers(merged, q.1);
    }
    forall x | EndOf(merged, k) <= x < r.0 ensures !Covers(merged, x) {
      forall i | 0 <= i < |merged| ensures !In(merged[i], x) {
        assert merged[i] in merged;
        if i < k - 1 { assert merged[i].1 + 1 < merged[k - 1].0; assert merged[k - 1] in merged; }
      }
    }
    forall x | r.0 <= x <= r.1 ensures Covers(merged, x) {
      assert In(r, x);
    }
  }

  lemma {:induction false} AfterLast(merged: seq<Lines>, n: int)
    requires Inside(merged, n) && n >= 0
    ensures 0 <= EndOf(merged, |merged|) <= n
    ensures forall x :: EndOf(merged, |merged|) <= x < n ==> !Covers(merged, x)
  {
    if merged != [] {
      var m := |merged| - 1;
      RangeBounds(merged, n, m);
      forall x | merged[m].1 < x ensures !Covers(merged, x) {
        forall i | 0 <= i < |merged| ensures !In(merged[i], x) {
          assert merged[m] in merged;
        }
      }
    }
  }

  /** The rows a range adds: its lines, and a blank if the file goes on. */
  lemma {:induction false} RangeRows(lines: seq<string>, merged: seq<Lines>, p: int -> bool, k: nat)
    requires k < |merged| && (forall x :: p(x) <==> Covers(merged, x))
    requires Inside(merged, |lines|) && 0 <= merged[k].0 <= merged[k].1 < |lines|
    ensures 0 <= RowsEnd(lines, merged, k) <= RowsEnd(lines, merged, k + 1) <= |lines|
    ensures Shown(lines, p, RowsEnd(lines, merged, k), RowsEnd(lines, merged, k + 1))
         == lines[merged[k].0..merged[k].1 + 1] + if merged[k].1 + 1 < |lines| then [""] else []
  {
    hide Inside, Covers, Shown;
    RangeBounds(merged, |lines|, k);
    AfterRange(lines, merged, k);
    if k > 0 { AfterRange(lines, merged, k - 1); }
    StretchRows(lines, p, RowsEnd(lines, merged, k), merged[k].0, merged[k].1);
  }

  /** The rows of a stretch of lines shown, from just below the blank of the stretch before. */
  lemma {:induction false} StretchRows(lines: seq<string>, p: int -> bool, from: int, start: int, end: int)
    requires 0 <= from <= start <= end < |lines|
    requires (forall x :: from <= x < start ==> !p(x)) && (0 < from < start ==> !p(from - 1))
    requires (forall x :: start <= x <= end ==> p(x)) && !p(end + 1)
    ensures Shown(lines, p, from, Min(|lines|, end + 2))
         == lines[start..end + 1] + if end + 1 < |lines| then [""] else []
  {
    hide Shown;
    var to := Min(|lines|, end + 2);
    ShownNone(lines, p, from, start);
    ShownAll(lines, p, start, end + 1);
    ShownSplit(lines, p, from, start, to);
    ShownSplit(lines, p, start, end + 1, to);
    if end + 1 < |lines| { ShownOne(lines, p, end + 1); } else { ShownNothing(lines, p, to); }
  }

  lemma {:induction false} ShownNothing(lines: seq<string>, p: int -> bool, x: int)
    requires 0 <= x <= |lines|
    ensures Shown(lines, p, x, x) == []
  {}

  /** How far the rows reach once the first k ranges are out: past a blank, if there is one. */
  function RowsEnd(lines: seq<string>, merged: seq<Lines>, k: nat): int
    requires k <= |merged|
  {
    if k == 0 then 0 else Min(|lines|, merged[k - 1].1 + 2)
  }

  lemma {:induction false} AfterRange(lines: seq<string>, merged: seq<Lines>, k: nat)
    requires Inside(merged, |lines|) && k < |merged|
    ensures !Covers(merged, merged[k].1 + 1)
    ensures k > 0 ==> merged[k - 1].1 + 1 < merged[k].0
    ensures merged[k].1 >= 0
  {
    var x := merged[k].1 + 1;
    forall i | 0 <= i < |merged| ensures !In(merged[i], x) {
      assert merged[i] in merged;
      if i < k { assert merged[i].1 + 1 < merged[k].0; }
      if i > k { assert merged[k].1 + 1 < merged[i].0; }
    }
    assert merged[k] in merged && In(merged[k], merged[k].1);
    assert Covers(merged, merged[k].1);
  }

  lemma {:induction false} RestBlank(lines: seq<string>, merged: seq<Lines>, p: int -> bool)
    requires (forall x :: p(x) <==> Covers(merged, x)) && Inside(merged, |lines|)
    ensures 0 <= RowsEnd(lines, merged, |merged|) <= |lines|
    ensures Shown(lines, p, 0, RowsEnd(lines, merged, |merged|)) == Shown(lines, p, 0, |lines|)
  {
    hide Inside, Covers, Shown;
    AfterLast(merged, |lines|);
    if merged != [] {
      AfterRange(lines, merged, |merged| - 1);
      RangeBounds(merged, |lines|, |merged| - 1);
    }
    var from := RowsEnd(lines, merged, |merged|);
    ShownNone(lines, p, from, |lines|);
    ShownSplit(lines, p, 0, from, |lines|);
  }

  /** The extend/separator/trim part: the lines covered, a blank at each gap, nothing blank at the end. */
  method RenderRanges(lines: seq<string>, merged: seq<Lines>) returns (result: seq<string>)
    requires Inside(merged, |lines|)
    ensures result == DropBlanks(Shown(lines, x => Covers(merged, x), 0, |lines|))
  {
    hide Inside, Covers, Shown, RowsEnd;
    ghost var p := x => Covers(merged, x);
    result := [];
    RowsStart(lines, merged, p);
    for k := 0 to |merged|
      invariant 0 <= RowsEnd(lines, merged, k) <= |lines|
      invariant result == Shown(lines, p, 0, RowsEnd(lines, merged, k))
    {
      var start, end := merged[k].0, merged[k].1;
      RangeBounds(merged, |lines|, k);
      RangeRows(lines, merged, p, k);
      ShownSplit(lines, p, 0, RowsEnd(lines, merged, k), RowsEnd(lines, merged, k + 1));
      ghost var before := result;
      result := result + lines[start..end + 1];
      if end + 1 < |lines| {
        result := result + [""];
      }
      assert result == before + (lines[start..end + 1] + if end + 1 < |lines| then [""] else []);
    }
    RestBlank(lines, merged, p);
    ghost var rows := result;
    while result != [] && result[|result| - 1] == ""
      invariant DropBlanks(result) == DropBlanks(rows)
      decreases |result|
    {
      result := result[..|result| - 1];
    }
  }

  lemma {:induction false} RowsStart(lines: seq<string>, merged: seq<Lines>, p: int -> bool)
    ensures RowsEnd(lines, merged, 0) == 0 && Shown(lines, p, 0, 0) == []
  {}

  /** The rows of a file's symbol windows. */
  ghost function Windows(lines: seq<string>, context: nat, isSymbol: string -> bool): seq<string> {
    DropBlanks(Shown(lines, x => Near(lines, isSymbol, context, x), 0, |lines|))
  }

  /** `_symbol_windows`. */
  method SymbolWindows(lines: seq<string>, context: nat, isSymbol: string -> bool) returns (result: seq<string>)
    ensures result == Windows(lines, context, isSymbol)
  {
    hide IsRaw, Near, Shown;
    var raw: seq<Lines> := [];
    RawNone(lines, isSymbol, context);
    for i := 0 to |lines|
      invariant IsRaw(raw, lines, isSymbol, context, i)
    {
      RawStep(raw, lines, isSymbol, context, i);
      if isSymbol(lines[i]) { raw := raw + [Window(i, context, |lines|)]; }
    }
    RawCovers(raw, lines, isSymbol, context);
    if raw == [] {
      ShownNone(lines, x => Near(lines, isSymbol, context, x), 0, |lines|);
      return [];
    }
    var merged := MergeRanges(raw);
    result := RenderRanges(lines, merged);
    ShownSame(lines, x => Covers(merged, x), x => Near(lines, isSymbol, context, x), |lines|);
  }

  lemma {:induction false} RawNone(lines: seq<string>, isSymbol: string -> bool, context: nat)
    ensures IsRaw([], lines, isSymbol, context, 0)
  {}

  /** The windows refine a filter: their non-empty rows are the non-empty lines near a symbol line, in order and once each. */
  lemma {:induction false} WindowsFilter(lines: seq<string>, context: nat, isSymbol: string -> bool)
    ensures NonEmpty(Windows(lines, context, isSymbol)) == Chosen(lines, x => Near(lines, isSymbol, context, x), 0, |lines|)
  {
    ShownFilters(lines, x => Near(lines, isSymbol, context, x), |lines|);
    DropBlanksFilters(Shown(lines, x => Near(lines, isSymbol, context, x), 0, |lines|));
  }

  // ----- Sizes. -----

  /** Bytes of the lines when each is followed by one line feed. */
  function Bytes(lines: seq<string>): nat {
    if lines == [] then 0 else Bytes(lines[..|lines| - 1]) + ByteLength(lines[|lines| - 1]) + 1
  }

  lemma {:induction false} BytesAppend(xs: seq<string>, ys: seq<string>)
    ensures Bytes(xs + ys) == Bytes(xs) + Bytes(ys)
  {
    if ys == [] {
      assert xs + ys == xs;
    } else {
      var n := |ys| - 1;
      assert (xs + ys)[..|xs + ys| - 1] == xs + ys[..n];
      BytesAppend(xs, ys[..n]);
    }
  }

  lemma {:induction false} EndBytes(lines: seq<string>, k: nat)
    requires k <= |lines|
    ensures Bytes(lines[..k]) + (if k < |lines| then 1 else 0) <= Bytes(lines)
  {
    assert lines == lines[..k] + lines[k..];
    BytesAppend(lines[..k], lines[k..]);
  }

  /** What is left out of the first `hi` lines: every other line, less the line feeds kept for the blanks. */
  ghost function Omitted(lines: seq<string>, p: int -> bool, hi: int): nat
    requires 0 <= hi <= |lines|
    decreases hi
  {
    if hi == 0 then 0
    else Omitted(lines, p, hi - 1) + if p(hi - 1) then 0 else ByteLength(lines[hi - 1]) + 1 - |RowsAt(lines, p, hi - 1)|
  }

  /** One line: what it contributes and what is left out of it. */
  lemma {:induction false} RowBytes(lines: seq<string>, p: int -> bool, x: int)
    requires 0 <= x < |lines|
    ensures var row := RowsAt(lines, p, x);
            Bytes(row) + (if p(x) then 0 else ByteLength(lines[x]) + 1 - |row|) == ByteLength(lines[x]) + 1
  {
    var row := RowsAt(lines, p, x);
    if row != [] { assert row[..0] == [] && Bytes(row[..0]) == 0 && Bytes(row) == ByteLength(row[0]) + 1; }
  }

  lemma {:induction false} ShownBytes(lines: seq<string>, p: int -> bool, hi: int)
    requires 0 <= hi <= |lines|
    ensures Bytes(Shown(lines, p, 0, hi)) + Omitted(lines, p, hi) == Bytes(lines[..hi])
    decreases hi
  {
    hide RowsAt, ByteLength;
    if hi > 0 {
      ShownBytes(lines, p, hi - 1);
      BytesAppend(Shown(lines, p, 0, hi - 1), RowsAt(lines, p, hi - 1));
      RowBytes(lines, p, hi - 1);
      assert lines[..hi][..hi - 1] == lines[..hi - 1];
    }
  }

  lemma {:induction false} DropBlanksBytes(rows: seq<string>)
    ensures Bytes(DropBlanks(rows)) + (|rows| - |DropBlanks(rows)|) == Bytes(rows)
  {
    if rows != [] && rows[|rows| - 1] == "" { DropBlanksBytes(rows[..|rows| - 1]); }
  }

  /** Bytes of a file's lines that its windows leave out, blank rows at the end included. */
  ghost function LeftOut(lines: seq<string>, context: nat, isSymbol: string -> bool): nat {
    var shown := Shown(lines, x => Near(lines, isSymbol, context, x), 0, |lines|);
    Omitted(lines, x => Near(lines, isSymbol, context, x), |lines|) + (|shown| - |DropBlanks(shown)|)
  }

  lemma {:induction false} WindowBytes(lines: seq<string>, context: nat, isSymbol: string -> bool)
    ensures Bytes(Windows(lines, context, isSymbol)) + LeftOut(lines, context, isSymbol) == Bytes(lines)
  {
    ShownBytes(lines, x => Near(lines, isSymbol, context, x), |lines|);
    DropBlanksBytes(Shown(lines, x => Near(lines, isSymbol, context, x), 0, |lines|));
    assert lines[..|lines|] == lines;
  }

  // ----- The excerpt of a file. -----

  const EXCERPT_HEAD_LINES := 80

  function Header(relPath: string): string { "# excerpt from: " + relPath + "\n" }

  function Footer(fullBytes: nat): string { "\n\U{2026} (excerpt truncated, " + Decimal(fullBytes) + " bytes total)" }

  function Take(lines: seq<string>, n: nat): (r: seq<string>)
    ensures r <= lines && |r| == Min(n, |lines|)
  {
    if |lines| <= n then lines else lines[..n]
  }

  lemma {:induction false} ByteLengthAppend(s: string, t: string)
    ensures ByteLength(s + t) == ByteLength(s) + ByteLength(t)
  {
    if s == "" {
      assert s + t == t;
    } else {
      assert (s + t)[1..] == s[1..] + t;
      ByteLengthAppend(s[1..], t);
    }
  }

  lemma {:induction false} JoinBytes(lines: seq<string>)
    ensures ByteLength(Join("\n", lines)) == if lines == [] then 0 else Bytes(lines) - 1
  {
    if |lines| == 1 {
      assert lines[..0] == [];
    } else if lines != [] {
      var rest := Join("\n", lines[1..]);
      JoinBytes(lines[1..]);
      ByteLengthAppend(lines[0] + "\n", rest);
      ByteLengthAppend(lines[0], "\n");
      assert ByteLength("\n") == 1;
      assert lines == [lines[0]] + lines[1..] && [lines[0]][..0] == [];
      BytesAppend([lines[0]], lines[1..]);
    }
  }

  /** A line break takes at least one byte. */
  lemma {:induction false} CutBytes(s: string)
    requires s != ""
    ensures var cut := CutLine(s);
            ByteLength(cut.0) + ByteLength(cut.1) + (if cut.1 == "" then 0 else 1) <= ByteLength(s)
  {
    if s[0] == '\r' && |s| > 1 && s[1] == '\n' {
      assert s[2..] == s[1..][1..];
    } else if !IsBreak(s[0]) && |s| > 1 {
      CutBytes(s[1..]);
      var cut := CutLine(s[1..]);
      assert ([s[0]] + cut.0)[1..] == cut.0;
    }
  }

  lemma {:induction false} SplitBytes(s: string)
    ensures Bytes(SplitLines(s)) <= ByteLength(s) + 1
    decreases |s|
  {
    if s != "" {
      var cut := CutLine(s);
      CutBytes(s);
      SplitBytes(cut.1);
      assert [cut.0][..0] == [];
      BytesAppend([cut.0], SplitLines(cut.1));
      if cut.1 == "" { assert SplitLines(cut.1) == []; }
    }
  }

  lemma {:induction false} TakeBytes(lines: seq<string>, n: nat)
    ensures Bytes(Take(lines, n)) <= Bytes(lines)
  {
    if n < |lines| { EndBytes(lines, n); }
  }

  lemma {:induction false} FramedBytes(relPath: string, body: string)
    ensures ByteLength(Header(relPath) + "\n" + body + "\n") == ByteLength(Header(relPath)) + ByteLength(body) + 2
  {
    ByteLengthAppend(Header(relPath) + "\n" + body, "\n");
    ByteLengthAppend(Header(relPath) + "\n", body);
    ByteLengthAppend(Header(relPath), "\n");
    assert ByteLength("\n") == 1;
  }

  /** The body of an excerpt: the symbol windows, or failing that the head and a footer. */
  ghost function Body(text: string, context: nat, isSymbol: string -> bool): string {
    var lines := SplitLines(text);
    var windows := Windows(lines, context, isSymbol);
    if windows != [] then Join("\n", windows)
    else Join("\n", Take(lines, EXCERPT_HEAD_LINES)) + Footer(ByteLength(text))
  }

  ghost function ExcerptText(text: string, relPath: string, context: nat, isSymbol: string -> bool): string {
    Header(relPath) + "\n" + Body(text, context, isSymbol) + "\n"
  }

  /**
   * An excerpt names its file and shows the windows of its symbol lines; of a file without any it shows at most the
   * first eighty lines and says how long the file is.
   */
  lemma {:induction false} ExcerptSays(text: string, relPath: string, context: nat, isSymbol: string -> bool) returns (shown: seq<string>)
    ensures shown == Windows(SplitLines(text), context, isSymbol)
    ensures shown != [] ==> ExcerptText(text, relPath, context, isSymbol) == "# excerpt from: " + relPath + "\n\n" + Join("\n", shown) + "\n"
    ensures shown == [] ==>
              exists head :: head <= SplitLines(text) && |head| == Min(80, |SplitLines(text)|)
                && ExcerptText(text, relPath, context, isSymbol)
                   == "# excerpt from: " + relPath + "\n\n"
                      + (Join("\n", head) + "\n\U{2026} (excerpt truncated, " + Decimal(ByteLength(text)) + " bytes total)") + "\n"
  {
    hide Windows, SplitLines, Join, ByteLength, Decimal;
    var lines := SplitLines(text);
    shown := Windows(lines, context, isSymbol);
    var head := Take(lines, EXCERPT_HEAD_LINES);
    assert Header(relPath) + "\n" == "# excerpt from: " + relPath + "\n\n";
    var note := "\n\U{2026} (excerpt truncated, " + Decimal(ByteLength(text)) + " bytes total)";
    assert Join("\n", head) + note == Join("\n", head) + "\n\U{2026} (excerpt truncated, " + Decimal(ByteLength(text)) + " bytes total)";
  }

  /** `build_file_excerpt`: the file itself up to the threshold, else its excerpt. */
  method BuildFileExcerpt(file: Option<string>, relPath: string, maxFullBytes: int, context: nat, isSymbol: string -> bool)
    returns (r: Option<Excerpt>)
    ensures r.None? <==> file.None?
    ensures r.Some? ==>
              && r.value.fullBytes == ByteLength(file.value) && r.value.excerptBytes == ByteLength(r.value.text)
              && (r.value.fullSmall <==> r.value.fullBytes <= maxFullBytes)
              && r.value.text == if r.value.fullSmall then file.value else ExcerptText(file.value, relPath, context, isSymbol)
  {
    hide Windows, Header, Footer, ByteLength, SplitLines, Join;
    if file.None? { return None; }
    var text := file.value;
    var fullBytes := ByteLength(text);
    if fullBytes <= maxFullBytes {
      return Some(Excerpt(text, fullBytes, fullBytes, true));
    }
    var lines := SplitLines(text);
    var symbolLines := SymbolWindows(lines, context, isSymbol);
    var body;
    if symbolLines != [] {
      body := Join("\n", symbolLines);
    } else {
      body := Join("\n", Take(lines, EXCERPT_HEAD_LINES)) + Footer(fullBytes);
    }
    var excerpt := Header(relPath) + "\n" + body + "\n";
    r := Some(Excerpt(excerpt, fullBytes, ByteLength(excerpt), false));
  }

  /** Bytes of the file that are in no line shown, line breaks beyond one byte each and the last one included. */
  ghost function Saved(text: string, context: nat, isSymbol: string -> bool): nat {
    var lines := SplitLines(text);
    SplitBytes(text);
    TakeBytes(lines, EXCERPT_HEAD_LINES);
    (ByteLength(text) + 1 - Bytes(lines))
    + if Windows(lines, context, isSymbol) != [] then LeftOut(lines, context, isSymbol)
      else Bytes(lines) - Bytes(Take(lines, EXCERPT_HEAD_LINES))
  }

  /**
   * An excerpt is larger than its file exactly when its header and two line feeds, and the footer where the head is
   * shown, outweigh what the file saves. So it is never larger by more than these. (An empty file is within every threshold.)
   */
  lemma {:induction false} ExcerptGrowsExactly(text: string, relPath: string, context: nat, isSymbol: string -> bool)
    requires text != ""
    ensures var windows := Windows(SplitLines(text), context, isSymbol);
            var added := ByteLength(Header(relPath)) + 2 + if windows != [] then 0 else ByteLength(Footer(ByteLength(text)));
            var excerptBytes := ByteLength(ExcerptText(text, relPath, context, isSymbol));
            && excerptBytes + Saved(text, context, isSymbol) == ByteLength(text) + added
            && (excerptBytes > ByteLength(text) <==> added > Saved(text, context, isSymbol))
  {
    hide Windows, Header, Footer, ByteLength, Bytes, SplitLines, Join, LeftOut;
    var lines := SplitLines(text);
    SplitSome(text);
    SplitBytes(text);
    TakeBytes(lines, EXCERPT_HEAD_LINES);
    FramedBytes(relPath, Body(text, context, isSymbol));
    WindowBytes(lines, context, isSymbol);
    JoinBytes(Windows(lines, context, isSymbol));
    JoinBytes(Take(lines, EXCERPT_HEAD_LINES));
    ByteLengthAppend(Join("\n", Take(lines, EXCERPT_HEAD_LINES)), Footer(ByteLength(text)));
  }

  lemma {:induction false} SplitSome(text: string)
    requires text != ""
    ensures SplitLines(text) != []
  {}

  /** One definition and nothing else: under any path and threshold below its size, the excerpt is larger. */
  lemma {:induction false} OneDefinitionGrows(relPath: string, context: nat, isSymbol: string -> bool)
    requires isSymbol("def a")
    ensures ExcerptText("def a\n", relPath, context, isSymbol) == Header(relPath) + "\ndef a\n"
    ensures ByteLength(ExcerptText("def a\n", relPath, context, isSymbol)) > ByteLength("def a\n") == 6
  {
    OneDefinition();
    DefinitionShown(context, isSymbol);
    hide Windows, Header, SplitLines, Join, ByteLength;
    assert Body("def a\n", context, isSymbol) == Join("\n", ["def a"]);
    JoinOne("def a");
    assert Header(relPath) + "\n" + "def a" + "\n" == Header(relPath) + "\ndef a\n";
    FramedBytes(relPath, "def a");
  }

  lemma {:induction false} JoinOne(s: string)
    ensures Join("\n", [s]) == s
  {}

  lemma {:induction false} DefinitionShown(context: nat, isSymbol: string -> bool)
    requires isSymbol("def a")
    ensures Windows(["def a"], context, isSymbol) == ["def a"]
  {
    var lines := ["def a"];
    assert isSymbol(lines[0]) && 0 - context <= 0 <= 0 + context;
    ShownOne(lines, x => Near(lines, isSymbol, context, x), 0);
  }

  lemma {:induction false} Ascii(s: string)
    requires forall i :: 0 <= i < |s| ==> s[i] as int < 0x80
    ensures ByteLength(s) == |s|
  {
    if s != "" { Ascii(s[1..]); }
  }

  lemma {:induction false} OneDefinition()
    ensures SplitLines("def a\n") == ["def a"] && ByteLength("def a") == 5 && ByteLength("def a\n") == 6
  {
    var line := "def a";
    assert line + "\n" == "def a\n";
    Ascii(line);
    Ascii(line + "\n");
    CutOneLine(line, "\n");
    assert SplitLines("") == [];
  }
}
