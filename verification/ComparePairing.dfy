/** What `pair_dual_capture_events` guarantees for every trace. */
module ComparePairing {
  import opened Sequences
  import opened Sorting
  import opened Compare

  function CountProxy(ps: seq<Pairing>, i: nat): nat {
    if ps == [] then 0 else (if ps[0].pi == Some(i) then 1 else 0) + CountProxy(ps[1..], i)
  }

  function CountBackend(ps: seq<Pairing>, i: nat): nat {
    if ps == [] then 0 else (if ps[0].bi == Some(i) then 1 else 0) + CountBackend(ps[1..], i)
  }

  function CountTwoSided(ps: seq<Pairing>): nat {
    if ps == [] then 0 else (if ps[0].bi.Some? && ps[0].pi.Some? then 1 else 0) + CountTwoSided(ps[1..])
  }

  // ----- Inside one group. -----

  lemma {:induction false} ZipCounts(bs: seq<nat>, ps: seq<nat>, key: Key, i: nat)
    ensures CountProxy(Zip(bs, ps, key), i) == multiset(ps)[i]
    ensures CountBackend(Zip(bs, ps, key), i) == multiset(bs)[i]
    decreases |bs| + |ps|
  {
    if bs != [] || ps != [] {
      ZipCounts(if bs == [] then [] else bs[1..], if ps == [] then [] else ps[1..], key, i);
      if bs != [] { assert bs == [bs[0]] + bs[1..]; }
      if ps != [] { assert ps == [ps[0]] + ps[1..]; }
    }
  }

  lemma {:induction false} RemoveMultiset(xs: seq<nat>, x: nat)
    requires x in xs
    ensures multiset(Remove(xs, x)) == multiset(xs) - multiset{x}
  {
    var k := IndexOf(xs, x);
    assert xs == xs[..k] + [x] + xs[k + 1..];
  }

  lemma {:induction false} LeftoverCounts(free: seq<nat>, key: Key, i: nat)
    ensures CountProxy(Leftover(free, key), i) == 0
    ensures CountBackend(Leftover(free, key), i) == multiset(free)[i]
  {
    if free != [] {
      LeftoverCounts(free[1..], key, i);
      assert free == [free[0]] + free[1..];
    }
  }

  lemma {:induction false} GreedyCounts(ps: seq<nat>, free: seq<nat>, proxies: seq<Event>, backends: seq<Event>, key: Key, i: nat)
    requires Below(ps, |proxies|)
    ensures CountProxy(Greedy(ps, free, proxies, backends, key), i) == multiset(ps)[i]
    ensures CountBackend(Greedy(ps, free, proxies, backends, key), i) == multiset(free)[i]
    decreases ps
  {
    hide Pick, Remove;
    if ps == [] {
      LeftoverCounts(free, key, i);
    } else {
      var c := Pick(proxies[ps[0]], free, backends);
      GreedyCounts(ps[1..], Taking(free, c), proxies, backends, key, i);
      assert ps == [ps[0]] + ps[1..];
      if c.Some? { RemoveMultiset(free, c.value); }
    }
  }

  lemma {:induction false} IncreasingOnce(xs: seq<nat>, i: nat)
    requires Increasing(xs)
    ensures multiset(xs)[i] == if i in xs then 1 else 0
  {
    NoDupMultiset(xs);
    assert i in xs <==> i in multiset(xs);
  }

  lemma {:induction false} GroupCounts(proxies: seq<Event>, backends: seq<Event>, key: Key, i: nat)
    ensures CountProxy(GroupPairs(proxies, backends, key), i)
         == if i < |proxies| && KeyOf(proxies[i]) == key then 1 else 0
    ensures CountBackend(GroupPairs(proxies, backends, key), i)
         == if i < |backends| && KeyOf(backends[i]) == key then 1 else 0
  {
    var ps, bs := Group(proxies, key), Group(backends, key);
    GroupBelow(proxies, key);
    GroupMembers(proxies, key);
    GroupMembers(backends, key);
    IncreasingOnce(ps, i);
    IncreasingOnce(bs, i);
    if key.1.Some? { ZipCounts(bs, ps, key, i); } else { GreedyCounts(ps, bs, proxies, backends, key, i); }
  }

  lemma {:induction false} ZipTwoSided(bs: seq<nat>, ps: seq<nat>, key: Key)
    ensures CountTwoSided(Zip(bs, ps, key)) == Min(|bs|, |ps|)
    decreases |bs| + |ps|
  {
    if bs != [] || ps != [] {
      ZipTwoSided(if bs == [] then [] else bs[1..], if ps == [] then [] else ps[1..], key);
    }
  }

  lemma {:induction false} GreedyTwoSided(ps: seq<nat>, free: seq<nat>, proxies: seq<Event>, backends: seq<Event>, key: Key)
    requires Below(ps, |proxies|)
    ensures CountTwoSided(Greedy(ps, free, proxies, backends, key)) == Min(|ps|, |free|)
    decreases |ps| + |free|
  {
    if ps != [] {
      var c := Pick(proxies[ps[0]], free, backends);
      GreedyTwoSided(ps[1..], Taking(free, c), proxies, backends, key);
      assert c.None? ==> free == [] by { HeadIn(free); }
    } else if free != [] {
      GreedyTwoSided(ps, free[1..], proxies, backends, key);
    }
  }

  /** First come, first served: the t-th row of a keyed group joins the t-th backend and the t-th proxy. */
  lemma {:induction false} ZipIsFifo(bs: seq<nat>, ps: seq<nat>, key: Key)
    ensures |Zip(bs, ps, key)| == Max(|bs|, |ps|)
    ensures forall t :: 0 <= t < Max(|bs|, |ps|) ==>
              Zip(bs, ps, key)[t] == Pairing(if t < |bs| then Some(bs[t]) else None,
                                             if t < |ps| then Some(ps[t]) else None, key)
    decreases |bs| + |ps|
  {
    if bs != [] || ps != [] {
      var bs', ps' := if bs == [] then [] else bs[1..], if ps == [] then [] else ps[1..];
      ZipIsFifo(bs', ps', key);
      var rest := Zip(bs', ps', key);
      forall t | 1 <= t < Max(|bs|, |ps|)
        ensures Zip(bs, ps, key)[t] == Pairing(if t < |bs| then Some(bs[t]) else None,
                                               if t < |ps| then Some(ps[t]) else None, key)
      {
        assert Zip(bs, ps, key)[t] == rest[t - 1];
      }
    }
  }

  /** Backends used by the first `t` rows. */
  function UsedBefore(rows: seq<Pairing>, t: nat): set<nat>
    requires t <= |rows|
  {
    set k | 0 <= k < t && rows[k].bi.Some? :: rows[k].bi.value
  }

  /**
   * Row `t` gives its proxy the best backend still free at that turn: the earliest compatible one if there is one,
   * otherwise the earliest one, and none only if nothing is left.
   */
  ghost predicate BestChoice(rows: seq<Pairing>, t: nat, bs: seq<nat>, proxies: seq<Event>, backends: seq<Event>)
    requires t < |rows| && rows[t].pi.Some? && rows[t].pi.value < |proxies|
  {
    var proxy := proxies[rows[t].pi.value];
    var free := set b | b in bs && b !in UsedBefore(rows, t);
    match rows[t].bi
    case None => free == {}
    case Some(c) =>
      && c in free
      && (forall b :: b in free && Fits(proxy, b, backends) ==> Fits(proxy, c, backends) && c <= b)
      && (!Fits(proxy, c, backends) ==> forall b :: b in free ==> c <= b)
  }

  lemma {:induction false} FirstFitIsLeast(proxy: Event, free: seq<nat>, backends: seq<Event>)
    requires Increasing(free)
    ensures var c := FirstFit(proxy, free, backends);
            c.Some? ==> forall b :: b in free && Fits(proxy, b, backends) ==> c.value <= b
  {
    if free != [] && !Fits(proxy, free[0], backends) {
      FirstFitIsLeast(proxy, free[1..], backends);
    }
  }

  lemma {:induction false} PickIsBest(proxy: Event, free: seq<nat>, backends: seq<Event>)
    requires Increasing(free)
    ensures var c := Pick(proxy, free, backends);
            && (c.None? ==> free == [])
            && (c.Some? ==>
                  && c.value in free
                  && (forall b :: b in free && Fits(proxy, b, backends) ==> Fits(proxy, c.value, backends) && c.value <= b)
                  && (!Fits(proxy, c.value, backends) ==> forall b :: b in free ==> c.value <= b))
  {
    FirstFitIsLeast(proxy, free, backends);
    HeadIn(free);
  }

  lemma {:induction false} GreedyIsBest(ps: seq<nat>, free: seq<nat>, proxies: seq<Event>, backends: seq<Event>, key: Key, t: nat)
    requires Below(ps, |proxies|) && Increasing(free) && t < |ps|
    ensures var rows := Greedy(ps, free, proxies, backends, key);
            t < |rows| && rows[t].pi == Some(ps[t]) && BestChoice(rows, t, free, proxies, backends)
  {
    hide Pick, Remove, Fits, UsedBefore, Increasing;
    var rows := Greedy(ps, free, proxies, backends, key);
    var c := Pick(proxies[ps[0]], free, backends);
    if t == 0 {
      PickIsBest(proxies[ps[0]], free, backends);
      NoneUsed(rows);
    } else {
      var rest := Greedy(ps[1..], Taking(free, c), proxies, backends, key);
      if c.Some? { RemoveIncreasing(free, c.value); }
      GreedyIsBest(ps[1..], Taking(free, c), proxies, backends, key, t - 1);
      assert rows == [Pairing(c, Some(ps[0]), key)] + rest;
      BestShift(rows, rest, t, free, c, proxies, backends);
    }
  }

  lemma {:induction false} NoneUsed(rows: seq<Pairing>)
    ensures UsedBefore(rows, 0) == {}
  {}

  lemma {:induction false} BestShift(rows: seq<Pairing>, rest: seq<Pairing>, t: nat, free: seq<nat>, c: Option<nat>,
                  proxies: seq<Event>, backends: seq<Event>)
    requires 0 < t < |rows| && rest == rows[1..] && rows[0].bi == c
    requires c.Some? ==> c.value in free && Increasing(free)
    requires rows[t].pi.Some? && rows[t].pi.value < |proxies|
    requires BestChoice(rest, t - 1, Taking(free, c), proxies, backends)
    ensures BestChoice(rows, t, free, proxies, backends)
  {
    hide Remove, Fits, UsedBefore;
    if c.Some? { RemoveIncreasing(free, c.value); }
    UsedSplit(rows, rest, t);
    assert (set b | b in free && b !in UsedBefore(rows, t))
        == (set b | b in Taking(free, c) && b !in UsedBefore(rest, t - 1));
  }

  lemma {:induction false} UsedSplit(rows: seq<Pairing>, rest: seq<Pairing>, t: nat)
    requires 0 < t <= |rows| && rest == rows[1..]
    ensures UsedBefore(rows, t)
         == UsedBefore(rest, t - 1) + if rows[0].bi.Some? then {rows[0].bi.value} else {}
  {
    forall b | b in UsedBefore(rest, t - 1) ensures b in UsedBefore(rows, t) {
      var k :| 0 <= k < t - 1 && rest[k].bi == Some(b);
      assert rows[k + 1].bi == Some(b);
    }
    forall b | b in UsedBefore(rows, t) && rows[0].bi != Some(b) ensures b in UsedBefore(rest, t - 1) {
      var k :| 0 <= k < t && rows[k].bi == Some(b);
      assert rest[k - 1].bi == Some(b);
    }
  }

  // ----- Over the whole trace. -----

  lemma {:induction false} CountInGroup(ps: seq<Pairing>, key: Key, i: nat)
    ensures (forall p :: p in ps && p.pi == Some(i) ==> p.key == key) ==> CountProxy(ps, i) == CountProxy(Of(ps, key), i)
    ensures (forall p :: p in ps && p.bi == Some(i) ==> p.key == key) ==> CountBackend(ps, i) == CountBackend(Of(ps, key), i)
  {
    if ps != [] { CountInGroup(ps[1..], key, i); }
  }

  lemma {:induction false} CountPositive(ps: seq<Pairing>, p: Pairing)
    requires p in ps
    ensures p.pi.Some? ==> CountProxy(ps, p.pi.value) > 0
    ensures p.bi.Some? ==> CountBackend(ps, p.bi.value) > 0
  {
    if ps[0] != p { CountPositive(ps[1..], p); }
  }

  /** A row never leaves the group of the events it joins. */
  lemma {:induction false} RowsStayInGroup(calls: seq<Row>, proxies: seq<Event>, backends: seq<Event>, p: Pairing)
    requires IsPairing(calls, proxies, backends) && p in Pairings(calls)
    ensures p.pi.Some? ==> p.pi.value < |proxies| && KeyOf(proxies[p.pi.value]) == p.key
    ensures p.bi.Some? ==> p.bi.value < |backends| && KeyOf(backends[p.bi.value]) == p.key
  {
    OfMember(Pairings(calls), p);
    CountPositive(GroupPairs(proxies, backends, p.key), p);
    if p.pi.Some? { GroupCounts(proxies, backends, p.key, p.pi.value); }
    if p.bi.Some? { GroupCounts(proxies, backends, p.key, p.bi.value); }
  }

  /** Conservation: every proxy event and every backend event is in exactly one row, and no row invents an index. */
  lemma {:induction false} EachEventOnce(calls: seq<Row>, proxies: seq<Event>, backends: seq<Event>, i: nat)
    requires IsPairing(calls, proxies, backends)
    ensures CountProxy(Pairings(calls), i) == if i < |proxies| then 1 else 0
    ensures CountBackend(Pairings(calls), i) == if i < |backends| then 1 else 0
  {
    var ps := Pairings(calls);
    forall p | p in ps
      ensures p.pi == Some(i) ==> i < |proxies| && p.key == KeyOf(proxies[i])
      ensures p.bi == Some(i) ==> i < |backends| && p.key == KeyOf(backends[i])
    {
      RowsStayInGroup(calls, proxies, backends, p);
    }
    var pk := if i < |proxies| then KeyOf(proxies[i]) else (None, None);
    var bk := if i < |backends| then KeyOf(backends[i]) else (None, None);
    CountInGroup(ps, pk, i);
    CountInGroup(ps, bk, i);
    GroupCounts(proxies, backends, pk, i);
    GroupCounts(proxies, backends, bk, i);
  }

  /** Every group is matched as far as it can be, with and without a call index. */
  lemma {:induction false} MaximalPerGroup(calls: seq<Row>, proxies: seq<Event>, backends: seq<Event>, key: Key)
    requires IsPairing(calls, proxies, backends)
    ensures CountTwoSided(Of(Pairings(calls), key)) == Min(|Group(proxies, key)|, |Group(backends, key)|)
  {
    GroupBelow(proxies, key);
    ZipTwoSided(Group(backends, key), Group(proxies, key), key);
    GreedyTwoSided(Group(proxies, key), Group(backends, key), proxies, backends, key);
  }

  /** Events without a call index: in its step, each proxy got the best backend still free at its turn. */
  lemma {:induction false} StepwiseBestChoice(calls: seq<Row>, proxies: seq<Event>, backends: seq<Event>, step: Option<int>, t: nat)
    requires IsPairing(calls, proxies, backends)
    requires t < |Group(proxies, (step, None))|
    ensures var rows := Of(Pairings(calls), (step, None));
            && t < |rows| && rows[t].pi == Some(Group(proxies, (step, None))[t]) && rows[t].pi.value < |proxies|
            && BestChoice(rows, t, Group(backends, (step, None)), proxies, backends)
  {
    var key: Key := (step, None);
    GroupBelow(proxies, key);
    GroupMembers(backends, key);
    GreedyIsBest(Group(proxies, key), Group(backends, key), proxies, backends, key, t);
  }

  function ProxySides(ps: seq<Pairing>): seq<nat> {
    if ps == [] then [] else (if ps[0].pi.Some? then [ps[0].pi.value] else []) + ProxySides(ps[1..])
  }

  function BackendSides(ps: seq<Pairing>): seq<nat> {
    if ps == [] then [] else (if ps[0].bi.Some? then [ps[0].bi.value] else []) + BackendSides(ps[1..])
  }

  lemma {:induction false} SidesCount(ps: seq<Pairing>, i: nat)
    ensures multiset(ProxySides(ps))[i] == CountProxy(ps, i)
    ensures multiset(BackendSides(ps))[i] == CountBackend(ps, i)
  {
    if ps != [] { SidesCount(ps[1..], i); }
  }

  lemma {:induction false} RangeMultiset(n: nat, i: nat)
    ensures multiset(Range(n))[i] == if i < n then 1 else 0
  {
    var r := Range(n);
    IncreasingOnce(r, i);
    assert i < n ==> r[i] == i;
  }

  /** As many rows with a proxy side as proxies, as many with a backend side as backends. */
  lemma {:induction false} SidesComplete(calls: seq<Row>, proxies: seq<Event>, backends: seq<Event>)
    requires IsPairing(calls, proxies, backends)
    ensures |ProxySides(Pairings(calls))| == |proxies|
    ensures |BackendSides(Pairings(calls))| == |backends|
  {
    var ps := Pairings(calls);
    forall i: nat
      ensures multiset(ProxySides(ps))[i] == multiset(Range(|proxies|))[i]
      ensures multiset(BackendSides(ps))[i] == multiset(Range(|backends|))[i]
    {
      EachEventOnce(calls, proxies, backends, i);
      SidesCount(ps, i);
      RangeMultiset(|proxies|, i);
      RangeMultiset(|backends|, i);
    }
    assert multiset(ProxySides(ps)) == multiset(Range(|proxies|));
    assert multiset(BackendSides(ps)) == multiset(Range(|backends|));
    assert |multiset(ProxySides(ps))| == |multiset(Range(|proxies|))|;
    assert |multiset(BackendSides(ps))| == |multiset(Range(|backends|))|;
  }

  lemma {:induction false} StatusCounts(calls: seq<Row>, proxies: seq<Event>, backends: seq<Event>)
    requires forall r :: r in calls ==> InRange(r.pairing, backends, proxies) && r == BuildRow(r.pairing, backends, proxies)
    requires forall r :: r in calls ==> r.pairing.bi.Some? || r.pairing.pi.Some?
    ensures var ps := Pairings(calls);
            var twoSided := CountStatus(calls, Matched) + CountStatus(calls, FieldDiff);
            && twoSided == CountTwoSided(ps)
            && twoSided + CountStatus(calls, ProxyOnly) == |ProxySides(ps)|
            && twoSided + CountStatus(calls, BackendOnly) == |BackendSides(ps)|
            && twoSided + CountStatus(calls, ProxyOnly) + CountStatus(calls, BackendOnly) == |calls|
  {
    if calls != [] {
      StatusCounts(calls[1..], proxies, backends);
      assert Pairings(calls)[1..] == Pairings(calls[1..]);
      assert calls[0] in calls;
    }
  }

  lemma {:induction false} NeverEmpty(calls: seq<Row>, proxies: seq<Event>, backends: seq<Event>, r: Row)
    requires IsPairing(calls, proxies, backends) && r in calls
    ensures r.pairing.bi.Some? || r.pairing.pi.Some?
  {
    var ps := Pairings(calls);
    var k :| 0 <= k < |calls| && calls[k] == r;
    assert ps[k] == r.pairing;
    OfMember(ps, r.pairing);
    var key := r.pairing.key;
    GroupBelow(proxies, key);
    ZipSided(Group(backends, key), Group(proxies, key), key);
    GreedySided(Group(proxies, key), Group(backends, key), proxies, backends, key);
  }

  lemma {:induction false} ZipSided(bs: seq<nat>, ps: seq<nat>, key: Key)
    ensures forall p :: p in Zip(bs, ps, key) ==> p.bi.Some? || p.pi.Some?
    decreases |bs| + |ps|
  {
    if bs != [] || ps != [] {
      ZipSided(if bs == [] then [] else bs[1..], if ps == [] then [] else ps[1..], key);
    }
  }

  lemma {:induction false} GreedySided(ps: seq<nat>, free: seq<nat>, proxies: seq<Event>, backends: seq<Event>, key: Key)
    requires Below(ps, |proxies|)
    ensures forall p :: p in Greedy(ps, free, proxies, backends, key) ==> p.bi.Some? || p.pi.Some?
    decreases |ps| + |free|
  {
    if ps != [] {
      GreedySided(ps[1..], Taking(free, Pick(proxies[ps[0]], free, backends)), proxies, backends, key);
    } else if free != [] {
      GreedySided(ps, free[1..], proxies, backends, key);
    }
  }

  /** The summary adds up: to the number of rows, and side by side to the number of captured events. */
  lemma {:induction false} SummaryAddsUp(calls: seq<Row>, proxies: seq<Event>, backends: seq<Event>)
    requires IsPairing(calls, proxies, backends)
    ensures var twoSided := CountStatus(calls, Matched) + CountStatus(calls, FieldDiff);
            && twoSided == CountTwoSided(Pairings(calls))
            && twoSided + CountStatus(calls, ProxyOnly) == |proxies|
            && twoSided + CountStatus(calls, BackendOnly) == |backends|
            && twoSided + CountStatus(calls, ProxyOnly) + CountStatus(calls, BackendOnly) == |calls|
  {
    forall r | r in calls ensures r.pairing.bi.Some? || r.pairing.pi.Some? {
      NeverEmpty(calls, proxies, backends, r);
    }
    StatusCounts(calls, proxies, backends);
    SidesComplete(calls, proxies, backends);
  }

  /** Model names are compatible when one is missing or ends with the other. */
  lemma {:induction false} CompatibleMeans(left: string, right: string)
    ensures ModelsCompatible(left, right) <==> left == "" || right == "" || exists x :: left == x + right || right == x + left
  {
    if EndsWith(left, right) { assert left == left[..|left| - |right|] + right; }
    if EndsWith(right, left) { assert right == right[..|right| - |left|] + left; }
    forall x | left == x + right || right == x + left ensures ModelsCompatible(left, right) {
      assert left == x + right ==> EndsWith(left, right);
    }
  }

  /** What the field differences of a row name: a model that is no other name of the proxy's, a status code other than 200. */
  lemma {:induction false} DiffsMean(calls: seq<Row>, proxies: seq<Event>, backends: seq<Event>, r: Row)
    requires IsPairing(calls, proxies, backends) && r in calls && r.pairing.bi.Some? && r.pairing.pi.Some?
    ensures InRange(r.pairing, backends, proxies) && |r.fieldDiffs| <= 2
    ensures var b, p := backends[r.pairing.bi.value], proxies[r.pairing.pi.value];
            && ("model" in r.fieldDiffs <==>
                  b.model != "" && p.model != "" && forall x :: b.model != x + p.model && p.model != x + b.model)
            && ("status_code" in r.fieldDiffs <==> b.hasUsage && p.statusCode.Some? && p.statusCode.value != 200)
            && (r.status == FieldDiff <==> r.fieldDiffs != [])
            && forall d :: d in r.fieldDiffs ==> d == "model" || d == "status_code"
  {
    CompatibleMeans(backends[r.pairing.bi.value].model, proxies[r.pairing.pi.value].model);
    hide ModelsCompatible;
  }

  /** What a row's status says about the events it joins. */
  lemma {:induction false} StatusMeans(calls: seq<Row>, proxies: seq<Event>, backends: seq<Event>, r: Row)
    requires IsPairing(calls, proxies, backends) && r in calls
    ensures InRange(r.pairing, backends, proxies)
    ensures r.status == ProxyOnly <==> r.pairing.bi.None?
    ensures r.status == BackendOnly <==> r.pairing.pi.None?
    ensures r.status == Matched <==>
              && r.pairing.bi.Some? && r.pairing.pi.Some?
              && var b, p := backends[r.pairing.bi.value], proxies[r.pairing.pi.value];
                 ModelsCompatible(b.model, p.model) && !(b.hasUsage && p.statusCode.Some? && p.statusCode.value != 200)
    ensures r.status != FieldDiff ==> r.fieldDiffs == []
  {
    NeverEmpty(calls, proxies, backends, r);
  }

  lemma {:induction false} OfKeyed(ps: seq<Pairing>, key: Key)
    ensures forall p :: p in Of(ps, key) <==> p in ps && p.key == key
  {
    if ps != [] { OfKeyed(ps[1..], key); }
  }

  ghost predicate SortedPairings(ps: seq<Pairing>) {
    forall i, j :: 0 <= i < j < |ps| ==> KeyLe(ps[i].key, ps[j].key)
  }

  lemma {:induction false} SortedByGroups(xs: seq<Pairing>, ys: seq<Pairing>)
    requires SortedPairings(xs) && SortedPairings(ys)
    requires forall key :: Of(xs, key) == Of(ys, key)
    ensures xs == ys
  {
    if xs == [] || ys == [] {
      if xs != [] { GroupNotEmpty(xs, ys); }
      if ys != [] { GroupNotEmpty(ys, xs); }
    } else {
      var kx, ky := xs[0].key, ys[0].key;
      OfKeyed(xs, ky);
      OfKeyed(ys, kx);
      OfKeyed(xs, kx);
      OfKeyed(ys, ky);
      assert xs[0] in ys && ys[0] in xs;
      assert KeyLe(kx, ky) && KeyLe(ky, kx);
      assert Of(xs, kx)[0] == xs[0] && Of(ys, kx)[0] == ys[0];
      forall key ensures Of(xs[1..], key) == Of(ys[1..], key) {
        assert Of(xs[1..], key) == if kx == key then Of(xs, key)[1..] else Of(xs, key);
        assert Of(ys[1..], key) == if ky == key then Of(ys, key)[1..] else Of(ys, key);
      }
      SortedByGroups(xs[1..], ys[1..]);
    }
  }

  lemma {:induction false} GroupNotEmpty(xs: seq<Pairing>, ys: seq<Pairing>)
    requires xs != [] && forall key :: Of(xs, key) == Of(ys, key)
    ensures ys != []
  {
    OfMember(xs, xs[0]);
    OfKeyed(ys, xs[0].key);
  }

  /** The promise leaves no freedom: at most one call list meets it. */
  lemma {:induction false} PairingDetermined(calls: seq<Row>, calls': seq<Row>, proxies: seq<Event>, backends: seq<Event>)
    requires IsPairing(calls, proxies, backends) && IsPairing(calls', proxies, backends)
    ensures calls == calls'
  {
    var xs, ys := Pairings(calls), Pairings(calls');
    forall key ensures Of(xs, key) == Of(ys, key) {}
    SortedByGroups(xs, ys);
    forall i | 0 <= i < |calls| ensures calls[i] == calls'[i] {
      assert xs[i] == calls[i].pairing && ys[i] == calls'[i].pairing;
      assert calls[i] in calls && calls'[i] in calls';
    }
  }
}
