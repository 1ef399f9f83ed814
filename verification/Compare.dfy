/** Dual-capture pairing of proxy and backend trace events: core/cli/compare.py. */
module Compare {
  import opened Sequences
  import opened Sorting

  datatype Kind = ProxyCall | BackendCall | OtherRecord

  /** The fields of a trace record that pairing reads. An absent model is "". */
  datatype Event = Event(kind: Kind, step: Option<int>, call: Option<int>, model: string,
                         hasUsage: bool, statusCode: Option<int>)

  type Key = (Option<int>, Option<int>)

  /** One row before rendering: a backend index, a proxy index, and the group they came from. */
  datatype Pairing = Pairing(bi: Option<nat>, pi: Option<nat>, key: Key)

  datatype Status = Matched | FieldDiff | ProxyOnly | BackendOnly

  datatype Row = Row(pairing: Pairing, status: Status, fieldDiffs: seq<string>)

  datatype Summary = Summary(totalCalls: nat, matched: nat, proxyOnly: nat, backendOnly: nat, fieldDiff: nat)

  function KeyOf(e: Event): Key { (e.step, e.call) }

  predicate EndsWith(s: string, suffix: string) {
    |suffix| <= |s| && s[|s| - |suffix|..] == suffix
  }

  predicate ModelsCompatible(left: string, right: string) {
    left == "" || right == "" || left == right || EndsWith(left, right) || EndsWith(right, left)
  }

  function FieldDiffs(backend: Option<Event>, proxy: Option<Event>): seq<string> {
    if backend.None? || proxy.None? then []
    else
      var b, p := backend.value, proxy.value;
      (if b.model != "" && p.model != "" && !ModelsCompatible(b.model, p.model) then ["model"] else [])
      + (if b.hasUsage && p.statusCode.Some? && p.statusCode.value != 200 then ["status_code"] else [])
  }

  function RowStatus(backend: Option<Event>, proxy: Option<Event>, diffs: seq<string>): Status {
    if backend.Some? && proxy.Some? then (if diffs != [] then FieldDiff else Matched)
    else if proxy.Some? then ProxyOnly
    else if backend.Some? then BackendOnly
    else Matched
  }

  predicate InRange(p: Pairing, backends: seq<Event>, proxies: seq<Event>) {
    (p.bi.Some? ==> p.bi.value < |backends|) && (p.pi.Some? ==> p.pi.value < |proxies|)
  }

  function BuildRow(p: Pairing, backends: seq<Event>, proxies: seq<Event>): Row
    requires InRange(p, backends, proxies)
  {
    var backend := if p.bi.Some? then Some(backends[p.bi.value]) else None;
    var proxy := if p.pi.Some? then Some(proxies[p.pi.value]) else None;
    var diffs := FieldDiffs(backend, proxy);
    Row(p, RowStatus(backend, proxy, diffs), diffs)
  }

  // ----- Sort keys: None goes last. -----

  predicate OptLe(a: Option<int>, b: Option<int>) {
    b.None? || (a.Some? && a.value <= b.value)
  }

  predicate KeyLe(a: Key, b: Key) {
    OptLe(a.0, b.0) && (a.0 == b.0 ==> OptLe(a.1, b.1))
  }

  predicate RowLe(a: Row, b: Row) { KeyLe(a.pairing.key, b.pairing.key) }

  // ----- What pairing should produce, group by group. -----

  /** Positions of the events with this key, in trace order. */
  function Group(es: seq<Event>, key: Key): seq<nat> {
    if es == [] then []
    else
      var n := |es| - 1;
      Group(es[..n], key) + (if KeyOf(es[n]) == key then [n] else [])
  }

  lemma {:induction false} GroupMembers(es: seq<Event>, key: Key)
    ensures forall i: nat :: i in Group(es, key) <==> i < |es| && KeyOf(es[i]) == key
    ensures Increasing(Group(es, key))
  {
    if es != [] {
      var n := |es| - 1;
      GroupMembers(es[..n], key);
      var g := Group(es[..n], key);
      forall k | 0 <= k < |g| ensures g[k] < n {
        assert g[k] in g;
      }
    }
  }

  lemma {:induction false} GroupStep(es: seq<Event>, idx: nat, key: Key)
    requires idx < |es|
    ensures Group(es[..idx + 1], key) == Group(es[..idx], key) + (if KeyOf(es[idx]) == key then [idx] else [])
  {
    assert es[..idx + 1][..idx] == es[..idx];
  }

  predicate Below(ps: seq<nat>, n: nat) {
    forall k :: 0 <= k < |ps| ==> ps[k] < n
  }

  /** Events with a call index are matched first come, first served. */
  function Zip(bs: seq<nat>, ps: seq<nat>, key: Key): seq<Pairing>
    decreases |bs| + |ps|
  {
    if bs == [] && ps == [] then []
    else
      [Pairing(if bs == [] then None else Some(bs[0]), if ps == [] then None else Some(ps[0]), key)]
      + Zip(if bs == [] then [] else bs[1..], if ps == [] then [] else ps[1..], key)
  }

  predicate Fits(proxy: Event, bi: nat, backends: seq<Event>) {
    bi < |backends| && ModelsCompatible(proxy.model, backends[bi].model)
  }

  /** The first compatible candidate, or failing that the first candidate. */
  function Pick(proxy: Event, free: seq<nat>, backends: seq<Event>): (c: Option<nat>)
    ensures c.Some? ==> c.value in free
  {
    if exists b :: b in free && Fits(proxy, b, backends) then FirstFit(proxy, free, backends)
    else if free == [] then None
    else Some(free[0])
  }

  function FirstFit(proxy: Event, free: seq<nat>, backends: seq<Event>): (c: Option<nat>)
    ensures c.Some? <==> exists b :: b in free && Fits(proxy, b, backends)
    ensures c.Some? ==> c.value in free && Fits(proxy, c.value, backends)
  {
    if free == [] then None
    else if Fits(proxy, free[0], backends) then Some(free[0])
    else FirstFit(proxy, free[1..], backends)
  }

  /** The candidates left after one choice. */
  function Taking(free: seq<nat>, c: Option<nat>): seq<nat>
    requires c.Some? ==> c.value in free
  {
    if c.Some? then Remove(free, c.value) else free
  }

  /** Events without a call index: each proxy in turn takes a backend of its step. */
  function Greedy(ps: seq<nat>, free: seq<nat>, proxies: seq<Event>, backends: seq<Event>, key: Key): seq<Pairing>
    requires Below(ps, |proxies|)
  {
    if ps == [] then Leftover(free, key)
    else
      var c := Pick(proxies[ps[0]], free, backends);
      [Pairing(c, Some(ps[0]), key)]
      + Greedy(ps[1..], Taking(free, c), proxies, backends, key)
  }

  function Leftover(free: seq<nat>, key: Key): seq<Pairing> {
    if free == [] then [] else [Pairing(Some(free[0]), None, key)] + Leftover(free[1..], key)
  }

  lemma {:induction false} GroupBelow(es: seq<Event>, key: Key)
    ensures Below(Group(es, key), |es|)
  {
    GroupMembers(es, key);
    var g := Group(es, key);
    forall k | 0 <= k < |g| ensures g[k] < |es| {
      assert g[k] in g;
    }
  }

  function GroupPairs(proxies: seq<Event>, backends: seq<Event>, key: Key): seq<Pairing> {
    if key.1.Some? then Zip(Group(backends, key), Group(proxies, key), key)
    else
      GroupBelow(proxies, key);
      Greedy(Group(proxies, key), Group(backends, key), proxies, backends, key)
  }

  /** The pairings of one group, in order. */
  function Of(ps: seq<Pairing>, key: Key): (r: seq<Pairing>)
  {
    if ps == [] then []
    else if ps[0].key == key then [ps[0]] + Of(ps[1..], key)
    else Of(ps[1..], key)
  }

  lemma {:induction false} OfAppend(xs: seq<Pairing>, ys: seq<Pairing>, key: Key)
    ensures Of(xs + ys, key) == Of(xs, key) + Of(ys, key)
  {
    if xs == [] {
      assert xs + ys == ys;
    } else {
      assert (xs + ys)[1..] == xs[1..] + ys;
      OfAppend(xs[1..], ys, key);
    }
  }

  // ----- The algorithm. -----

  ghost predicate IsIndex(byKey: map<Key, seq<nat>>, es: seq<Event>) {
    && (forall k :: k in byKey ==> k.1.Some? && byKey[k] == Group(es, k))
    && (forall i :: 0 <= i < |es| && es[i].call.Some? ==> KeyOf(es[i]) in byKey)
  }

  /** Positions of the keyed events, per key: the two `setdefault(key, []).append(idx)` loops. */
  method IndexByKey(es: seq<Event>) returns (byKey: map<Key, seq<nat>>)
    ensures IsIndex(byKey, es)
  {
    byKey := map[];
    for idx := 0 to |es|
      invariant forall k :: k in byKey ==> k.1.Some? && byKey[k] == Group(es[..idx], k)
      invariant forall k: Key :: k.1.Some? && k !in byKey ==> Group(es[..idx], k) == []
      invariant forall i :: 0 <= i < idx && es[i].call.Some? ==> KeyOf(es[i]) in byKey
    {
      forall k: Key ensures Group(es[..idx + 1], k) == Group(es[..idx], k) + (if KeyOf(es[idx]) == k then [idx] else []) {
        GroupStep(es, idx, k);
      }
      if es[idx].call.None? { continue; }
      var key := KeyOf(es[idx]);
      byKey := byKey[key := (if key in byKey then byKey[key] else []) + [idx]];
    }
    assert es[..|es|] == es;
  }

  lemma {:induction false} KeyLeTotal()
    ensures TotalPreorder(KeyLe)
  {}

  /** By step, then by call; absent ones last, present ones by value. */
  lemma {:induction false} KeysInOrder()
    ensures forall a: Key, b: Key :: KeyLe(a, b) ==>
              && (a.0.None? ==> b.0.None?)
              && (a.0.Some? && b.0.Some? ==> a.0.value <= b.0.value)
              && (a.0 == b.0 && a.1.None? ==> b.1.None?)
              && (a.0 == b.0 && a.1.Some? && b.1.Some? ==> a.1.value <= b.1.value)
  {}

  /** The rows of a payload go by step, then by call; rows without a step come last, and of one step those without a call. */
  lemma {:induction false} CallsInOrder(calls: seq<Row>, proxies: seq<Event>, backends: seq<Event>, i: nat, j: nat)
    requires IsPairing(calls, proxies, backends) && i < j < |calls|
    ensures var (step, call), (step', call') := calls[i].pairing.key, calls[j].pairing.key;
            && (step.None? ==> step'.None?)
            && (step.Some? && step'.Some? ==> step.value <= step'.value)
            && (step == step' && call.None? ==> call'.None?)
            && (step == step' && call.Some? && call'.Some? ==> call.value <= call'.value)
  {
    assert RowLe(calls[i], calls[j]);
    KeysInOrder();
  }

  ghost predicate AbsentLast(ks: seq<Key>) {
    forall i, j :: 0 <= i < j < |ks| ==>
      && (ks[i].0.None? ==> ks[j].0.None?)
      && (ks[i].0.Some? && ks[j].0.Some? ==> ks[i].0.value <= ks[j].0.value)
      && (ks[i].0 == ks[j].0 && ks[i].1.None? ==> ks[j].1.None?)
      && (ks[i].0 == ks[j].0 && ks[i].1.Some? && ks[j].1.Some? ==> ks[i].1.value <= ks[j].1.value)
  }

  method SortedKeys(s: set<Key>) returns (ks: seq<Key>)
    ensures NoDup(ks) && SortedBy(ks, KeyLe)
    ensures forall k :: k in ks <==> k in s
    ensures AbsentLast(ks)
  {
    KeysInOrder();
    hide KeyLe;
    var xs := Enumerate(s);
    ks := StableSort(xs, KeyLe);
    KeyLeTotal();
    SortSorts(xs, KeyLe);
    SortNoDup(xs, KeyLe);
  }

  /** `u` holds, in order, the events whose group is not yet done; of group `key` only those in `rest`. */
  ghost predicate Unmatched(u: seq<nat>, es: seq<Event>, done: set<Key>, key: Key, rest: seq<nat>) {
    && Increasing(u)
    && forall i: nat :: i in u <==>
         i < |es| && KeyOf(es[i]) !in done && (KeyOf(es[i]) == key ==> i in rest)
  }

  /** `rest` is what remains to be handled of a group. */
  ghost predicate PartOfGroup(rest: seq<nat>, es: seq<Event>, key: Key) {
    && Increasing(rest)
    && forall i: nat :: i in rest ==> i < |es| && KeyOf(es[i]) == key
  }

  lemma {:induction false} UnmatchedRemove(u: seq<nat>, es: seq<Event>, done: set<Key>, key: Key, rest: seq<nat>, i: nat, rest': seq<nat>)
    requires Unmatched(u, es, done, key, rest) && key !in done
    requires PartOfGroup(rest, es, key) && i in rest
    requires forall j: nat :: j in rest' <==> j in rest && j != i
    ensures i in u && Unmatched(Remove(u, i), es, done, key, rest')
  {
    RemoveIncreasing(u, i);
  }

  /** Popping the head of an increasing list drops exactly that element. */
  lemma {:induction false} PopHead(rest: seq<nat>, es: seq<Event>, key: Key)
    requires rest != [] && PartOfGroup(rest, es, key)
    ensures PartOfGroup(rest[1..], es, key)
    ensures forall j: nat :: j in rest[1..] <==> j in rest && j != rest[0]
    ensures rest[0] < |es| && KeyOf(es[rest[0]]) == key
  {
    assert rest == [rest[0]] + rest[1..];
    assert forall j: nat :: j in rest[1..] ==> j in rest;
  }

  /** Between groups: `u` holds, in order, exactly the events whose group is not yet done. */
  ghost predicate Pending(u: seq<nat>, es: seq<Event>, done: set<Key>) {
    && Increasing(u)
    && forall i: nat :: i in u <==> i < |es| && KeyOf(es[i]) !in done
  }

  lemma {:induction false} EnterGroup(u: seq<nat>, es: seq<Event>, done: set<Key>, key: Key)
    requires Pending(u, es, done)
    ensures Unmatched(u, es, done, key, Group(es, key)) && PartOfGroup(Group(es, key), es, key)
  {
    GroupMembers(es, key);
  }

  lemma {:induction false} LeaveGroup(u: seq<nat>, es: seq<Event>, done: set<Key>, key: Key)
    requires Unmatched(u, es, done, key, [])
    ensures Pending(u, es, done + {key})
  {}

  /** The inner `while proxy_idxs or backend_idxs` loop. */
  method PairKey(proxies: seq<Event>, backends: seq<Event>, key: Key, proxyIdxs: seq<nat>, backendIdxs: seq<nat>,
                 pairings0: seq<Pairing>, unmatchedProxy0: seq<nat>, unmatchedBackend0: seq<nat>,
                 ghost done: set<Key>)
    returns (pairings: seq<Pairing>, unmatchedProxy: seq<nat>, unmatchedBackend: seq<nat>)
    requires key !in done
    requires PartOfGroup(proxyIdxs, proxies, key) && PartOfGroup(backendIdxs, backends, key)
    requires Unmatched(unmatchedProxy0, proxies, done, key, proxyIdxs)
    requires Unmatched(unmatchedBackend0, backends, done, key, backendIdxs)
    ensures pairings == pairings0 + Zip(backendIdxs, proxyIdxs, key)
    ensures Unmatched(unmatchedProxy, proxies, done, key, [])
    ensures Unmatched(unmatchedBackend, backends, done, key, [])
  {
    pairings, unmatchedProxy, unmatchedBackend := pairings0, unmatchedProxy0, unmatchedBackend0;
    var ps, bs := proxyIdxs, backendIdxs;
    while ps != [] || bs != []
      invariant pairings + Zip(bs, ps, key) == pairings0 + Zip(backendIdxs, proxyIdxs, key)
      invariant PartOfGroup(ps, proxies, key) && PartOfGroup(bs, backends, key)
      invariant Unmatched(unmatchedProxy, proxies, done, key, ps)
      invariant Unmatched(unmatchedBackend, backends, done, key, bs)
      decreases |ps| + |bs|
    {
      var pi, bi := None, None;
      if ps != [] {
        PopHead(ps, proxies, key);
        pi := Some(ps[0]);
        UnmatchedRemove(unmatchedProxy, proxies, done, key, ps, ps[0], ps[1..]);
        unmatchedProxy := Remove(unmatchedProxy, ps[0]);
      }
      if bs != [] {
        PopHead(bs, backends, key);
        bi := Some(bs[0]);
        UnmatchedRemove(unmatchedBackend, backends, done, key, bs, bs[0], bs[1..]);
        unmatchedBackend := Remove(unmatchedBackend, bs[0]);
      }
      ghost var ps', bs' := if ps == [] then [] else ps[1..], if bs == [] then [] else bs[1..];
      assert pairings + Zip(bs, ps, key) == (pairings + [Pairing(bi, pi, key)]) + Zip(bs', ps', key);
      pairings := pairings + [Pairing(bi, pi, key)];
      if ps != [] { ps := ps[1..]; }
      if bs != [] { bs := bs[1..]; }
    }
  }

  lemma {:induction false} OfZip(bs: seq<nat>, ps: seq<nat>, key: Key, k: Key)
    ensures Of(Zip(bs, ps, key), k) == if k == key then Zip(bs, ps, key) else []
    decreases |bs| + |ps|
  {
    if bs != [] || ps != [] {
      OfZip(if bs == [] then [] else bs[1..], if ps == [] then [] else ps[1..], key, k);
    }
  }

  function At(byKey: map<Key, seq<nat>>, key: Key): seq<nat> {
    if key in byKey then byKey[key] else []
  }

  /** Every group in `done` has been paired, nothing else has. */
  ghost predicate Paired(pairings: seq<Pairing>, proxies: seq<Event>, backends: seq<Event>, done: set<Key>) {
    forall k :: Of(pairings, k) == if k in done then GroupPairs(proxies, backends, k) else []
  }

  lemma {:induction false} NoMembers(xs: seq<nat>)
    requires forall i: nat :: i !in xs
    ensures xs == []
  {
    HeadIn(xs);
  }

  /** Lookup in an index built by IndexByKey gives the whole group. */
  lemma {:induction false} AtIsGroup(byKey: map<Key, seq<nat>>, es: seq<Event>, key: Key)
    requires key.1.Some?
    requires IsIndex(byKey, es)
    ensures At(byKey, key) == Group(es, key)
  {
    if key !in byKey {
      GroupMembers(es, key);
      assert forall i: nat :: i !in Group(es, key);
      NoMembers(Group(es, key));
    }
  }

  lemma {:induction false} PairedNone(proxies: seq<Event>, backends: seq<Event>)
    ensures Paired([], proxies, backends, {})
  {}

  lemma {:induction false} PairedNext(before: seq<Pairing>, added: seq<Pairing>, proxies: seq<Event>, backends: seq<Event>,
                   done: set<Key>, key: Key)
    requires Paired(before, proxies, backends, done) && key !in done
    requires added == GroupPairs(proxies, backends, key)
    requires forall k :: Of(added, k) == if k == key then added else []
    ensures Paired(before + added, proxies, backends, done + {key})
  {
    forall k ensures Of(before + added, k) == if k in done + {key} then GroupPairs(proxies, backends, k) else [] {
      OfAppend(before, added, k);
    }
  }

  /** The step of phase one for one key. */
  method PairGroup(proxies: seq<Event>, backends: seq<Event>, key: Key,
                   proxyByKey: map<Key, seq<nat>>, backendByKey: map<Key, seq<nat>>,
                   pairings0: seq<Pairing>, unmatchedProxy0: seq<nat>, unmatchedBackend0: seq<nat>, ghost done: set<Key>)
    returns (pairings: seq<Pairing>, unmatchedProxy: seq<nat>, unmatchedBackend: seq<nat>)
    requires IsIndex(proxyByKey, proxies) && IsIndex(backendByKey, backends)
    requires key.1.Some? && key !in done
    requires Paired(pairings0, proxies, backends, done)
    requires Pending(unmatchedProxy0, proxies, done) && Pending(unmatchedBackend0, backends, done)
    ensures Paired(pairings, proxies, backends, done + {key})
    ensures Pending(unmatchedProxy, proxies, done + {key}) && Pending(unmatchedBackend, backends, done + {key})
  {
    AtIsGroup(proxyByKey, proxies, key);
    AtIsGroup(backendByKey, backends, key);
    EnterGroup(unmatchedProxy0, proxies, done, key);
    EnterGroup(unmatchedBackend0, backends, done, key);
    pairings, unmatchedProxy, unmatchedBackend :=
      PairKey(proxies, backends, key, At(proxyByKey, key), At(backendByKey, key),
              pairings0, unmatchedProxy0, unmatchedBackend0, done);
    LeaveGroup(unmatchedProxy, proxies, done, key);
    LeaveGroup(unmatchedBackend, backends, done, key);
    ghost var added := GroupPairs(proxies, backends, key);
    forall k ensures Of(added, k) == if k == key then added else [] {
      OfZip(Group(backends, key), Group(proxies, key), key, k);
    }
    PairedNext(pairings0, added, proxies, backends, done, key);
  }

  lemma {:induction false} KeysCover(es: seq<Event>, byKey: map<Key, seq<nat>>, done: set<Key>)
    requires IsIndex(byKey, es) && byKey.Keys <= done
    requires forall k: Key :: k in done ==> k.1.Some?
    ensures Unkeyed(es, done)
  {}

  /** Every group with a call index is paired, the events of the others are still unmatched. */
  ghost predicate KeyedPaired(pairings: seq<Pairing>, unmatchedProxy: seq<nat>, unmatchedBackend: seq<nat>,
                              proxies: seq<Event>, backends: seq<Event>, done: set<Key>) {
    && Paired(pairings, proxies, backends, done)
    && Pending(unmatchedProxy, proxies, done) && Pending(unmatchedBackend, backends, done)
    && Unkeyed(proxies, done) && Unkeyed(backends, done)
  }

  /** Phase one: pair the events that carry a call index, key by key in sorted order. */
  method PhaseOne(proxies: seq<Event>, backends: seq<Event>, proxyIdx: seq<nat>, backendIdx: seq<nat>)
    returns (pairings: seq<Pairing>, unmatchedProxy: seq<nat>, unmatchedBackend: seq<nat>)
    requires Pending(proxyIdx, proxies, {}) && Pending(backendIdx, backends, {})
    ensures exists done :: KeyedPaired(pairings, unmatchedProxy, unmatchedBackend, proxies, backends, done)
  {
    hide Paired, Pending, KeyLe, Unkeyed, AbsentLast, SortedBy;
    ghost var done: set<Key>;
    var proxyByKey := IndexByKey(proxies);
    var backendByKey := IndexByKey(backends);
    var keys := SortedKeys(proxyByKey.Keys + backendByKey.Keys);
    pairings, unmatchedProxy, unmatchedBackend, done := [], proxyIdx, backendIdx, {};
    PairedNone(proxies, backends);
    for n := 0 to |keys|
      invariant forall m :: 0 <= m < |keys| ==> (keys[m] in done <==> m < n)
      invariant forall k: Key :: k in done ==> k.1.Some?
      invariant Paired(pairings, proxies, backends, done)
      invariant Pending(unmatchedProxy, proxies, done) && Pending(unmatchedBackend, backends, done)
    {
      var key := keys[n];
      assert key in keys;
      pairings, unmatchedProxy, unmatchedBackend :=
        PairGroup(proxies, backends, key, proxyByKey, backendByKey, pairings, unmatchedProxy, unmatchedBackend, done);
      done := done + {key};
    }
    KeysCover(proxies, proxyByKey, done);
    KeysCover(backends, backendByKey, done);
    assert KeyedPaired(pairings, unmatchedProxy, unmatchedBackend, proxies, backends, done);
  }

  // ----- Phase two. -----

  /** The candidates not yet taken, in order. */
  function Without(bs: seq<nat>, used: set<nat>): seq<nat> {
    if bs == [] then []
    else (if bs[0] in used then [] else [bs[0]]) + Without(bs[1..], used)
  }

  lemma {:induction false} WithoutMembers(bs: seq<nat>, used: set<nat>)
    ensures forall b :: b in Without(bs, used) <==> b in bs && b !in used
  {
    if bs != [] {
      WithoutMembers(bs[1..], used);
    }
  }

  lemma {:induction false} WithoutIncreasing(bs: seq<nat>, used: set<nat>)
    requires Increasing(bs)
    ensures Increasing(Without(bs, used))
  {
    if bs != [] {
      WithoutIncreasing(bs[1..], used);
      WithoutMembers(bs[1..], used);
      var w := Without(bs[1..], used);
      forall k | 0 <= k < |w| ensures bs[0] < w[k] {
        assert w[k] in w;
        assert w[k] in bs[1..];
      }
    }
  }

  lemma {:induction false} WithoutTake(bs: seq<nat>, used: set<nat>, c: nat)
    requires Increasing(bs) && c in bs && c !in used
    ensures c in Without(bs, used)
    ensures Without(bs, used + {c}) == Remove(Without(bs, used), c)
  {
    WithoutMembers(bs, used);
    WithoutMembers(bs, used + {c});
    WithoutIncreasing(bs, used);
    WithoutIncreasing(bs, used + {c});
    RemoveIncreasing(Without(bs, used), c);
    IncreasingUnique(Without(bs, used + {c}), Remove(Without(bs, used), c));
  }

  lemma {:induction false} WithoutAppend(xs: seq<nat>, ys: seq<nat>, used: set<nat>)
    ensures Without(xs + ys, used) == Without(xs, used) + Without(ys, used)
  {
    if xs == [] {
      assert xs + ys == ys;
    } else {
      assert (xs + ys)[1..] == xs[1..] + ys;
      WithoutAppend(xs[1..], ys, used);
    }
  }

  lemma {:induction false} FirstFitSkips(proxy: Event, xs: seq<nat>, ys: seq<nat>, backends: seq<Event>)
    requires forall b :: b in xs ==> !Fits(proxy, b, backends)
    ensures FirstFit(proxy, xs + ys, backends) == FirstFit(proxy, ys, backends)
  {
    if xs == [] {
      assert xs + ys == ys;
    } else {
      assert (xs + ys)[1..] == xs[1..] + ys;
      FirstFitSkips(proxy, xs[1..], ys, backends);
    }
  }

  /** One step of a scan over the candidates. */
  lemma {:induction false} ScanStep(bs: seq<nat>, used: set<nat>, n: nat)
    requires n < |bs|
    ensures bs[n] in used ==> Without(bs[..n + 1], used) == Without(bs[..n], used)
    ensures bs[n] !in used ==> Without(bs[..n + 1], used) == Without(bs[..n], used) + [bs[n]]
    ensures bs[n] !in used ==> Without(bs, used) == Without(bs[..n], used) + ([bs[n]] + Without(bs[n + 1..], used))
  {
    assert bs == bs[..n] + bs[n..] && bs[n..][1..] == bs[n + 1..];
    WithoutAppend(bs[..n], bs[n..], used);
    assert bs[..n + 1] == bs[..n] + [bs[n]];
    WithoutAppend(bs[..n], [bs[n]], used);
  }

  lemma {:induction false} FoundFit(proxy: Event, xs: seq<nat>, b: nat, ys: seq<nat>, backends: seq<Event>)
    requires forall x :: x in xs ==> !Fits(proxy, x, backends)
    requires Fits(proxy, b, backends)
    ensures Pick(proxy, xs + ([b] + ys), backends) == Some(b)
  {
    FirstFitSkips(proxy, xs, [b] + ys, backends);
    assert b in xs + ([b] + ys);
  }

  lemma {:induction false} WithoutEmpty(used: set<nat>)
    ensures Without([], used) == []
  {}

  /** The two inner `for bi in backend_idxs` loops that choose a backend for one proxy. */
  method Choose(proxy: Event, backendIdxs: seq<nat>, used: set<nat>, backends: seq<Event>) returns (chosen: Option<nat>)
    requires Below(backendIdxs, |backends|)
    ensures chosen == Pick(proxy, Without(backendIdxs, used), backends)
  {
    hide Without, ModelsCompatible, FirstFit;
    WithoutEmpty(used);
    chosen := None;
    for n := 0 to |backendIdxs|
      invariant chosen == None
      invariant forall b :: b in Without(backendIdxs[..n], used) ==> !Fits(proxy, b, backends)
    {
      var bi := backendIdxs[n];
      ScanStep(backendIdxs, used, n);
      if bi in used { continue; }
      if ModelsCompatible(proxy.model, backends[bi].model) {
        FoundFit(proxy, Without(backendIdxs[..n], used), bi, Without(backendIdxs[n + 1..], used), backends);
        return Some(bi);
      }
    }
    assert backendIdxs[..|backendIdxs|] == backendIdxs;
    for n := 0 to |backendIdxs|
      invariant chosen == None
      invariant Without(backendIdxs[..n], used) == []
    {
      var bi := backendIdxs[n];
      ScanStep(backendIdxs, used, n);
      if bi !in used { return Some(bi); }
    }
  }

  lemma {:induction false} PartBelow(rest: seq<nat>, es: seq<Event>, key: Key)
    requires PartOfGroup(rest, es, key)
    ensures Below(rest, |es|)
  {
    assert forall k :: 0 <= k < |rest| ==> rest[k] in rest;
  }

  lemma {:induction false} PartWithout(bs: seq<nat>, used: set<nat>, es: seq<Event>, key: Key)
    requires PartOfGroup(bs, es, key)
    ensures PartOfGroup(Without(bs, used), es, key)
  {
    WithoutMembers(bs, used);
    WithoutIncreasing(bs, used);
  }

  lemma {:induction false} WithoutNothing(bs: seq<nat>)
    ensures Without(bs, {}) == bs
  {
    if bs != [] { WithoutNothing(bs[1..]); }
  }

  /** Handing out one free backend of the step. */
  lemma {:induction false} TakeBackend(u: seq<nat>, es: seq<Event>, done: set<Key>, key: Key, bs: seq<nat>, used: set<nat>, c: nat)
    requires PartOfGroup(bs, es, key) && key !in done
    requires Unmatched(u, es, done, key, Without(bs, used))
    requires c in Without(bs, used)
    ensures c in u && Unmatched(Remove(u, c), es, done, key, Without(bs, used + {c}))
    ensures Without(bs, used + {c}) == Remove(Without(bs, used), c)
  {
    WithoutMembers(bs, used);
    WithoutTake(bs, used, c);
    PartWithout(bs, used, es, key);
    WithoutMembers(bs, used + {c});
    UnmatchedRemove(u, es, done, key, Without(bs, used), c, Without(bs, used + {c}));
  }

  /** A leftover backend at the head of what is still to be scanned. */
  lemma {:induction false} DropBackend(u: seq<nat>, es: seq<Event>, done: set<Key>, key: Key, rest: seq<nat>, used: set<nat>)
    requires PartOfGroup(rest, es, key) && key !in done && rest != [] && rest[0] !in used
    requires Unmatched(u, es, done, key, Without(rest, used))
    ensures rest[0] in u && Unmatched(Remove(u, rest[0]), es, done, key, Without(rest[1..], used))
  {
    PopHead(rest, es, key);
    WithoutMembers(rest, used);
    WithoutMembers(rest[1..], used);
    PartWithout(rest, used, es, key);
    UnmatchedRemove(u, es, done, key, Without(rest, used), rest[0], Without(rest[1..], used));
  }

  lemma {:induction false} AppendOne(done: seq<Pairing>, p: Pairing, rest: seq<Pairing>, target: seq<Pairing>)
    requires done + ([p] + rest) == target
    ensures (done + [p]) + rest == target
  {}

  /** The pairing loop of one step: every proxy of the step chooses, then the leftover backends get their own rows. */
  method PairStep(proxies: seq<Event>, backends: seq<Event>, key: Key, proxyIdxs: seq<nat>, backendIdxs: seq<nat>,
                  pairings0: seq<Pairing>, unmatchedProxy0: seq<nat>, unmatchedBackend0: seq<nat>,
                  ghost done: set<Key>)
    returns (pairings: seq<Pairing>, unmatchedProxy: seq<nat>, unmatchedBackend: seq<nat>)
    requires key !in done
    requires PartOfGroup(proxyIdxs, proxies, key) && PartOfGroup(backendIdxs, backends, key)
    requires Below(proxyIdxs, |proxies|)
    requires Unmatched(unmatchedProxy0, proxies, done, key, proxyIdxs)
    requires Unmatched(unmatchedBackend0, backends, done, key, backendIdxs)
    ensures pairings == pairings0 + Greedy(proxyIdxs, backendIdxs, proxies, backends, key)
    ensures Unmatched(unmatchedProxy, proxies, done, key, [])
    ensures Unmatched(unmatchedBackend, backends, done, key, [])
  {
    hide Unmatched, PartOfGroup, Greedy;
    ghost var target := pairings0 + Greedy(proxyIdxs, backendIdxs, proxies, backends, key);
    var used: set<nat>;
    pairings, unmatchedProxy, unmatchedBackend, used :=
      ChooseAll(proxies, backends, key, proxyIdxs, backendIdxs, pairings0, unmatchedProxy0, unmatchedBackend0, done);
    for n := 0 to |backendIdxs|
      invariant PartOfGroup(backendIdxs[n..], backends, key)
      invariant pairings + Leftover(Without(backendIdxs[n..], used), key) == target
      invariant Unmatched(unmatchedBackend, backends, done, key, Without(backendIdxs[n..], used))
    {
      var bi := backendIdxs[n];
      ghost var rest := backendIdxs[n..];
      assert rest[1..] == backendIdxs[n + 1..];
      PopHead(rest, backends, key);
      if bi in used {
        assert Without(rest, used) == Without(rest[1..], used);
        continue;
      }
      DropBackend(unmatchedBackend, backends, done, key, rest, used);
      unmatchedBackend := Remove(unmatchedBackend, bi);
      AppendOne(pairings, Pairing(Some(bi), None, key), Leftover(Without(rest[1..], used), key), target);
      pairings := pairings + [Pairing(Some(bi), None, KeyOf(backends[bi]))];
    }
  }

  /** The `for pi in proxy_idxs` loop of one step. */
  method ChooseAll(proxies: seq<Event>, backends: seq<Event>, key: Key, proxyIdxs: seq<nat>, backendIdxs: seq<nat>,
                   pairings0: seq<Pairing>, unmatchedProxy0: seq<nat>, unmatchedBackend0: seq<nat>,
                   ghost done: set<Key>)
    returns (pairings: seq<Pairing>, unmatchedProxy: seq<nat>, unmatchedBackend: seq<nat>, used: set<nat>)
    requires key !in done
    requires PartOfGroup(proxyIdxs, proxies, key) && PartOfGroup(backendIdxs, backends, key)
    requires Below(proxyIdxs, |proxies|)
    requires Unmatched(unmatchedProxy0, proxies, done, key, proxyIdxs)
    requires Unmatched(unmatchedBackend0, backends, done, key, backendIdxs)
    ensures pairings + Leftover(Without(backendIdxs, used), key)
         == pairings0 + Greedy(proxyIdxs, backendIdxs, proxies, backends, key)
    ensures Unmatched(unmatchedProxy, proxies, done, key, [])
    ensures Unmatched(unmatchedBackend, backends, done, key, Without(backendIdxs, used))
  {
    hide Unmatched, PartOfGroup, Leftover, Without, Pick;
    ghost var target := pairings0 + Greedy(proxyIdxs, backendIdxs, proxies, backends, key);
    pairings, unmatchedProxy, unmatchedBackend, used := pairings0, unmatchedProxy0, unmatchedBackend0, {};
    PartBelow(backendIdxs, backends, key);
    WithoutNothing(backendIdxs);
    for n := 0 to |proxyIdxs|
      invariant PartOfGroup(proxyIdxs[n..], proxies, key)
      invariant pairings + Greedy(proxyIdxs[n..], Without(backendIdxs, used), proxies, backends, key) == target
      invariant Unmatched(unmatchedProxy, proxies, done, key, proxyIdxs[n..])
      invariant Unmatched(unmatchedBackend, backends, done, key, Without(backendIdxs, used))
    {
      var pi := proxyIdxs[n];
      ghost var rest, free := proxyIdxs[n..], Without(backendIdxs, used);
      assert rest[1..] == proxyIdxs[n + 1..] && rest[0] == pi;
      PopHead(rest, proxies, key);
      var chosen := Choose(proxies[pi], backendIdxs, used, backends);
      if chosen.Some? {
        TakeBackend(unmatchedBackend, backends, done, key, backendIdxs, used, chosen.value);
        used := used + {chosen.value};
        unmatchedBackend := Remove(unmatchedBackend, chosen.value);
      }
      UnmatchedRemove(unmatchedProxy, proxies, done, key, rest, pi, rest[1..]);
      unmatchedProxy := Remove(unmatchedProxy, pi);
      AppendOne(pairings, Pairing(chosen, Some(pi), key),
                Greedy(rest[1..], Without(backendIdxs, used), proxies, backends, key), target);
      pairings := pairings + [Pairing(chosen, Some(pi), KeyOf(proxies[pi]))];
    }
  }

  /** Those of `xs` with this step, in order. */
  function WithStep(xs: seq<nat>, es: seq<Event>, step: Option<int>): seq<nat>
    requires Below(xs, |es|)
  {
    if xs == [] then []
    else
      var n := |xs| - 1;
      WithStep(xs[..n], es, step) + (if es[xs[n]].step == step then [xs[n]] else [])
  }

  lemma {:induction false} WithStepMembers(xs: seq<nat>, es: seq<Event>, step: Option<int>)
    requires Below(xs, |es|)
    ensures forall i :: i in WithStep(xs, es, step) <==> i in xs && es[i].step == step
  {
    if xs != [] {
      var n := |xs| - 1;
      WithStepMembers(xs[..n], es, step);
      assert xs == xs[..n] + [xs[n]];
    }
  }

  lemma {:induction false} WithStepIncreasing(xs: seq<nat>, es: seq<Event>, step: Option<int>)
    requires Below(xs, |es|) && Increasing(xs)
    ensures Increasing(WithStep(xs, es, step))
  {
    if xs != [] {
      var n := |xs| - 1;
      WithStepIncreasing(xs[..n], es, step);
      WithStepMembers(xs[..n], es, step);
      var w := WithStep(xs[..n], es, step);
      forall k | 0 <= k < |w| ensures w[k] < xs[n] {
        assert w[k] in w;
      }
    }
  }

  /** The events still unmatched after phase one are those without a call index. */
  ghost predicate Unkeyed(es: seq<Event>, done: set<Key>) {
    && (forall key: Key :: key in done ==> key.1.Some?)
    && (forall i :: 0 <= i < |es| && es[i].call.Some? ==> KeyOf(es[i]) in done)
  }

  lemma {:induction false} WithStepIsGroup(u: seq<nat>, es: seq<Event>, done: set<Key>, step: Option<int>)
    requires Pending(u, es, done) && Unkeyed(es, done) && Below(u, |es|)
    ensures WithStep(u, es, step) == Group(es, (step, None))
  {
    WithStepMembers(u, es, step);
    WithStepIncreasing(u, es, step);
    GroupMembers(es, (step, None));
    IncreasingUnique(WithStep(u, es, step), Group(es, (step, None)));
  }

  ghost predicate IsStepIndex(byStep: map<Option<int>, seq<nat>>, u: seq<nat>, es: seq<Event>)
    requires Below(u, |es|)
  {
    forall s :: WithStep(u, es, s) == AtStep(byStep, s)
  }

  function AtStep(byStep: map<Option<int>, seq<nat>>, step: Option<int>): seq<nat> {
    if step in byStep then byStep[step] else []
  }

  /** The `setdefault(_step_index(...), []).append(idx)` loops over the unmatched lists. */
  method IndexByStep(u: seq<nat>, es: seq<Event>) returns (byStep: map<Option<int>, seq<nat>>)
    requires Below(u, |es|)
    ensures IsStepIndex(byStep, u, es)
  {
    byStep := map[];
    for n := 0 to |u|
      invariant IsStepIndex(byStep, u[..n], es)
    {
      assert u[..n + 1][..n] == u[..n];
      var step := es[u[n]].step;
      byStep := byStep[step := (if step in byStep then byStep[step] else []) + [u[n]]];
    }
    assert u[..|u|] == u;
  }

  lemma {:induction false} OptLeTotal()
    ensures TotalPreorder(OptLe)
  {}

  method SortedSteps(s: set<Option<int>>) returns (steps: seq<Option<int>>)
    ensures NoDup(steps) && SortedBy(steps, OptLe)
    ensures forall x :: x in steps <==> x in s
    ensures forall i, j :: 0 <= i < j < |steps| ==>
              && (steps[i].None? ==> steps[j].None?)
              && (steps[i].Some? && steps[j].Some? ==> steps[i].value <= steps[j].value)
  {
    var xs := Enumerate(s);
    steps := StableSort(xs, OptLe);
    OptLeTotal();
    SortSorts(xs, OptLe);
    SortNoDup(xs, OptLe);
  }

  lemma {:induction false} OfLeftover(free: seq<nat>, key: Key, k: Key)
    ensures Of(Leftover(free, key), k) == if k == key then Leftover(free, key) else []
  {
    if free != [] { OfLeftover(free[1..], key, k); }
  }

  lemma {:induction false} OfGreedy(ps: seq<nat>, free: seq<nat>, proxies: seq<Event>, backends: seq<Event>, key: Key, k: Key)
    requires Below(ps, |proxies|)
    ensures Of(Greedy(ps, free, proxies, backends, key), k) == if k == key then Greedy(ps, free, proxies, backends, key) else []
    decreases ps
  {
    if ps == [] {
      OfLeftover(free, key, k);
    } else {
      var c := Pick(proxies[ps[0]], free, backends);
      OfGreedy(ps[1..], Taking(free, c), proxies, backends, key, k);
    }
  }

  /** The step of phase two for one step index. */
  method PairStepGroup(proxies: seq<Event>, backends: seq<Event>, step: Option<int>, ps: seq<nat>, bs: seq<nat>,
                       pairings0: seq<Pairing>, unmatchedProxy0: seq<nat>, unmatchedBackend0: seq<nat>,
                       ghost done: set<Key>)
    returns (pairings: seq<Pairing>, unmatchedProxy: seq<nat>, unmatchedBackend: seq<nat>)
    requires (step, None) !in done
    requires ps == Group(proxies, (step, None)) && bs == Group(backends, (step, None))
    requires Paired(pairings0, proxies, backends, done)
    requires Pending(unmatchedProxy0, proxies, done) && Pending(unmatchedBackend0, backends, done)
    ensures Paired(pairings, proxies, backends, done + {(step, None)})
    ensures Pending(unmatchedProxy, proxies, done + {(step, None)})
    ensures Pending(unmatchedBackend, backends, done + {(step, None)})
  {
    hide Paired;
    ghost var key: Key := (step, None);
    EnterGroup(unmatchedProxy0, proxies, done, key);
    EnterGroup(unmatchedBackend0, backends, done, key);
    GroupBelow(proxies, key);
    pairings, unmatchedProxy, unmatchedBackend :=
      PairStep(proxies, backends, (step, None), ps, bs, pairings0, unmatchedProxy0, unmatchedBackend0, done);
    LeaveGroup(unmatchedProxy, proxies, done, key);
    LeaveGroup(unmatchedBackend, backends, done, key);
    ghost var added := GroupPairs(proxies, backends, key);
    forall k ensures Of(added, k) == if k == key then added else [] {
      OfGreedy(ps, bs, proxies, backends, key, k);
    }
    PairedNext(pairings0, added, proxies, backends, done, key);
  }

  ghost predicate AllDone(es: seq<Event>, done: set<Key>) {
    forall i :: 0 <= i < |es| ==> KeyOf(es[i]) in done
  }

  lemma {:induction false} PendingNone(u: seq<nat>, es: seq<Event>, done: set<Key>)
    requires Pending(u, es, done) && AllDone(es, done)
    ensures u == []
  {
    NoMembers(u);
  }

  lemma {:induction false} PendingBelow(u: seq<nat>, es: seq<Event>, done: set<Key>)
    requires Pending(u, es, done)
    ensures Below(u, |es|)
  {
    assert forall k :: 0 <= k < |u| ==> u[k] in u;
  }

  /** `done` is phase one's keys plus the steps handled so far. */
  ghost predicate StepsDone(done: set<Key>, done1: set<Key>, steps: seq<Option<int>>, n: nat) {
    && n <= |steps|
    && (forall m :: 0 <= m < |steps| ==> ((steps[m], None) in done <==> m < n))
    && done1 <= done
  }

  lemma {:induction false} AllStepsDone(es: seq<Event>, u: seq<nat>, done: set<Key>, done1: set<Key>, steps: seq<Option<int>>,
                     byStep: map<Option<int>, seq<nat>>)
    requires Unkeyed(es, done1) && Pending(u, es, done1) && Below(u, |es|)
    requires StepsDone(done, done1, steps, |steps|)
    requires IsStepIndex(byStep, u, es)
    requires byStep.Keys <= set s | s in steps
    ensures AllDone(es, done)
  {
    forall i | 0 <= i < |es| ensures KeyOf(es[i]) in done {
      if es[i].call.None? {
        WithStepMembers(u, es, es[i].step);
        assert i in u;
        assert es[i].step in steps;
      }
    }
  }

  lemma {:induction false} NextStepDone(done: set<Key>, done1: set<Key>, steps: seq<Option<int>>, n: nat)
    requires StepsDone(done, done1, steps, n) && n < |steps| && NoDup(steps)
    ensures (steps[n], None) !in done
    ensures StepsDone(done + {(steps[n], None)}, done1, steps, n + 1)
  {}

  lemma {:induction false} NoStepDone(es: seq<Event>, done: set<Key>, steps: seq<Option<int>>)
    requires Unkeyed(es, done)
    ensures StepsDone(done, done, steps, 0)
  {}

  lemma {:induction false} StepGroup(byStep: map<Option<int>, seq<nat>>, u: seq<nat>, es: seq<Event>, done: set<Key>, step: Option<int>)
    requires Below(u, |es|) && IsStepIndex(byStep, u, es)
    requires Pending(u, es, done) && Unkeyed(es, done)
    ensures AtStep(byStep, step) == Group(es, (step, None))
  {
    WithStepIsGroup(u, es, done, step);
  }

  /** Phase two: pair what is left step by step, compatible models first. */
  method PhaseTwo(proxies: seq<Event>, backends: seq<Event>, pairings0: seq<Pairing>,
                  unmatchedProxy0: seq<nat>, unmatchedBackend0: seq<nat>)
    returns (pairings: seq<Pairing>, unmatchedProxy: seq<nat>, unmatchedBackend: seq<nat>)
    requires exists done :: KeyedPaired(pairings0, unmatchedProxy0, unmatchedBackend0, proxies, backends, done)
    ensures forall key :: Of(pairings, key) == GroupPairs(proxies, backends, key)
    ensures forall p :: p in pairings ==> InRange(p, backends, proxies)
    ensures unmatchedProxy == [] && unmatchedBackend == []
  {
    ghost var done1 :| KeyedPaired(pairings0, unmatchedProxy0, unmatchedBackend0, proxies, backends, done1);
    ghost var done;
    hide Paired, AllDone, Pending, Group, Below, WithStep, StepsDone, IsStepIndex, AtStep, Unkeyed;
    pairings, unmatchedProxy, unmatchedBackend, done := pairings0, unmatchedProxy0, unmatchedBackend0, done1;
    PendingBelow(unmatchedProxy, proxies, done1);
    PendingBelow(unmatchedBackend, backends, done1);
    var proxiesByStep := IndexByStep(unmatchedProxy, proxies);
    var backendsByStep := IndexByStep(unmatchedBackend, backends);
    var steps := SortedSteps(proxiesByStep.Keys + backendsByStep.Keys);
    NoStepDone(proxies, done1, steps);
    for n := 0 to |steps|
      invariant StepsDone(done, done1, steps, n)
      invariant Paired(pairings, proxies, backends, done)
      invariant Pending(unmatchedProxy, proxies, done) && Pending(unmatchedBackend, backends, done)
    {
      var step := steps[n];
      StepGroup(proxiesByStep, unmatchedProxy0, proxies, done1, step);
      StepGroup(backendsByStep, unmatchedBackend0, backends, done1, step);
      NextStepDone(done, done1, steps, n);
      pairings, unmatchedProxy, unmatchedBackend :=
        PairStepGroup(proxies, backends, step, AtStep(proxiesByStep, step), AtStep(backendsByStep, step),
                      pairings, unmatchedProxy, unmatchedBackend, done);
      done := done + {(step, None)};
    }
    AllStepsDone(proxies, unmatchedProxy0, done, done1, steps, proxiesByStep);
    AllStepsDone(backends, unmatchedBackend0, done, done1, steps, backendsByStep);
    PendingNone(unmatchedProxy, proxies, done);
    PendingNone(unmatchedBackend, backends, done);
    PairedAll(pairings, proxies, backends, done);
  }

  // ----- The whole run. -----

  function OfKind(events: seq<Event>, kind: Kind): (r: seq<Event>)
    ensures forall e :: e in r <==> e in events && e.kind == kind
  {
    Filter(events, (e: Event) => e.kind == kind)
  }

  function Pairings(calls: seq<Row>): seq<Pairing> {
    Map(calls, (r: Row) => r.pairing)
  }

  function CountStatus(calls: seq<Row>, status: Status): nat {
    if calls == [] then 0
    else (if calls[0].status == status then 1 else 0) + CountStatus(calls[1..], status)
  }

  /** What the compare payload promises about its call list, group by group. */
  ghost predicate IsPairing(calls: seq<Row>, proxies: seq<Event>, backends: seq<Event>) {
    && SortedBy(calls, RowLe)
    && (forall key :: Of(Pairings(calls), key) == GroupPairs(proxies, backends, key))
    && (forall r :: r in calls ==> InRange(r.pairing, backends, proxies) && r == BuildRow(r.pairing, backends, proxies))
  }

  lemma {:induction false} RowLeTotal()
    ensures TotalPreorder(RowLe)
  {}

  lemma {:induction false} OfRows(calls: seq<Row>, key: Key)
    ensures Of(Pairings(calls), key) == Pairings(Filter(calls, (r: Row) => r.pairing.key == key))
  {
    if calls != [] { OfRows(calls[1..], key); }
  }

  lemma {:induction false} SortedRows(rows: seq<Row>, key: Key)
    ensures Of(Pairings(StableSort(rows, RowLe)), key) == Of(Pairings(rows), key)
  {
    var p := (r: Row) => r.pairing.key == key;
    OfRows(rows, key);
    OfRows(StableSort(rows, RowLe), key);
    SortStable(rows, RowLe, p);
  }

  lemma {:induction false} ZipInRange(bs: seq<nat>, ps: seq<nat>, key: Key, proxies: seq<Event>, backends: seq<Event>)
    requires Below(ps, |proxies|) && Below(bs, |backends|)
    ensures forall p :: p in Zip(bs, ps, key) ==> InRange(p, backends, proxies)
    decreases |bs| + |ps|
  {
    if bs != [] || ps != [] {
      ZipInRange(if bs == [] then [] else bs[1..], if ps == [] then [] else ps[1..], key, proxies, backends);
    }
  }

  lemma {:induction false} GreedyInRange(ps: seq<nat>, free: seq<nat>, proxies: seq<Event>, backends: seq<Event>, key: Key)
    requires Below(ps, |proxies|) && Below(free, |backends|)
    ensures forall p :: p in Greedy(ps, free, proxies, backends, key) ==> InRange(p, backends, proxies)
    decreases |ps| + |free|
  {
    if ps != [] {
      var c := Pick(proxies[ps[0]], free, backends);
      GreedyInRange(ps[1..], Taking(free, c), proxies, backends, key);
    } else if free != [] {
      GreedyInRange(ps, free[1..], proxies, backends, key);
    }
  }

  lemma {:induction false} GroupPairsInRange(proxies: seq<Event>, backends: seq<Event>, key: Key)
    ensures forall p :: p in GroupPairs(proxies, backends, key) ==> InRange(p, backends, proxies)
  {
    GroupBelow(proxies, key);
    GroupBelow(backends, key);
    ZipInRange(Group(backends, key), Group(proxies, key), key, proxies, backends);
    GreedyInRange(Group(proxies, key), Group(backends, key), proxies, backends, key);
  }

  lemma {:induction false} OfMember(ps: seq<Pairing>, p: Pairing)
    requires p in ps
    ensures p in Of(ps, p.key)
  {
    if ps[0] != p { OfMember(ps[1..], p); }
  }

  lemma {:induction false} GroupEmpty(es: seq<Event>, key: Key, done: set<Key>)
    requires AllDone(es, done) && key !in done
    ensures Group(es, key) == []
  {
    GroupMembers(es, key);
    NoMembers(Group(es, key));
  }

  lemma {:induction false} PairedAll(pairings: seq<Pairing>, proxies: seq<Event>, backends: seq<Event>, done: set<Key>)
    requires Paired(pairings, proxies, backends, done)
    requires AllDone(proxies, done) && AllDone(backends, done)
    ensures forall key :: Of(pairings, key) == GroupPairs(proxies, backends, key)
    ensures forall p :: p in pairings ==> InRange(p, backends, proxies)
  {
    forall key ensures Of(pairings, key) == GroupPairs(proxies, backends, key) {
      if key !in done {
        GroupEmpty(proxies, key, done);
        GroupEmpty(backends, key, done);
      }
    }
    forall p | p in pairings ensures InRange(p, backends, proxies) {
      OfMember(pairings, p);
      GroupPairsInRange(proxies, backends, p.key);
    }
  }

  function Range(n: nat): (r: seq<nat>) {
    seq(n, i => i)
  }

  lemma {:induction false} RangePending(es: seq<Event>)
    ensures Pending(Range(|es|), es, {})
  {
    var r := Range(|es|);
    forall i: nat ensures i in r <==> i < |es| {
      if i < |es| { assert r[i] == i; }
    }
  }

  /** The `for bi, pi, key in pairings` loop. */
  method BuildRows(pairings: seq<Pairing>, proxies: seq<Event>, backends: seq<Event>) returns (rows: seq<Row>)
    requires forall p :: p in pairings ==> InRange(p, backends, proxies)
    ensures Pairings(rows) == pairings
    ensures forall r :: r in rows ==> InRange(r.pairing, backends, proxies) && r == BuildRow(r.pairing, backends, proxies)
  {
    rows := [];
    for n := 0 to |pairings|
      invariant |rows| == n
      invariant forall m :: 0 <= m < n ==> rows[m].pairing == pairings[m]
      invariant forall r :: r in rows ==> InRange(r.pairing, backends, proxies) && r == BuildRow(r.pairing, backends, proxies)
    {
      assert pairings[n] in pairings;
      rows := rows + [BuildRow(pairings[n], backends, proxies)];
    }
    assert Pairings(rows) == pairings;
  }

  method Count(calls: seq<Row>, status: Status) returns (n: nat)
    ensures n == CountStatus(calls, status)
  {
    n := 0;
    var i := |calls|;
    while i > 0
      invariant 0 <= i <= |calls|
      invariant n == CountStatus(calls[i..], status)
    {
      i := i - 1;
      assert calls[i..][1..] == calls[i + 1..];
      if calls[i].status == status { n := n + 1; }
    }
  }

  /** `pair_dual_capture_events`. */
  method PairDualCapture(events: seq<Event>) returns (calls: seq<Row>, summary: Summary)
    ensures IsPairing(calls, OfKind(events, ProxyCall), OfKind(events, BackendCall))
    ensures summary == Summary(|calls|, CountStatus(calls, Matched), CountStatus(calls, ProxyOnly),
                               CountStatus(calls, BackendOnly), CountStatus(calls, FieldDiff))
  {
    var proxies := OfKind(events, ProxyCall);
    var backends := OfKind(events, BackendCall);
    RangePending(proxies);
    RangePending(backends);
    var pairings, unmatchedProxy, unmatchedBackend;
    pairings, unmatchedProxy, unmatchedBackend := PhaseOne(proxies, backends, Range(|proxies|), Range(|backends|));
    pairings, unmatchedProxy, unmatchedBackend := PhaseTwo(proxies, backends, pairings, unmatchedProxy, unmatchedBackend);
    var rows := BuildRows(pairings, proxies, backends);
    calls := StableSort(rows, RowLe);
    SortedCalls(rows, pairings, proxies, backends);
    var matched := Count(calls, Matched);
    var proxyOnly := Count(calls, ProxyOnly);
    var backendOnly := Count(calls, BackendOnly);
    var fieldDiff := Count(calls, FieldDiff);
    summary := Summary(|calls|, matched, proxyOnly, backendOnly, fieldDiff);
  }

  lemma {:induction false} SortedCalls(rows: seq<Row>, pairings: seq<Pairing>, proxies: seq<Event>, backends: seq<Event>)
    requires Pairings(rows) == pairings
    requires forall key :: Of(pairings, key) == GroupPairs(proxies, backends, key)
    requires forall r :: r in rows ==> InRange(r.pairing, backends, proxies) && r == BuildRow(r.pairing, backends, proxies)
    ensures IsPairing(StableSort(rows, RowLe), proxies, backends)
  {
    RowLeTotal();
    SortSorts(rows, RowLe);
    var calls := StableSort(rows, RowLe);
    forall key ensures Of(Pairings(calls), key) == GroupPairs(proxies, backends, key) {
      SortedRows(rows, key);
    }
  }
}
