/**
 * The delegation lifecycle: server/mcp_server.py (`delegate_to_agent`, `_close_lifecycle_once`)
 * with the envelope bookkeeping of core/engine/supervisor_agent.py.
 *
 * An interruption (host cancel, uncaught exception) may strike between any two events; where it strikes is an input.
 */
module Lifecycle {
  import opened Sequences
  import opened ExecutorTurns

  datatype Phase = Preloop | Loop | Postloop

  datatype PhaseStatus = InProgress | Ok | Blocked | Escalated | Failed

  datatype Action = RerunAider | Done | EscalateHost

  datatype TraceEvent =
    | LifecycleStart(resumed: bool)
    | PhaseStart(phase: Phase)
    | PhaseEnd(phase: Phase, status: PhaseStatus)
    | LifecycleEnd(outcome: string)
    | SupervisorResumed
    | LoopStart
    | TurnStart(turn: nat)
    | TurnEnd(turn: nat)
    | Decision(turn: nat, action: Action)
    | LoopEnd

  predicate IsLifecycle(e: TraceEvent) {
    e.LifecycleStart? || e.PhaseStart? || e.PhaseEnd? || e.LifecycleEnd?
  }

  /** The envelope: what remains of a trace when only lifecycle events are kept. */
  function Envelope(tr: seq<TraceEvent>): seq<TraceEvent> {
    if tr == [] then []
    else Envelope(tr[..|tr| - 1]) + (if IsLifecycle(tr[|tr| - 1]) then [tr[|tr| - 1]] else [])
  }

  lemma {:induction false} EnvelopeStep(tr: seq<TraceEvent>, e: TraceEvent)
    ensures Envelope(tr + [e]) == Envelope(tr) + if IsLifecycle(e) then [e] else []
  {
    assert (tr + [e])[..|tr|] == tr;
  }

  /** What the supervisor wrote: what remains when lifecycle events are dropped. */
  function Log(tr: seq<TraceEvent>): seq<TraceEvent> {
    if tr == [] then []
    else Log(tr[..|tr| - 1]) + (if IsLifecycle(tr[|tr| - 1]) then [] else [tr[|tr| - 1]])
  }

  lemma {:induction false} LogStep(tr: seq<TraceEvent>, e: TraceEvent)
    ensures Log(tr + [e]) == Log(tr) + if IsLifecycle(e) then [] else [e]
  {
    assert (tr + [e])[..|tr|] == tr;
  }

  // ----- The reference shape of an envelope. -----

  function Order(i: nat): Phase { if i == 0 then Preloop else if i == 1 then Loop else Postloop }

  /** The first |done| phases in order, each started and ended once with the given status. */
  function RenderPhases(done: seq<PhaseStatus>): seq<TraceEvent> {
    if done == [] then []
    else
      var n := |done| - 1;
      RenderPhases(done[..n]) + [PhaseStart(Order(n)), PhaseEnd(Order(n), done[n])]
  }

  predicate Ended(done: seq<PhaseStatus>) {
    |done| <= 3 && forall i :: 0 <= i < |done| ==> done[i] != InProgress
  }

  /** One start, one end, the phases a prefix of preloop/loop/postloop, each started phase ended once. */
  ghost predicate WellBracketed(tr: seq<TraceEvent>, resumed: bool, done: seq<PhaseStatus>) {
    exists outcome :: Shape(tr, resumed, done, outcome)
  }

  ghost predicate Shape(tr: seq<TraceEvent>, resumed: bool, done: seq<PhaseStatus>, outcome: string) {
    && Ended(done) && done != []
    && Envelope(tr) == [LifecycleStart(resumed)] + RenderPhases(done) + [LifecycleEnd(outcome)]
  }

  /** The envelope ends last, with this outcome. */
  predicate EndsWith(tr: seq<TraceEvent>, outcome: string) {
    tr != [] && tr[|tr| - 1] == LifecycleEnd(outcome)
  }

  /** Well bracketed, whatever its phases. */
  ghost predicate Bracketed(tr: seq<TraceEvent>) {
    exists r, d :: WellBracketed(tr, r, d)
  }

  // ----- The phase table: a Python dict, in insertion order. -----

  type PhaseTable = seq<(Phase, PhaseStatus)>

  function SetPhase(t: PhaseTable, p: Phase, s: PhaseStatus): (r: PhaseTable)
    ensures |t| <= |r|
  {
    if t == [] then [(p, s)]
    else if t[0].0 == p then [(p, s)] + t[1..]
    else [t[0]] + SetPhase(t[1..], p, s)
  }

  /** Names of the phases in progress, in insertion order. */
  function OpenPhases(t: PhaseTable): seq<Phase> {
    if t == [] then []
    else (if t[0].1.InProgress? then [t[0].0] else []) + OpenPhases(t[1..])
  }

  predicate Unique(t: PhaseTable) { forall i, j :: 0 <= i < j < |t| ==> t[i].0 != t[j].0 }

  lemma {:induction false} OpenMembers(t: PhaseTable)
    ensures forall p :: p in OpenPhases(t) <==> (p, InProgress) in t
  {
    if t != [] { OpenMembers(t[1..]); }
  }

  lemma {:induction false} SetPhaseMembers(t: PhaseTable, p: Phase, s: PhaseStatus)
    requires Unique(t)
    ensures Unique(SetPhase(t, p, s))
    ensures forall q, u :: (q, u) in SetPhase(t, p, s) <==> if q == p then u == s else (q, u) in t
  {
    if t != [] {
      assert Unique(t[1..]);
      NotInTail(t);
      if t[0].0 != p {
        SetPhaseMembers(t[1..], p, s);
        var r := SetPhase(t[1..], p, s);
        forall k | 0 <= k < |r| ensures r[k].0 != t[0].0 {
          assert (r[k].0, r[k].1) in r;
        }
      }
    }
  }

  lemma {:induction false} NotInTail(t: PhaseTable)
    requires Unique(t) && t != []
    ensures forall u :: (t[0].0, u) !in t[1..]
  {}

  /** Only `p` can be in progress. */
  ghost predicate OnlyOpen(t: PhaseTable, p: Option<Phase>) {
    && Unique(t)
    && forall q :: (q, InProgress) in t <==> p == Some(q)
  }

  lemma {:induction false} OpenIsOne(t: PhaseTable, p: Option<Phase>)
    requires OnlyOpen(t, p)
    ensures OpenPhases(t) == if p.Some? then [p.value] else []
  {
    if t != [] {
      assert forall q :: (q, InProgress) in t[1..] ==> (q, InProgress) in t;
      if t[0].1.InProgress? {
        assert (t[0].0, InProgress) in t;
        assert forall q :: (q, InProgress) in t[1..] ==> q != t[0].0;
        OpenIsOne(t[1..], None);
      } else {
        forall q | (q, InProgress) in t ensures (q, InProgress) in t[1..] {
          assert t[0] != (q, InProgress);
        }
        OpenIsOne(t[1..], p);
      }
    }
  }

  // ----- How trace and phase table move together. -----

  /** An envelope not closed yet: `done` phases ended, and the next one started if `open`. */
  ghost predicate Partial(tr: seq<TraceEvent>, resumed: bool, done: seq<PhaseStatus>, open: bool) {
    && Ended(done) && (open ==> |done| < 3) && (open || done != [])
    && Envelope(tr) == [LifecycleStart(resumed)] + RenderPhases(done)
                       + if open then [PhaseStart(Order(|done|))] else []
  }

  /** Nothing is in progress, except perhaps preloop. */
  ghost predicate OnlyPreloop(t: PhaseTable) {
    forall q :: (q, InProgress) in t ==> q == Preloop
  }

  /** Loop may be in progress as well, but once preloop is started it is the last phase in progress. */
  ghost predicate Tame(t: PhaseTable) {
    && (Postloop, InProgress) !in t
    && var inProgress := OpenPhases(SetPhase(t, Preloop, InProgress));
       inProgress != [] && inProgress[|inProgress| - 1] == Preloop
  }

  lemma {:induction false} CleanIsTame(t: PhaseTable)
    requires Unique(t) && OnlyPreloop(t)
    ensures Tame(t)
  {
    SetPhaseMembers(t, Preloop, InProgress);
    OpenIsOne(SetPhase(t, Preloop, InProgress), Some(Preloop));
  }

  /** The table that a run starting on `table` has by the end of preloop. */
  function AfterPreloop(table: PhaseTable, s: PhaseStatus): PhaseTable {
    SetPhase(SetPhase(table, Preloop, InProgress), Preloop, s)
  }

  /** Between the end of preloop and whatever comes next. */
  predicate InGap(done: seq<PhaseStatus>, open: bool) { |done| == 1 && !open }

  /** The trace is a partial envelope; `t` is what it has made of the table the run started on. */
  ghost predicate Tracks(tr: seq<TraceEvent>, t: PhaseTable, resumed: bool, done: seq<PhaseStatus>, open: bool, table: PhaseTable) {
    && Partial(tr, resumed, done, open) && Unique(t) && Unique(table)
    && if done == [] then t == SetPhase(table, Preloop, InProgress)
       else if InGap(done, open) then t == AfterPreloop(table, done[0])
       else Tame(table) ==> OnlyOpen(t, if open then Some(Order(|done|)) else None)
  }

  lemma {:induction false} AfterPreloopMembers(table: PhaseTable, s: PhaseStatus)
    requires Unique(table) && s != InProgress
    ensures Unique(AfterPreloop(table, s))
    ensures forall q :: (q, InProgress) in AfterPreloop(table, s) <==> (q, InProgress) in table && q != Preloop
  {
    SetPhaseMembers(table, Preloop, InProgress);
    SetPhaseMembers(SetPhase(table, Preloop, InProgress), Preloop, s);
  }

  lemma {:induction false} TrackStart(tr: seq<TraceEvent>, t: PhaseTable, resumed: bool, done: seq<PhaseStatus>, table: PhaseTable)
    requires Tracks(tr, t, resumed, done, false, table) && |done| < 3
    ensures Tracks(tr + [PhaseStart(Order(|done|))], SetPhase(t, Order(|done|), InProgress), resumed, done, true, table)
  {
    hide SetPhase;
    SetPhaseMembers(t, Order(|done|), InProgress);
    EnvelopeStep(tr, PhaseStart(Order(|done|)));
    if |done| == 1 { AfterPreloopMembers(table, done[0]); }
  }

  lemma {:induction false} TrackEnd(tr: seq<TraceEvent>, t: PhaseTable, resumed: bool, done: seq<PhaseStatus>, s: PhaseStatus,
                                    table: PhaseTable)
    requires Tracks(tr, t, resumed, done, true, table) && s != InProgress
    ensures Tracks(tr + [PhaseEnd(Order(|done|), s)], SetPhase(t, Order(|done|), s), resumed, done + [s], false, table)
  {
    hide SetPhase;
    SetPhaseMembers(t, Order(|done|), s);
    EnvelopeStep(tr, PhaseEnd(Order(|done|), s));
    assert (done + [s])[..|done|] == done;
  }

  lemma {:induction false} TrackOther(tr: seq<TraceEvent>, t: PhaseTable, resumed: bool, done: seq<PhaseStatus>, open: bool,
                                      table: PhaseTable, e: TraceEvent)
    requires Tracks(tr, t, resumed, done, open, table) && !IsLifecycle(e)
    ensures Tracks(tr + [e], t, resumed, done, open, table)
  {
    EnvelopeStep(tr, e);
  }

  lemma {:induction false} TrackTurn(tr: seq<TraceEvent>, t: PhaseTable, resumed: bool, done: seq<PhaseStatus>, open: bool,
                                     table: PhaseTable, turn: nat, action: Action)
    requires Tracks(tr, t, resumed, done, open, table)
    ensures Tracks(tr + [TurnEnd(turn)] + [], t, resumed, done, open, table)
    ensures Tracks(tr + [TurnEnd(turn)] + [Decision(turn, action)], t, resumed, done, open, table)
  {
    TrackOther(tr, t, resumed, done, open, table, TurnEnd(turn));
    TrackOther(tr + [TurnEnd(turn)], t, resumed, done, open, table, Decision(turn, action));
    assert tr + [TurnEnd(turn)] + [] == tr + [TurnEnd(turn)];
  }

  lemma {:induction false} TrackClose(tr: seq<TraceEvent>, t: PhaseTable, resumed: bool, done: seq<PhaseStatus>, table: PhaseTable,
                                      outcome: string)
    requires Tracks(tr, t, resumed, done, false, table)
    ensures Shape(tr + [LifecycleEnd(outcome)], resumed, done, outcome)
    ensures WellBracketed(tr + [LifecycleEnd(outcome)], resumed, done)
  {
    EnvelopeStep(tr, LifecycleEnd(outcome));
    assert Shape(tr + [LifecycleEnd(outcome)], resumed, done, outcome);
  }

  /** The first two events of a delegation. */
  lemma {:induction false} TrackOpening(tr: seq<TraceEvent>, table: PhaseTable, resumed: bool)
    requires Envelope(tr) == [LifecycleStart(resumed)] && Unique(table)
    ensures Tracks(tr + [PhaseStart(Preloop)], SetPhase(table, Preloop, InProgress), resumed, [], true, table)
  {
    SetPhaseMembers(table, Preloop, InProgress);
    EnvelopeStep(tr, PhaseStart(Preloop));
  }

  // ----- What the supervisor writes. -----

  function Opening(resumed: bool): seq<TraceEvent> { if resumed then [SupervisorResumed] else [] }

  /** n turns, the first |ds| of them ended and decided. */
  function TurnLog(ds: seq<Action>, n: nat): seq<TraceEvent> {
    if n == 0 then [LoopStart]
    else TurnLog(ds, n - 1) + [TurnStart(n)] + (if n <= |ds| then [TurnEnd(n), Decision(n, ds[n - 1])] else [])
  }

  /** Up to here the supervisor has written the log of n turns, the first |ds| of them decided. */
  ghost predicate Wrote(tr: seq<TraceEvent>, resumed: bool, ds: seq<Action>, n: nat) {
    Log(tr) == Opening(resumed) + TurnLog(ds, n)
  }

  /** A turn after the first is there only because the one before was decided to be rerun, with turns left. */
  predicate Obeys(ds: seq<Action>, n: nat, maxTurns: int) {
    n <= Max(1, maxTurns) && n <= |ds| + 1 && forall i :: 0 <= i < n - 1 ==> ds[i] == RerunAider
  }

  /** The log is the beginning of one in which every rerun was decided. */
  ghost predicate Supervised(tr: seq<TraceEvent>, resumed: bool, maxTurns: int) {
    exists ds, n: nat :: Obeys(ds, n, maxTurns) && Begins(tr, resumed, ds, n)
  }

  ghost predicate Begins(tr: seq<TraceEvent>, resumed: bool, ds: seq<Action>, n: nat) {
    Log(tr) <= Opening(resumed) + TurnLog(ds, n) + [LoopEnd]
  }

  /**
   * How a loop ends: a turn is followed by another exactly if it was decided to be rerun with turns left, and only a
   * rerun without a package or with a raised executor stays undecided.
   */
  predicate Stopped(ds: seq<Action>, turns: seq<Turn>, usePkg: bool, maxTurns: int) {
    && 1 <= |ds| <= |turns| <= |ds| + 1 && |turns| <= Max(1, maxTurns)
    && (forall i :: 0 <= i < |ds| ==> (i + 1 < |turns| <==> ds[i] == RerunAider && i + 1 < Max(1, maxTurns)))
    && (|ds| < |turns| <==> |turns| > 1 && (!usePkg || turns[|turns| - 1].raised))
  }

  /** The whole log of a loop that ended; it escalates exactly if the last decision was not `done`. */
  ghost predicate Concluded(tr: seq<TraceEvent>, resumed: bool, ds: seq<Action>, turns: seq<Turn>, usePkg: bool, maxTurns: int,
                            escalated: bool) {
    && Log(tr) == Opening(resumed) + TurnLog(ds, |turns|) + [LoopEnd]
    && Stopped(ds, turns, usePkg, maxTurns) && (escalated <==> ds[|ds| - 1] != Done)
  }

  ghost predicate Completed(tr: seq<TraceEvent>, resumed: bool, turns: seq<Turn>, usePkg: bool, maxTurns: int, escalated: bool) {
    exists ds :: Concluded(tr, resumed, ds, turns, usePkg, maxTurns, escalated)
  }

  /** Only the undecided turns of a log depend on the decisions. */
  lemma {:induction false} TurnLogPrefix(ds: seq<Action>, a: Action, n: nat)
    requires n <= |ds|
    ensures TurnLog(ds + [a], n) == TurnLog(ds, n)
  {
    if n > 0 { TurnLogPrefix(ds, a, n - 1); }
  }

  lemma {:induction false} NothingWritten(tr: seq<TraceEvent>, resumed: bool, maxTurns: int)
    requires Log(tr) == Opening(resumed)
    ensures Supervised(tr, resumed, maxTurns)
  {
    assert Obeys([], 0, maxTurns) && Begins(tr, resumed, [], 0);
  }

  lemma {:induction false} WroteSome(tr: seq<TraceEvent>, resumed: bool, ds: seq<Action>, n: nat, maxTurns: int)
    requires Wrote(tr, resumed, ds, n) && Obeys(ds, n, maxTurns)
    ensures Supervised(tr, resumed, maxTurns)
  {
    assert Begins(tr, resumed, ds, n);
  }

  /** The start of the loop and of its first turn. */
  lemma {:induction false} WroteOpening(tr: seq<TraceEvent>, resumed: bool, maxTurns: int)
    requires Log(tr) == Opening(resumed)
    ensures Supervised(tr + [LoopStart], resumed, maxTurns)
    ensures var tr' := tr + [LoopStart] + [TurnStart(1)]; Wrote(tr', resumed, [], 1) && Supervised(tr', resumed, maxTurns)
  {
    LogStep(tr, LoopStart);
    assert Wrote(tr + [LoopStart], resumed, [], 0);
    WroteSome(tr + [LoopStart], resumed, [], 0, maxTurns);
    WroteStart(tr + [LoopStart], resumed, []);
    WroteSome(tr + [LoopStart] + [TurnStart(1)], resumed, [], 1, maxTurns);
  }

  lemma {:induction false} WroteStart(tr: seq<TraceEvent>, resumed: bool, ds: seq<Action>)
    requires Wrote(tr, resumed, ds, |ds|)
    ensures Wrote(tr + [TurnStart(|ds| + 1)], resumed, ds, |ds| + 1)
  {
    LogStep(tr, TurnStart(|ds| + 1));
    assert TurnLog(ds, |ds| + 1) == TurnLog(ds, |ds|) + [TurnStart(|ds| + 1)] + [];
  }

  lemma {:induction false} DecidedLog(ds: seq<Action>, a: Action)
    ensures TurnLog(ds + [a], |ds| + 1) == TurnLog(ds, |ds| + 1) + [TurnEnd(|ds| + 1)] + [Decision(|ds| + 1, a)]
  {
    TurnLogPrefix(ds, a, |ds|);
  }

  lemma {:induction false} WroteEnd(tr: seq<TraceEvent>, resumed: bool, ds: seq<Action>, a: Action, maxTurns: int)
    requires Wrote(tr, resumed, ds, |ds| + 1) && Obeys(ds, |ds| + 1, maxTurns)
    ensures Supervised(tr + [TurnEnd(|ds| + 1)] + [], resumed, maxTurns)
    ensures Wrote(tr + [TurnEnd(|ds| + 1)] + [Decision(|ds| + 1, a)], resumed, ds + [a], |ds| + 1)
    ensures Obeys(ds + [a], |ds| + 1, maxTurns)
  {
    var n := |ds| + 1;
    LogStep(tr, TurnEnd(n));
    LogStep(tr + [TurnEnd(n)], Decision(n, a));
    assert tr + [TurnEnd(n)] + [] == tr + [TurnEnd(n)];
    DecidedLog(ds, a);
    hide Log, TurnLog, Opening;
    assert Obeys(ds + [a], n, maxTurns) && Begins(tr + [TurnEnd(n)] + [], resumed, ds + [a], n);
  }

  lemma {:induction false} WroteLoopEnd(tr: seq<TraceEvent>, resumed: bool, ds: seq<Action>, n: nat, maxTurns: int)
    requires Wrote(tr, resumed, ds, n) && Obeys(ds, n, maxTurns)
    ensures Log(tr + [LoopEnd]) == Opening(resumed) + TurnLog(ds, n) + [LoopEnd]
    ensures Supervised(tr + [LoopEnd], resumed, maxTurns)
  {
    LogStep(tr, LoopEnd);
    assert Begins(tr + [LoopEnd], resumed, ds, n);
  }

  /** Lifecycle events change nothing about the log. */
  lemma {:induction false} SameLog(tr: seq<TraceEvent>, tr': seq<TraceEvent>, resumed: bool, maxTurns: int)
    requires Log(tr') == Log(tr)
    ensures Supervised(tr', resumed, maxTurns) <==> Supervised(tr, resumed, maxTurns)
    ensures forall turns, usePkg, escalated :: Completed(tr', resumed, turns, usePkg, maxTurns, escalated)
                                           <==> Completed(tr, resumed, turns, usePkg, maxTurns, escalated)
  {
    forall ds, n: nat ensures Begins(tr', resumed, ds, n) <==> Begins(tr, resumed, ds, n) {}
    forall ds, turns, usePkg, escalated
      ensures Concluded(tr', resumed, ds, turns, usePkg, maxTurns, escalated)
          <==> Concluded(tr, resumed, ds, turns, usePkg, maxTurns, escalated) {}
  }

  function TurnStarts(tr: seq<TraceEvent>): nat {
    if tr == [] then 0 else TurnStarts(tr[..|tr| - 1]) + if tr[|tr| - 1].TurnStart? then 1 else 0
  }

  lemma {:induction false} TurnStartsAppend(xs: seq<TraceEvent>, ys: seq<TraceEvent>)
    ensures TurnStarts(xs + ys) == TurnStarts(xs) + TurnStarts(ys)
  {
    if ys == [] {
      assert xs + ys == xs;
    } else {
      var n := |ys| - 1;
      assert (xs + ys)[..|xs| + n] == xs + ys[..n];
      TurnStartsAppend(xs, ys[..n]);
    }
  }

  lemma {:induction false} TurnStartsLogged(tr: seq<TraceEvent>)
    ensures TurnStarts(Log(tr)) == TurnStarts(tr)
  {
    if tr != [] {
      var p, e := tr[..|tr| - 1], tr[|tr| - 1];
      TurnStartsLogged(p);
      TurnStartsAppend(Log(p), if IsLifecycle(e) then [] else [e]);
      assert [e][..0] == [];
    }
  }

  lemma {:induction false} TurnLogStarts(ds: seq<Action>, n: nat)
    ensures TurnStarts(TurnLog(ds, n)) == n
  {
    if n == 0 {
      assert [LoopStart][..0] == [];
    } else {
      TurnLogStarts(ds, n - 1);
      var rest := if n <= |ds| then [TurnEnd(n), Decision(n, ds[n - 1])] else [];
      assert TurnLog(ds, n) == TurnLog(ds, n - 1) + ([TurnStart(n)] + rest);
      hide TurnLog, TurnStarts;
      TurnStartsAppend(TurnLog(ds, n - 1), [TurnStart(n)] + rest);
      OneStart(n, rest);
    }
  }

  lemma {:induction false} OneStart(n: nat, rest: seq<TraceEvent>)
    requires rest == [] || (|rest| == 2 && rest[0].TurnEnd? && rest[1].Decision?)
    ensures TurnStarts([TurnStart(n)] + rest) == 1
  {
    var s := [TurnStart(n)];
    assert s[..0] == [] && TurnStarts(s) == 1;
    TurnStartsAppend(s, rest);
    if rest != [] { assert rest[..1][..0] == [] && rest[..1][0] == rest[0]; }
  }

  /** The event at p decides a turn as `ds` does, and the next turn starts right behind it unless it is the last. */
  predicate DecidedAt(log: seq<TraceEvent>, ds: seq<Action>, n: nat, p: nat) {
    && p < |log| && log[p].Decision? && 1 <= log[p].turn <= |ds| && log[p].turn <= n && log[p].action == ds[log[p].turn - 1]
    && if log[p].turn < n then p + 1 < |log| && log[p + 1] == TurnStart(log[p].turn + 1) else p + 1 == |log|
  }

  lemma {:induction false} TurnLogFollows(ds: seq<Action>, n: nat, p: nat)
    requires n <= |ds| + 1 && p < |TurnLog(ds, n)| && TurnLog(ds, n)[p].Decision?
    ensures DecidedAt(TurnLog(ds, n), ds, n, p)
  {
    if n > 0 && p < |TurnLog(ds, n - 1)| { TurnLogFollows(ds, n - 1, p); }
  }

  /**
   * What a supervisor's log says of a loop that ended: the next thing after a decision is the start of the next turn
   * exactly if it was to rerun and turns were left, and as many turns were started as the executor was given.
   */
  lemma {:induction false} RerunsAsDecided(tr: seq<TraceEvent>, resumed: bool, turns: seq<Turn>, usePkg: bool, maxTurns: int,
                                           escalated: bool)
    requires Completed(tr, resumed, turns, usePkg, maxTurns, escalated)
    ensures TurnStarts(tr) == |turns|
    ensures var log := Log(tr);
            forall p :: 0 <= p < |log| && log[p].Decision? ==>
              && p + 1 < |log|
              && (log[p + 1] == TurnStart(log[p].turn + 1) <==> log[p].action == RerunAider && log[p].turn < Max(1, maxTurns))
  {
    var ds :| Concluded(tr, resumed, ds, turns, usePkg, maxTurns, escalated);
    hide TurnLog, Log, TurnStarts;
    LogStarts(tr, Opening(resumed), TurnLog(ds, |turns|));
    TurnLogStarts(ds, |turns|);
    hide Concluded, Opening;
    forall p | 0 <= p < |Log(tr)| && Log(tr)[p].Decision?
      ensures p + 1 < |Log(tr)|
      ensures var l := Log(tr);
              l[p + 1] == TurnStart(l[p].turn + 1) <==> l[p].action == RerunAider && l[p].turn < Max(1, maxTurns)
    {
      NextAsDecided(tr, resumed, ds, turns, usePkg, maxTurns, escalated, p);
    }
  }

  lemma {:induction false} NextAsDecided(tr: seq<TraceEvent>, resumed: bool, ds: seq<Action>, turns: seq<Turn>, usePkg: bool,
                                         maxTurns: int, escalated: bool, p: nat)
    requires Concluded(tr, resumed, ds, turns, usePkg, maxTurns, escalated)
    requires p < |Log(tr)| && Log(tr)[p].Decision?
    ensures p + 1 < |Log(tr)|
    ensures var l := Log(tr);
            l[p + 1] == TurnStart(l[p].turn + 1) <==> l[p].action == RerunAider && l[p].turn < Max(1, maxTurns)
  {
    hide TurnLog, Log, Opening;
    NextInLog(Log(tr), resumed, ds, |turns|, p);
    assert ds[Log(tr)[p].turn - 1] == Log(tr)[p].action;
  }

  lemma {:induction false} LogStarts(tr: seq<TraceEvent>, before: seq<TraceEvent>, log: seq<TraceEvent>)
    requires Log(tr) == before + log + [LoopEnd] && (before == [] || before == [SupervisorResumed])
    ensures TurnStarts(tr) == TurnStarts(log)
  {
    TurnStartsLogged(tr);
    TurnStartsAppend(before + log, [LoopEnd]);
    TurnStartsAppend(before, log);
    assert [LoopEnd][..0] == [] && TurnStarts(before) == 0 by { if before != [] { assert before[..0] == []; } }
  }

  /** The event behind a decision, anywhere in the log but at its end. */
  lemma {:induction false} NextInLog(l: seq<TraceEvent>, resumed: bool, ds: seq<Action>, n: nat, p: nat)
    requires l <= Opening(resumed) + TurnLog(ds, n) + [LoopEnd] && n <= |ds| + 1
    requires p < |l| && l[p].Decision?
    ensures 1 <= l[p].turn <= |ds| && l[p].turn <= n && l[p].action == ds[l[p].turn - 1]
    ensures p + 1 < |l| ==> l[p + 1] == if l[p].turn < n then TurnStart(l[p].turn + 1) else LoopEnd
    ensures p + 1 == |l| ==> |l| < |Opening(resumed) + TurnLog(ds, n) + [LoopEnd]|
  {
    var before, log := Opening(resumed), TurnLog(ds, n);
    var q := p - |before|;
    assert l[p] == (before + log + [LoopEnd])[p];
    assert 0 <= q < |log| && l[p] == log[q];
    TurnLogFollows(ds, n, q);
    hide TurnLog;
    if p + 1 < |l| { assert l[p + 1] == (log + [LoopEnd])[q + 1]; }
  }

  /** Nothing the supervisor writes is out of order, wherever a run is cut short: a turn starts only after such a decision. */
  lemma {:induction false} StartsOnlyAsDecided(tr: seq<TraceEvent>, resumed: bool, maxTurns: int, p: nat)
    requires Supervised(tr, resumed, maxTurns) && p + 1 < |Log(tr)| && Log(tr)[p].Decision? && Log(tr)[p + 1].TurnStart?
    ensures Log(tr)[p + 1].turn == Log(tr)[p].turn + 1 && Log(tr)[p].action == RerunAider && Log(tr)[p].turn < Max(1, maxTurns)
  {
    var ds, n: nat :| Obeys(ds, n, maxTurns) && Begins(tr, resumed, ds, n);
    hide TurnLog, Log, Opening;
    NextInLog(Log(tr), resumed, ds, n, p);
    assert ds[Log(tr)[p].turn - 1] == Log(tr)[p].action;
  }

  // ----- The agent. -----

  class TraceSink {
    var events: seq<TraceEvent>

    constructor ()
      ensures events == []
    {
      events := [];
    }
  }

  /** The part of `SupervisorAgent` that owns the envelope and the turn counter. */
  class SupervisorAgent {
    var phases: PhaseTable
    var started: bool
    var closed: bool
    var curTurn: nat
    var maxTurns: nat
    var lastAction: Option<Action>
    var loopStartEmitted: bool
    var sink: TraceSink

    constructor ()
      ensures Valid() && phases == [] && !started && !closed && fresh(sink)
      ensures curTurn == 0 && maxTurns == 1 && lastAction == None && !loopStartEmitted
    {
      phases, started, closed := [], false, false;
      curTurn, maxTurns, lastAction, loopStartEmitted := 0, 1, None, false;
      sink := new TraceSink();
    }

    /** A phase has one status. */
    ghost predicate Valid()
      reads this
    {
      Unique(phases)
    }

    /** The table the next envelope starts from. */
    ghost function Table(): PhaseTable
      reads this
    {
      if closed || !started then [] else phases
    }

    method Emit(e: TraceEvent)
      modifies sink
      ensures sink.events == old(sink.events) + [e]
    {
      sink.events := sink.events + [e];
    }

    /** Keeps the phase table of an envelope that is already open; otherwise clears it. */
    method BeginDelegation(sink: TraceSink, maxTurns: int)
      modifies this
      ensures this.sink == sink && this.maxTurns == Max(1, maxTurns) && curTurn == 0 && !closed
      ensures started == old(started) && lastAction == None && !loopStartEmitted
      ensures phases == if old(closed) || !old(started) then [] else old(phases)
    {
      this.sink := sink;
      this.maxTurns := Max(1, maxTurns);
      curTurn, lastAction, loopStartEmitted := 0, None, false;
      if closed {
        phases := [];
      } else if !started {
        phases := [];
      }
      closed := false;
    }

    method EmitLifecycleStart(resumed: bool)
      modifies this`started, sink
      ensures started && sink.events == old(sink.events) + [LifecycleStart(resumed)]
    {
      started := true;
      Emit(LifecycleStart(resumed));
    }

    method EmitLifecyclePhaseStart(phase: Phase)
      modifies this`phases, sink
      ensures if closed then phases == old(phases) && sink.events == old(sink.events)
              else phases == SetPhase(old(phases), phase, InProgress) && sink.events == old(sink.events) + [PhaseStart(phase)]
    {
      if closed { return; }
      phases := SetPhase(phases, phase, InProgress);
      Emit(PhaseStart(phase));
    }

    method EmitLifecyclePhaseEnd(phase: Phase, status: PhaseStatus)
      modifies this`phases, sink
      ensures if closed then phases == old(phases) && sink.events == old(sink.events)
              else phases == SetPhase(old(phases), phase, status) && sink.events == old(sink.events) + [PhaseEnd(phase, status)]
    {
      if closed { return; }
      phases := SetPhase(phases, phase, status);
      Emit(PhaseEnd(phase, status));
    }

    /** Single-shot: a second call is a no-op. */
    method EmitLifecycleEnd(outcome: string)
      modifies this`closed, sink
      ensures closed
      ensures sink.events == if old(closed) then old(sink.events) else old(sink.events) + [LifecycleEnd(outcome)]
    {
      if closed { return; }
      closed := true;
      Emit(LifecycleEnd(outcome));
    }

    method Begin()
      modifies this`loopStartEmitted, sink
      ensures loopStartEmitted
      ensures sink.events == old(sink.events) + if old(loopStartEmitted) then [] else [LoopStart]
    {
      if !loopStartEmitted {
        loopStartEmitted := true;
        Emit(LoopStart);
      }
    }

    method BeginTurn()
      modifies this`curTurn, sink
      ensures curTurn == old(curTurn) + 1 && sink.events == old(sink.events) + [TurnStart(curTurn)]
    {
      curTurn := curTurn + 1;
      Emit(TurnStart(curTurn));
    }

    predicate CanRerun()
      reads this
    {
      curTurn < maxTurns
    }

    /** The decision itself (model or policy) is an input; asking for it can be interrupted. */
    method CompleteTurn(decision: Action, clock: Clock) returns (crashed: bool)
      requires !clock.stopped
      modifies this`lastAction, sink, clock
      ensures crashed <==> old(clock.left) == Some(0)
      ensures clock.left == Ticked(old(clock.left)) && clock.stopped == crashed
      ensures !crashed ==> lastAction == Some(decision)
      ensures sink.events == old(sink.events) + [TurnEnd(curTurn)] + if crashed then [] else [Decision(curTurn, decision)]
    {
      Emit(TurnEnd(curTurn));
      crashed := clock.Strikes();
      if crashed { return; }
      lastAction := Some(decision);
      Emit(Decision(curTurn, decision));
    }

    /** True when the loop ends by escalating to the host. */
    method Finish() returns (escalated: bool)
      modifies sink
      ensures escalated <==> lastAction == Some(EscalateHost) || lastAction == Some(RerunAider)
      ensures sink.events == old(sink.events) + [LoopEnd]
    {
      escalated := lastAction == Some(EscalateHost) || lastAction == Some(RerunAider);
      Emit(LoopEnd);
    }
  }

  // ----- Interruptions. -----

  /** Where a delegation is interrupted: nowhere, at a point of the run, or once the normal record's line is written. */
  datatype Crash = Never | AtPoint(k: nat) | AfterLine

  function Ticked(left: Option<nat>): Option<nat> {
    if left.Some? && left.value > 0 then Some(left.value - 1) else left
  }

  /** Counts down the interruption points a run passes; None passes them all. */
  class Clock {
    var left: Option<nat>
    var stopped: bool

    constructor (left: Option<nat>)
      ensures this.left == left && !stopped
    {
      this.left, stopped := left, false;
    }

    /** An interrupted run passes no further point. */
    method Strikes() returns (struck: bool)
      requires !stopped
      modifies this
      ensures struck <==> old(left) == Some(0)
      ensures left == Ticked(old(left)) && stopped == struck
    {
      struck := left == Some(0);
      stopped := struck;
      if left.Some? && left.value > 0 {
        left := Some(left.value - 1);
      }
    }
  }

  // ----- delegate_to_agent. -----

  /** The envelope is still open and tracked, or it is closed and complete. */
  ghost predicate Sound(agent: SupervisorAgent, resumed: bool, done: seq<PhaseStatus>, open: bool, table: PhaseTable)
    reads agent, agent.sink
  {
    if agent.closed then WellBracketed(agent.sink.events, resumed, done) && Unique(agent.phases)
    else Tracks(agent.sink.events, agent.phases, resumed, done, open, table)
  }

  lemma {:induction false} CloseLog(tr: seq<TraceEvent>, t: PhaseTable)
    ensures Log(CrashClose(tr, t)) == Log(tr)
  {
    var inProgress := OpenPhases(t);
    if inProgress == [] {
      assert tr + [] == tr;
      LogStep(tr, LifecycleEnd("error"));
    } else {
      var e := PhaseEnd(inProgress[|inProgress| - 1], Failed);
      LogStep(tr, e);
      LogStep(tr + [e], LifecycleEnd("error"));
    }
  }

  /** `_close_lifecycle_once` for a given phase, interruptible between its events; `flag` is the server's `_lifecycle_closed`. */
  method CloseLifecycleOnce(agent: SupervisorAgent, clock: Clock, flag: bool, outcome: string, phase: Phase, status: PhaseStatus,
                            ghost resumed: bool, ghost done: seq<PhaseStatus>, ghost open: bool, ghost table: PhaseTable)
    returns (crashed: bool, flag': bool, ghost done': seq<PhaseStatus>, ghost open': bool)
    requires !clock.stopped
    requires Sound(agent, resumed, done, open, table) && (flag ==> agent.closed)
    requires !agent.closed ==> open && phase == Order(|done|)
    requires status != InProgress
    modifies agent`phases, agent`closed, agent.sink, clock
    ensures clock.stopped == crashed
    ensures Sound(agent, resumed, done', open', table) && (flag' ==> agent.closed)
    ensures !crashed ==> agent.closed && flag'
    ensures old(agent.closed) ==> done' == done
    ensures !crashed && !old(agent.closed) ==> done' == done + [status]
    ensures !old(agent.closed) ==> done' == if old(clock.left) == Some(0) then done else done + [status]
    ensures !old(agent.closed) ==> (!agent.closed && !open' <==> old(clock.left) == Some(1))
    ensures !old(agent.closed) ==> (crashed && agent.closed <==> old(clock.left) == Some(2))
    ensures old(clock.left).None? ==> !crashed && clock.left.None?
    ensures Log(agent.sink.events) == Log(old(agent.sink.events))
    ensures !old(agent.closed) && !crashed ==> EndsWith(agent.sink.events, outcome)
  {
    hide Tracks, WellBracketed, SetPhase, Unique, Log;
    crashed, flag', done', open' := false, flag, done, open;
    if flag { return; }
    if agent.closed {
      flag' := true;
      return;
    }
    crashed := clock.Strikes();
    if crashed { return; }
    TrackEnd(agent.sink.events, agent.phases, resumed, done, status, table);
    LogStep(agent.sink.events, PhaseEnd(phase, status));
    agent.EmitLifecyclePhaseEnd(phase, status);
    done', open' := done + [status], false;
    crashed := clock.Strikes();
    if crashed { return; }
    TrackClose(agent.sink.events, agent.phases, resumed, done', table, outcome);
    TrackedUnique(agent.sink.events, agent.phases, resumed, done', false, table);
    LogStep(agent.sink.events, LifecycleEnd(outcome));
    agent.EmitLifecycleEnd(outcome);
    crashed := clock.Strikes();
    if crashed { return; }
    flag' := true;
  }

  lemma {:induction false} TrackedUnique(tr: seq<TraceEvent>, t: PhaseTable, resumed: bool, done: seq<PhaseStatus>, open: bool,
                                         table: PhaseTable)
    requires Tracks(tr, t, resumed, done, open, table)
    ensures Unique(t) && Partial(tr, resumed, done, open)
  {}

  /** `_close_lifecycle_once` as the `finally` block calls it: it ends the phase that was put in the table last. */
  method CloseInFinally(agent: SupervisorAgent, flag: bool)
    requires flag ==> agent.closed
    requires agent.Valid()
    modifies agent`phases, agent`closed, agent.sink
    ensures agent.closed && agent.Valid()
    ensures agent.sink.events == if old(agent.closed) then old(agent.sink.events)
                                 else CrashClose(old(agent.sink.events), old(agent.phases))
  {
    if flag || agent.closed { return; }
    var inProgress := OpenPhases(agent.phases);
    if inProgress != [] {
      SetPhaseMembers(agent.phases, inProgress[|inProgress| - 1], Failed);
      agent.EmitLifecyclePhaseEnd(inProgress[|inProgress| - 1], Failed);
    }
    agent.EmitLifecycleEnd("error");
  }

  datatype Gate = SpecInvalid | ClarityBlocked(resolved: bool) | NoGate

  /** The gate lets the run through to the executor. */
  predicate Proceeds(gate: Gate) {
    gate.NoGate? || (gate.ClarityBlocked? && gate.resolved)
  }

  datatype Record = NormalRecord | InterruptedRecord

  /** `begin_delegation` on a fresh sink, lifecycle start, preloop start. */
  method OpenEnvelope(agent: SupervisorAgent, maxTurns: int, resumed: bool)
    requires agent.Valid()
    modifies agent
    ensures fresh(agent.sink) && agent.started && !agent.closed
    ensures Tracks(agent.sink.events, agent.phases, resumed, [], true, old(agent.Table()))
    ensures Log(agent.sink.events) == Opening(resumed)
  {
    hide Tracks, Envelope, Log;
    var sink := new TraceSink();
    agent.BeginDelegation(sink, maxTurns);
    agent.EmitLifecycleStart(resumed);
    EnvelopeOpens(resumed);
    if resumed {
      EnvelopeStep(sink.events, SupervisorResumed);
      LogStep(sink.events, SupervisorResumed);
      agent.Emit(SupervisorResumed);
    }
    TrackOpening(sink.events, agent.phases, resumed);
    LogStep(sink.events, PhaseStart(Preloop));
    agent.EmitLifecyclePhaseStart(Preloop);
  }

  lemma {:induction false} EnvelopeOpens(resumed: bool)
    ensures Envelope([] + [LifecycleStart(resumed)]) == [LifecycleStart(resumed)] && Log([] + [LifecycleStart(resumed)]) == []
  {
    EnvelopeStep([], LifecycleStart(resumed));
    LogStep([], LifecycleStart(resumed));
  }

  /** Close preloop, open loop, reset the agent for the loop and start turn one. */
  method StartLoop(agent: SupervisorAgent, clock: Clock, maxTurns: int, ghost resumed: bool, ghost table: PhaseTable)
    returns (crashed: bool, ghost done: seq<PhaseStatus>, ghost open: bool)
    requires !clock.stopped
    requires !agent.closed && agent.started && Tracks(agent.sink.events, agent.phases, resumed, [], true, table)
    requires Log(agent.sink.events) == Opening(resumed)
    modifies agent, agent.sink, clock
    ensures clock.stopped == crashed
    ensures agent.sink == old(agent.sink) && !agent.closed
    ensures Tracks(agent.sink.events, agent.phases, resumed, done, open, table)
    ensures Supervised(agent.sink.events, resumed, maxTurns) && (!crashed ==> Wrote(agent.sink.events, resumed, [], 1))
    ensures done == [Ok] && (!open <==> old(clock.left) == Some(0)) && (!crashed ==> open)
    ensures !crashed ==> agent.curTurn == 1 && agent.maxTurns == Max(1, maxTurns)
    ensures old(clock.left).None? ==> !crashed && clock.left.None?
  {
    hide Tracks, SetPhase, Log, Supervised, Wrote, Opening;
    done, open := [], true;
    TrackEnd(agent.sink.events, agent.phases, resumed, [], Ok, table);
    LogStep(agent.sink.events, PhaseEnd(Preloop, Ok));
    agent.EmitLifecyclePhaseEnd(Preloop, Ok);
    NothingWritten(agent.sink.events, resumed, maxTurns);
    assert [] + [Ok] == [Ok];
    done, open := [Ok], false;
    crashed := clock.Strikes();
    if crashed { return; }
    TrackStart(agent.sink.events, agent.phases, resumed, [Ok], table);
    LogStep(agent.sink.events, PhaseStart(Loop));
    agent.EmitLifecyclePhaseStart(Loop);
    NothingWritten(agent.sink.events, resumed, maxTurns);
    open := true;
    crashed := clock.Strikes();
    if crashed { return; }
    crashed := StartTurns(agent, clock, maxTurns, resumed, table);
  }

  /** Reset the agent for the loop and start turn one. */
  method StartTurns(agent: SupervisorAgent, clock: Clock, maxTurns: int, ghost resumed: bool, ghost table: PhaseTable)
    returns (crashed: bool)
    requires !clock.stopped
    requires !agent.closed && agent.started && Tracks(agent.sink.events, agent.phases, resumed, [Ok], true, table)
    requires Log(agent.sink.events) == Opening(resumed)
    modifies agent, agent.sink, clock
    ensures clock.stopped == crashed && clock.left == Ticked(old(clock.left)) && (crashed <==> old(clock.left) == Some(0))
    ensures agent.sink == old(agent.sink) && !agent.closed
    ensures Tracks(agent.sink.events, agent.phases, resumed, [Ok], true, table)
    ensures Supervised(agent.sink.events, resumed, maxTurns) && (!crashed ==> Wrote(agent.sink.events, resumed, [], 1))
    ensures !crashed ==> agent.curTurn == 1 && agent.maxTurns == Max(1, maxTurns)
  {
    hide Tracks, Log, Supervised, Wrote, Opening;
    agent.BeginDelegation(agent.sink, maxTurns);
    TrackOther(agent.sink.events, agent.phases, resumed, [Ok], true, table, LoopStart);
    WroteOpening(agent.sink.events, resumed, maxTurns);
    agent.Begin();
    crashed := clock.Strikes();
    if crashed { return; }
    TrackOther(agent.sink.events, agent.phases, resumed, [Ok], true, table, TurnStart(1));
    agent.BeginTurn();
  }

  /** The supervisor retry loop and `finish()`. Turn one has already run. */
  method RetryLoop(agent: SupervisorAgent, clock: Clock, usePkg: bool, maxSteps: nat, retryEnabled: bool,
                   attempts: nat -> (Attempt, Attempt), turns0: seq<Turn>, edits0: Edits, ghost fnames: FileSet,
                   ghost targets0: FileSet, ghost reaches: bool, ghost resumed: bool, ghost table: PhaseTable, ghost maxTurns: int)
    returns (crashed: bool, turns: seq<Turn>, edits: Edits, escalated: bool)
    requires !clock.stopped
    requires !agent.closed && Tracks(agent.sink.events, agent.phases, resumed, [Ok], true, table)
    requires Wrote(agent.sink.events, resumed, [], 1) && agent.maxTurns == Max(1, maxTurns)
    requires |turns0| == 1 && Run(turns0) && agent.curTurn == 1
    requires EditsOf(turns0, edits0, usePkg, fnames, targets0, retryEnabled)
    requires RunOf(turns0, edits0, maxSteps, usePkg, retryEnabled, reaches, attempts)
    modifies agent`curTurn, agent`lastAction, agent.sink, clock
    ensures clock.stopped == crashed
    ensures agent.sink == old(agent.sink) && !agent.closed
    ensures Tracks(agent.sink.events, agent.phases, resumed, [Ok], true, table)
    ensures Supervised(agent.sink.events, resumed, maxTurns)
    ensures !crashed ==> Completed(agent.sink.events, resumed, turns, usePkg, maxTurns, escalated)
    ensures Run(turns) && 1 <= |turns| <= agent.maxTurns && turns[0] == turns0[0]
    ensures EditsOf(turns, edits, usePkg, fnames, targets0, retryEnabled)
    ensures RunOf(turns, edits, maxSteps, usePkg, retryEnabled, reaches, attempts)
    ensures old(clock.left).None? ==> !crashed && clock.left.None?
  {
    hide RunOf;
    hide InLoop, Tracks, Run, FlagAt, FlagAfter, Possible, EditsOf, Wrote, Supervised, Stopped, Completed, Obeys, Log;
    turns, edits, escalated := turns0, edits0, false;
    var flag := FlagAt(turns, 1);
    ghost var ds: seq<Action> := [];
    FirstTurn(agent, resumed, table, maxTurns);
    while true
      invariant agent.sink == old(agent.sink)
      invariant InLoop(agent, resumed, table, ds, |ds| + 1, maxTurns)
      invariant |turns| == |ds| + 1 == agent.curTurn <= agent.maxTurns
      invariant |turns| == 1 || (usePkg && !turns[|turns| - 1].raised)
      invariant Run(turns) && turns[0] == turns0[0]
      invariant forall i :: 0 < i < |turns| ==> !turns[i].raised
      invariant flag == FlagAt(turns, |turns|)
      invariant EditsOf(turns, edits, usePkg, fnames, targets0, retryEnabled)
      invariant RunOf(turns, edits, maxSteps, usePkg, retryEnabled, reaches, attempts)
      invariant !clock.stopped
      invariant old(clock.left).None? ==> clock.left.None?
      decreases agent.maxTurns - agent.curTurn
    {
      InLoopMeans(agent, resumed, table, ds, |ds| + 1, maxTurns);
      crashed := clock.Strikes();
      if crashed { return; }
      var decision: Action := *;
      crashed := DecideTurn(agent, clock, decision, resumed, table, ds, maxTurns);
      if crashed { return; }
      ds := ds + [decision];
      InLoopMeans(agent, resumed, table, ds, |ds|, maxTurns);
      if !(decision == RerunAider && agent.CanRerun()) {
        StopsDecided(ds, turns, usePkg, maxTurns);
        break;
      }
      crashed := NextTurn(agent, clock, resumed, table, ds, maxTurns);
      if crashed { return; }
      InLoopMeans(agent, resumed, table, ds, |ds| + 1, maxTurns);
      var turn;
      turns, edits, turn := Rerun(turns, edits, flag, maxSteps, usePkg, retryEnabled, attempts, fnames, targets0, reaches);
      flag := FlagAfter(turn, flag);
      crashed := clock.Strikes();
      if crashed { return; }
      if !usePkg || turn.raised {
        StopsUndecided(ds, turns, usePkg, maxTurns);
        break;
      }
    }
    crashed := clock.Strikes();
    if crashed { return; }
    escalated := FinishLoop(agent, resumed, table, ds, turns, usePkg, maxTurns);
  }

  /** Inside the loop phase: n turns begun, the first |ds| decided. */
  ghost predicate InLoop(agent: SupervisorAgent, resumed: bool, table: PhaseTable, ds: seq<Action>, n: nat, maxTurns: int)
    reads agent, agent.sink
  {
    && !agent.closed && Tracks(agent.sink.events, agent.phases, resumed, [Ok], true, table)
    && Wrote(agent.sink.events, resumed, ds, n) && Obeys(ds, n, maxTurns)
  }

  lemma {:induction false} InLoopMeans(agent: SupervisorAgent, resumed: bool, table: PhaseTable, ds: seq<Action>, n: nat, maxTurns: int)
    requires InLoop(agent, resumed, table, ds, n, maxTurns)
    ensures !agent.closed && Tracks(agent.sink.events, agent.phases, resumed, [Ok], true, table)
    ensures Supervised(agent.sink.events, resumed, maxTurns) && Obeys(ds, n, maxTurns)
  {
    hide Tracks, Wrote, Obeys, Supervised;
    WroteSome(agent.sink.events, resumed, ds, n, maxTurns);
  }

  /** The end of a turn and the decision about it. */
  method DecideTurn(agent: SupervisorAgent, clock: Clock, decision: Action, ghost resumed: bool, ghost table: PhaseTable,
                    ghost ds: seq<Action>, ghost maxTurns: int)
    returns (crashed: bool)
    requires !clock.stopped
    requires InLoop(agent, resumed, table, ds, |ds| + 1, maxTurns) && agent.curTurn == |ds| + 1
    modifies agent`lastAction, agent.sink, clock
    ensures clock.stopped == crashed
    ensures agent.sink == old(agent.sink) && !agent.closed
    ensures Tracks(agent.sink.events, agent.phases, resumed, [Ok], true, table) && Supervised(agent.sink.events, resumed, maxTurns)
    ensures !crashed ==> InLoop(agent, resumed, table, ds + [decision], |ds| + 1, maxTurns) && agent.lastAction == Some(decision)
    ensures old(clock.left).None? ==> !crashed && clock.left.None?
  {
    hide Tracks, Wrote, Obeys, Supervised;
    TrackTurn(agent.sink.events, agent.phases, resumed, [Ok], true, table, agent.curTurn, decision);
    WroteEnd(agent.sink.events, resumed, ds, decision, maxTurns);
    crashed := agent.CompleteTurn(decision, clock);
    if !crashed { WroteSome(agent.sink.events, resumed, ds + [decision], |ds| + 1, maxTurns); }
  }

  /** On to the next turn. */
  method NextTurn(agent: SupervisorAgent, clock: Clock, ghost resumed: bool, ghost table: PhaseTable, ghost ds: seq<Action>,
                  ghost maxTurns: int)
    returns (crashed: bool)
    requires !clock.stopped
    requires InLoop(agent, resumed, table, ds, |ds|, maxTurns) && agent.curTurn == |ds| > 0
    requires ds[|ds| - 1] == RerunAider && |ds| < Max(1, maxTurns)
    modifies agent`curTurn, agent.sink, clock
    ensures clock.stopped == crashed
    ensures agent.sink == old(agent.sink) && !agent.closed
    ensures Tracks(agent.sink.events, agent.phases, resumed, [Ok], true, table) && Supervised(agent.sink.events, resumed, maxTurns)
    ensures !crashed ==> InLoop(agent, resumed, table, ds, |ds| + 1, maxTurns) && agent.curTurn == |ds| + 1
    ensures old(clock.left).None? ==> !crashed && clock.left.None?
  {
    hide Tracks, Wrote, Obeys, Supervised;
    WroteSome(agent.sink.events, resumed, ds, |ds|, maxTurns);
    crashed := clock.Strikes();
    if crashed { return; }
    TrackOther(agent.sink.events, agent.phases, resumed, [Ok], true, table, TurnStart(agent.curTurn + 1));
    WroteStart(agent.sink.events, resumed, ds);
    ObeysNext(ds, maxTurns);
    agent.BeginTurn();
    WroteSome(agent.sink.events, resumed, ds, |ds| + 1, maxTurns);
  }

  /** `finish()` at the end of the loop. */
  method FinishLoop(agent: SupervisorAgent, ghost resumed: bool, ghost table: PhaseTable, ghost ds: seq<Action>,
                    ghost turns: seq<Turn>, ghost usePkg: bool, ghost maxTurns: int)
    returns (escalated: bool)
    requires InLoop(agent, resumed, table, ds, |turns|, maxTurns) && Stopped(ds, turns, usePkg, maxTurns)
    requires ds != [] && agent.lastAction == Some(ds[|ds| - 1])
    modifies agent.sink
    ensures Tracks(agent.sink.events, agent.phases, resumed, [Ok], true, table) && Supervised(agent.sink.events, resumed, maxTurns)
    ensures Completed(agent.sink.events, resumed, turns, usePkg, maxTurns, escalated)
  {
    hide Tracks, Wrote, Obeys, Supervised, Stopped, Log, TurnLog;
    TrackOther(agent.sink.events, agent.phases, resumed, [Ok], true, table, LoopEnd);
    WroteLoopEnd(agent.sink.events, resumed, ds, |turns|, maxTurns);
    escalated := agent.Finish();
    assert Concluded(agent.sink.events, resumed, ds, turns, usePkg, maxTurns, escalated);
  }

  lemma {:induction false} FirstTurn(agent: SupervisorAgent, resumed: bool, table: PhaseTable, maxTurns: int)
    requires !agent.closed && Tracks(agent.sink.events, agent.phases, resumed, [Ok], true, table)
    requires Wrote(agent.sink.events, resumed, [], 1)
    ensures InLoop(agent, resumed, table, [], 1, maxTurns)
  {}

  lemma {:induction false} ObeysNext(ds: seq<Action>, maxTurns: int)
    requires Obeys(ds, |ds|, maxTurns) && ds != [] && ds[|ds| - 1] == RerunAider && |ds| < Max(1, maxTurns)
    ensures Obeys(ds, |ds| + 1, maxTurns)
  {}

  /** The loop stops on a decision. */
  lemma {:induction false} StopsDecided(ds: seq<Action>, turns: seq<Turn>, usePkg: bool, maxTurns: int)
    requires ds != [] && |turns| == |ds| && Obeys(ds, |ds|, maxTurns)
    requires |turns| == 1 || (usePkg && !turns[|turns| - 1].raised)
    requires !(ds[|ds| - 1] == RerunAider && |ds| < Max(1, maxTurns))
    ensures Stopped(ds, turns, usePkg, maxTurns)
  {}

  /** The loop stops in a rerun. */
  lemma {:induction false} StopsUndecided(ds: seq<Action>, turns: seq<Turn>, usePkg: bool, maxTurns: int)
    requires ds != [] && |turns| == |ds| + 1 && Obeys(ds, |ds| + 1, maxTurns)
    requires !usePkg || turns[|turns| - 1].raised
    ensures Stopped(ds, turns, usePkg, maxTurns)
  {}

  /** One more executor turn: with a context package, `engine.run` on the targets so far. */
  method Rerun(turns0: seq<Turn>, edits0: Edits, flag: bool, maxSteps: nat, usePkg: bool, retryEnabled: bool,
               attempts: nat -> (Attempt, Attempt), ghost fnames: FileSet, ghost targets0: FileSet, ghost reaches: bool)
    returns (turns: seq<Turn>, edits: Edits, turn: Turn)
    requires Run(turns0) && turns0 != [] && flag == FlagAt(turns0, |turns0|)
    requires forall i :: 0 < i < |turns0| ==> !turns0[i].raised
    requires EditsOf(turns0, edits0, usePkg, fnames, targets0, retryEnabled)
    requires RunOf(turns0, edits0, maxSteps, usePkg, retryEnabled, reaches, attempts)
    ensures turns == turns0 + [turn] && Run(turns) && EditsOf(turns, edits, usePkg, fnames, targets0, retryEnabled)
    ensures RunOf(turns, edits, maxSteps, usePkg, retryEnabled, reaches, attempts)
    ensures FlagAt(turns, |turns|) == FlagAfter(turn, flag)
  {
    hide Run, FlagAt, FlagAfter, Possible, EditsOf, RunOf, Follows, TurnEdits;
    EditsLength(turns0, edits0, usePkg, fnames, targets0, retryEnabled);
    var before := edits0.targets[|turns0|];
    var after, edited := before, [];
    turn := Turn(0, false, false);
    if usePkg {
      turn, after, edited := RunWithStallRetry(maxSteps, flag, retryEnabled, before, before, attempts(|turns0|));
    } else {
      IdleTurn(flag, before, retryEnabled);
    }
    RunExtend(turns0, turn);
    EditsExtend(turns0, edits0, usePkg, fnames, targets0, retryEnabled, turn, after, edited);
    RunOfExtend(turns0, edits0, maxSteps, usePkg, retryEnabled, reaches, attempts, turn, after, edited);
    turns, edits := turns0 + [turn], Edits(edits0.targets + [after], edits0.edited + [edited]);
  }

  lemma {:induction false} IdleTurn(flag: bool, targets: FileSet, retryEnabled: bool)
    ensures Possible(Turn(0, false, false), flag)
    ensures TurnEdits(Turn(0, false, false), targets, targets, [], targets, retryEnabled)
  {}

  /** Preloop gates: an early close, or go on to the executor. */
  method PreloopGate(agent: SupervisorAgent, clock: Clock, gate: Gate, ghost resumed: bool, ghost table: PhaseTable)
    returns (crashed: bool, proceed: bool, flag: bool, ghost done: seq<PhaseStatus>, ghost open: bool)
    requires !clock.stopped
    requires !agent.closed && Tracks(agent.sink.events, agent.phases, resumed, [], true, table)
    modifies agent`phases, agent`closed, agent.sink, clock
    ensures clock.stopped == crashed
    ensures agent.sink == old(agent.sink)
    ensures Sound(agent, resumed, done, open, table) && (flag ==> agent.closed)
    ensures !crashed ==> (proceed <==> Proceeds(gate))
    ensures !crashed ==> if proceed then !agent.closed && !flag && done == [] && open else flag && done == [Blocked]
    ensures !agent.closed && InGap(done, open) <==> old(clock.left) == Some(2) && !Proceeds(gate)
    ensures old(clock.left).None? ==> !crashed && clock.left.None?
    ensures old(clock.left) == Some(0) ==> crashed
    ensures Proceeds(gate) ==> (crashed <==> old(clock.left) == Some(0))
    ensures Proceeds(gate) && !crashed ==> (clock.left == Some(0) <==> old(clock.left) == Some(1))
    ensures Log(agent.sink.events) == Log(old(agent.sink.events))
    ensures !crashed && !proceed ==> EndsWith(agent.sink.events, if gate.SpecInvalid? then "invalid_spec" else "needs_input")
  {
    hide Tracks, WellBracketed, Log;
    done, open, flag, proceed := [], true, false, false;
    crashed := clock.Strikes();
    if crashed { return; }
    match gate
    case SpecInvalid =>
      crashed, flag, done, open :=
        CloseLifecycleOnce(agent, clock, flag, "invalid_spec", Preloop, Blocked, resumed, done, open, table);
    case ClarityBlocked(resolved) =>
      if resolved {
        proceed := true;
      } else {
        crashed, flag, done, open :=
          CloseLifecycleOnce(agent, clock, flag, "needs_input", Preloop, Blocked, resumed, done, open, table);
      }
    case NoGate =>
      proceed := true;
  }

  /** From the end of the loop phase to the end of the envelope. */
  method PostloopPhase(agent: SupervisorAgent, clock: Clock, flag0: bool, outcome: string, ghost resumed: bool,
                       ghost done0: seq<PhaseStatus>, ghost table: PhaseTable)
    returns (crashed: bool, flag: bool, ghost done: seq<PhaseStatus>, ghost open: bool)
    requires !clock.stopped
    requires Sound(agent, resumed, done0, false, table)
    requires if flag0 then agent.closed else !agent.closed && |done0| == 2
    modifies agent`phases, agent`closed, agent.sink, clock
    ensures clock.stopped == crashed
    ensures agent.sink == old(agent.sink)
    ensures Sound(agent, resumed, done, open, table) && (flag ==> agent.closed)
    ensures !crashed ==> flag && done == if flag0 then done0 else done0 + [Ok]
    ensures agent.closed || !InGap(done, open)
    ensures old(clock.left).None? ==> !crashed && clock.left.None?
    ensures Log(agent.sink.events) == Log(old(agent.sink.events))
    ensures if flag0 then agent.sink.events == old(agent.sink.events) else !crashed ==> EndsWith(agent.sink.events, outcome)
  {
    hide Tracks, WellBracketed, Log;
    flag, done, open := flag0, done0, false;
    crashed := clock.Strikes();
    if crashed { return; }
    var postloopStarted := false;
    if !flag {
      TrackStart(agent.sink.events, agent.phases, resumed, done, table);
      LogStep(agent.sink.events, PhaseStart(Postloop));
      agent.EmitLifecyclePhaseStart(Postloop);
      postloopStarted, open := true, true;
    }
    crashed := clock.Strikes();
    if crashed { return; }
    if postloopStarted && !flag {
      crashed, flag, done, open :=
        CloseLifecycleOnce(agent, clock, flag, outcome, Postloop, Ok, resumed, done, open, table);
    }
  }

  /** The executor turns of a run that got past the gates; turn one, then the retry loop. */
  method LoopPhase(agent: SupervisorAgent, clock: Clock, maxTurns: int, maxSteps: nat, usePkg: bool, retryEnabled: bool,
                   reaches: bool, attempts: nat -> (Attempt, Attempt), fnames: FileSet, targets0: FileSet, ghost resumed: bool,
                   ghost table: PhaseTable)
    returns (crashed: bool, turns: seq<Turn>, edits: Edits, ghost done: seq<PhaseStatus>, ghost open: bool)
    requires !clock.stopped
    requires !agent.closed && agent.started && Tracks(agent.sink.events, agent.phases, resumed, [], true, table)
    requires Log(agent.sink.events) == Opening(resumed)
    modifies agent, agent.sink, clock
    ensures clock.stopped == crashed
    ensures agent.sink == old(agent.sink) && !agent.closed
    ensures Tracks(agent.sink.events, agent.phases, resumed, done, open, table)
    ensures Supervised(agent.sink.events, resumed, maxTurns)
    ensures !crashed ==> |done| == 2 && Completed(agent.sink.events, resumed, turns, usePkg, maxTurns, done[1] == Escalated)
    ensures !crashed ==> |done| == 2 && done[0] == Ok && !open && turns != []
    ensures Run(turns) && |turns| <= Max(1, maxTurns)
    ensures EditsOf(turns, edits, usePkg, fnames, targets0, retryEnabled)
    ensures RunOf(turns, edits, maxSteps, usePkg, retryEnabled, reaches, attempts)
    ensures old(clock.left).None? ==> !crashed && clock.left.None?
    ensures InGap(done, open) <==> old(clock.left) == Some(0)
  {
    hide Tracks, EditsOf, RunOf, Follows, Log, Supervised, Completed, Wrote;
    NoTurns();
    NoEdits(usePkg, fnames, targets0, retryEnabled);
    NoRun(targets0, maxSteps, usePkg, retryEnabled, reaches, attempts);
    turns, edits := [], Edits([targets0], []);
    crashed, done, open := StartLoop(agent, clock, maxTurns, resumed, table);
    if crashed { return; }
    // Anything may raise before the executor is reached; `except Exception` swallows it.
    var turn, after, edited := Turn(0, false, true), targets0, [];
    if reaches {
      turn, after, edited :=
        RunWithStallRetry(maxSteps, false, retryEnabled, targets0, if usePkg then fnames else targets0, attempts(0));
    }
    SingleTurn(turn);
    RunOfExtend(turns, edits, maxSteps, usePkg, retryEnabled, reaches, attempts, turn, after, edited);
    EditsExtend(turns, edits, usePkg, fnames, targets0, retryEnabled, turn, after, edited);
    turns, edits := [] + [turn], Edits(edits.targets + [after], edits.edited + [edited]);
    crashed := clock.Strikes();
    if crashed { return; }
    var escalated;
    crashed, turns, edits, escalated :=
      RetryLoop(agent, clock, usePkg, maxSteps, retryEnabled, attempts, turns, edits, fnames, targets0, reaches, resumed, table,
                maxTurns);
    if crashed { return; }
    crashed := clock.Strikes();
    if crashed { return; }
    var failed: bool := *;
    var status := if escalated then Escalated else if failed then Failed else Ok;
    TrackEnd(agent.sink.events, agent.phases, resumed, done, status, table);
    LogStep(agent.sink.events, PhaseEnd(Loop, status));
    SameLog(agent.sink.events, agent.sink.events + [PhaseEnd(Loop, status)], resumed, maxTurns);
    agent.EmitLifecyclePhaseEnd(Loop, status);
    assert [Ok] + [status] == [Ok, status];
    done, open := [Ok, status], false;
  }

  lemma {:induction false} NoTurns()
    ensures Run([])
  {}

  lemma {:induction false} EditsLength(ts: seq<Turn>, e: Edits, usePkg: bool, fnames: FileSet, targets0: FileSet, retryEnabled: bool)
    requires EditsOf(ts, e, usePkg, fnames, targets0, retryEnabled)
    ensures |e.targets| == |ts| + 1 && |e.edited| == |ts|
  {}

  /**
   * The records a delegation leaves. `reached` says that it got as far as appending the normal one, `writes` that
   * this append puts its line in the log, `lastWrites` that the append in the `finally` block does.
   */
  function RecordsOf(reached: bool, crash: Crash, writes: bool, lastWrites: bool): seq<Record> {
    var written := reached && writes;
    var noted := written && crash != AfterLine;
    (if written then [NormalRecord] else []) + (if !noted && lastWrites then [InterruptedRecord] else [])
  }

  /** The log gets two records of one delegation exactly when it is interrupted behind the line of the first. */
  lemma {:induction false} TwoRecordsExactly(reached: bool, crash: Crash, writes: bool, lastWrites: bool)
    requires !crash.AtPoint? ==> reached
    ensures var records := RecordsOf(reached, crash, writes, lastWrites);
            && (|records| == 2 <==> crash == AfterLine && writes && lastWrites)
            && (|records| == 0 <==> !lastWrites && !(reached && writes))
    ensures RecordsOf(true, AfterLine, true, true) == [NormalRecord, InterruptedRecord]
  {}

  /** The interruption points at which preloop has just ended: before loop starts, or before a run closed early ends. */
  predicate InWindow(crash: Crash, gate: Gate) {
    crash == AtPoint(if Proceeds(gate) then 1 else 2)
  }

  /**
   * An implement delegation from the definition of `_close_lifecycle_once` on. A run that is not interrupted is well
   * bracketed, and so is every interrupted one on an agent with nothing but preloop in progress. If loop is in
   * progress as well, a run is well bracketed exactly if it is not interrupted where preloop has just ended.
   */
  method DelegateToAgent(agent: SupervisorAgent, resumed: bool, maxTurns: int, maxSteps: nat, usePkg: bool, retryEnabled: bool,
                         reaches: bool, attempts: nat -> (Attempt, Attempt), fnames: FileSet, targets0: FileSet, gate: Gate,
                         crash: Crash, writes: bool, lastWrites: bool)
    returns (trace: seq<TraceEvent>, records: seq<Record>, turns: seq<Turn>, edits: Edits, reached: bool,
             ghost phases: seq<PhaseStatus>)
    requires agent.Valid()
    modifies agent
    ensures trace == agent.sink.events
    ensures reached || OnlyPreloop(old(agent.Table())) ==> WellBracketed(trace, resumed, phases)
    ensures reached ==> if turns == [] then phases == [Blocked] else |phases| == 3 && phases[0] == Ok && phases[2] == Ok
    ensures Tame(old(agent.Table())) ==>
              (Bracketed(trace) <==> OnlyPreloop(old(agent.Table())) || !InWindow(crash, gate))
    ensures InWindow(crash, gate) ==> (Bracketed(trace) <==> OnlyPreloop(old(agent.Table())))
    ensures agent.closed && agent.Valid()
    ensures !crash.AtPoint? ==> reached
    ensures crash == AtPoint(0) || InWindow(crash, gate) ==> !reached
    ensures records == RecordsOf(reached, crash, writes, lastWrites)
    ensures |records| == 2 <==> crash == AfterLine && writes && lastWrites
    ensures |records| == 0 ==> !lastWrites
    ensures Run(turns) && |turns| <= Max(1, maxTurns)
    ensures EditsOf(turns, edits, usePkg, fnames, targets0, retryEnabled)
    ensures RunOf(turns, edits, maxSteps, usePkg, retryEnabled, reaches, attempts)
    ensures Supervised(trace, resumed, maxTurns)
    ensures reached ==> (turns != [] <==> Proceeds(gate))
    ensures reached && Proceeds(gate) ==>
              && |phases| == 3 && Completed(trace, resumed, turns, usePkg, maxTurns, phases[1] == Escalated)
              && TurnStarts(trace) == |turns|
    ensures reached && !Proceeds(gate) ==>
              Log(trace) == Opening(resumed) && EndsWith(trace, if gate.SpecInvalid? then "invalid_spec" else "needs_input")
  {
    hide Tracks, WellBracketed, Bracketed, Run, CrashClose, OnlyPreloop, Tame, SetPhase, Partial, Proceeds, EditsOf, Unique;
    hide Log, Supervised, Completed, TurnStarts, EndsWith, Opening, RunOf;
    ghost var table := agent.Table();
    OpenEnvelope(agent, maxTurns, resumed);
    var clock := new Clock(if crash.AtPoint? then Some(crash.k) else None);
    var flag;
    ghost var done, open;
    reached, flag, turns, edits, done, open :=
      RunToAppend(agent, clock, maxTurns, maxSteps, usePkg, retryEnabled, reaches, attempts, fnames, targets0, gate, resumed, table);
    records := [];
    var noted := false;
    if reached && writes {
      records := records + [NormalRecord];
      noted := crash != AfterLine;
    }
    if agent.closed { BracketedSome(agent.sink.events, resumed, done); }
    ghost var before := agent.sink.events;
    // finally
    if !noted {
      done := CloseInterrupted(agent, flag, resumed, done, open, table);
      if lastWrites { records := records + [InterruptedRecord]; }
    }
    trace, phases := agent.sink.events, done;
    SameLog(before, trace, resumed, maxTurns);
    if reached && Proceeds(gate) { RerunsAsDecided(trace, resumed, turns, usePkg, maxTurns, phases[1] == Escalated); }
  }

  lemma {:induction false} BracketedSome(tr: seq<TraceEvent>, resumed: bool, done: seq<PhaseStatus>)
    requires WellBracketed(tr, resumed, done)
    ensures Bracketed(tr)
  {
    hide WellBracketed;
  }

  /** The `finally` block's call, and what it makes of the trace. */
  method CloseInterrupted(agent: SupervisorAgent, flag: bool, ghost resumed: bool, ghost done: seq<PhaseStatus>, ghost open: bool,
                          ghost table: PhaseTable)
    returns (ghost done': seq<PhaseStatus>)
    requires Sound(agent, resumed, done, open, table) && (flag ==> agent.closed)
    modifies agent`phases, agent`closed, agent.sink
    ensures agent.closed && agent.Valid()
    ensures old(agent.closed) ==> done' == done && agent.sink.events == old(agent.sink.events)
    ensures Log(agent.sink.events) == Log(old(agent.sink.events))
    ensures old(agent.closed) || OnlyPreloop(table) || (Tame(table) && !InGap(done, open)) ==>
              WellBracketed(agent.sink.events, resumed, done') && Bracketed(agent.sink.events)
    ensures !old(agent.closed) && InGap(done, open) ==> (Bracketed(agent.sink.events) <==> OnlyPreloop(table))
  {
    hide Tracks, WellBracketed, Bracketed, CrashClose, OnlyPreloop, Tame, SetPhase, Partial, Unique, Log;
    done' := done;
    if agent.closed {
      BracketedSome(agent.sink.events, resumed, done);
    } else {
      TrackedUnique(agent.sink.events, agent.phases, resumed, done, open, table);
      CrashedTrace(agent.sink.events, agent.phases, resumed, done, open, table);
      CloseLog(agent.sink.events, agent.phases);
      if open { done' := done + [Failed]; }
    }
    CloseInFinally(agent, flag);
  }

  /** The `try` block up to the append of the normal record. */
  method RunToAppend(agent: SupervisorAgent, clock: Clock, maxTurns: int, maxSteps: nat, usePkg: bool, retryEnabled: bool,
                     reaches: bool, attempts: nat -> (Attempt, Attempt), fnames: FileSet, targets0: FileSet, gate: Gate,
                     ghost resumed: bool, ghost table: PhaseTable)
    returns (reached: bool, flag: bool, turns: seq<Turn>, edits: Edits, ghost done: seq<PhaseStatus>, ghost open: bool)
    requires !clock.stopped
    requires !agent.closed && agent.started && Tracks(agent.sink.events, agent.phases, resumed, [], true, table)
    requires Log(agent.sink.events) == Opening(resumed)
    modifies agent, agent.sink, clock
    ensures clock.stopped == !reached
    ensures agent.sink == old(agent.sink)
    ensures Sound(agent, resumed, done, open, table) && (flag ==> agent.closed)
    ensures Supervised(agent.sink.events, resumed, maxTurns)
    ensures reached ==> (turns != [] <==> Proceeds(gate))
    ensures reached && Proceeds(gate) ==>
              |done| == 3 && Completed(agent.sink.events, resumed, turns, usePkg, maxTurns, done[1] == Escalated)
    ensures reached && !Proceeds(gate) ==>
              && Log(agent.sink.events) == Opening(resumed)
              && EndsWith(agent.sink.events, if gate.SpecInvalid? then "invalid_spec" else "needs_input")
    ensures reached ==> flag && if turns == [] then done == [Blocked] else |done| == 3 && done[0] == Ok && done[2] == Ok
    ensures Run(turns) && |turns| <= Max(1, maxTurns) && EditsOf(turns, edits, usePkg, fnames, targets0, retryEnabled)
    ensures RunOf(turns, edits, maxSteps, usePkg, retryEnabled, reaches, attempts)
    ensures old(clock.left).None? ==> reached
    ensures old(clock.left) == Some(0) ==> !reached
    ensures !agent.closed && InGap(done, open) <==> old(clock.left) == Some(if Proceeds(gate) then 1 else 2)
  {
    hide Tracks, WellBracketed, Run, SetPhase, Proceeds, Unique, EditsOf, Partial, Log, Supervised, Completed, EndsWith, RunOf;
    NoTurns();
    NoEdits(usePkg, fnames, targets0, retryEnabled);
    NoRun(targets0, maxSteps, usePkg, retryEnabled, reaches, attempts);
    turns, edits, reached := [], Edits([targets0], []), false;
    var crashed, proceed;
    crashed, proceed, flag, done, open := PreloopGate(agent, clock, gate, resumed, table);
    NothingWritten(agent.sink.events, resumed, maxTurns);
    if crashed { return; }
    if proceed {
      crashed, turns, edits, done, open :=
        LoopPhase(agent, clock, maxTurns, maxSteps, usePkg, retryEnabled, reaches, attempts, fnames, targets0, resumed, table);
      if crashed { return; }
    }
    var outcome: string := *;
    ghost var before := agent.sink.events;
    crashed, flag, done, open := PostloopPhase(agent, clock, flag, outcome, resumed, done, table);
    SameLog(before, agent.sink.events, resumed, maxTurns);
    if crashed { return; }
    crashed := clock.Strikes();
    reached := !crashed;
  }

  /** A review delegation on the same agent: it resets the agent and leaves the envelope alone. */
  method ReviewDelegation(agent: SupervisorAgent, maxTurns: int)
    requires agent.Valid()
    modifies agent
    ensures agent.Valid() && agent.Table() == old(agent.Table())
  {
    var sink := new TraceSink();
    agent.BeginDelegation(sink, maxTurns);
    agent.Begin();
    agent.BeginTurn();
  }

  /** The table of an agent whose resume was interrupted. */
  const StaleLoop: PhaseTable := [(Loop, InProgress)]

  /** An interruption after `left` points strikes while the new agent is registered and its loop is open. */
  predicate LeavesLoopOpen(left: Option<nat>) {
    left == Some(1) || left == Some(2)
  }

  /**
   * `_handle_resume`: a new agent with an open loop phase takes the cached one's place. Interrupted before that the
   * cached agent stays, interrupted while the loop is open the new one is left with it.
   */
  method ResumePaused(cached: SupervisorAgent, left: Option<nat>) returns (agent: SupervisorAgent)
    requires cached.Valid()
    ensures agent.Valid()
    ensures if left == Some(0) then agent == cached
            else fresh(agent) && if LeavesLoopOpen(left) then agent.Table() == StaleLoop else OnlyPreloop(agent.Table())
  {
    var clock := new Clock(left);
    var next := new SupervisorAgent();
    next.EmitLifecycleStart(true);
    next.EmitLifecyclePhaseStart(Loop);
    assert next.phases == [(Loop, InProgress)] && (Loop, InProgress) in next.phases;
    next.Emit(SupervisorResumed);
    var struck := clock.Strikes();
    if struck { return cached; }
    agent := next;
    struck := clock.Strikes();
    if struck { return; }
    // `run` ends with a result or an exception; both close the loop phase and then the envelope.
    var escalated: bool, failed: bool := *, *;
    var status := if escalated then Escalated else if failed then Failed else Ok;
    struck := clock.Strikes();
    if struck { return; }
    agent.EmitLifecyclePhaseEnd(Loop, status);
    assert agent.phases == [(Loop, status)];
    struck := clock.Strikes();
    if struck { return; }
    var outcome: string := *;
    agent.EmitLifecycleEnd(outcome);
  }

  datatype Operation =
    | Implement(resumed: bool, maxTurns: int, maxSteps: nat, usePkg: bool, retryEnabled: bool, reaches: bool,
                attempts: nat -> (Attempt, Attempt), fnames: FileSet, targets: FileSet, gate: Gate, crash: Crash, writes: bool, lastWrites: bool)
    | Review(turns: int)
    | Resume(left: Option<nat>)

  /** Whether an operation leaves the agent with its loop open, given whether it found it so. */
  predicate StaleAfter(stale: bool, op: Operation) {
    match op
    case Implement(_, _, _, _, _, _, _, _, _, _, _, _, _) => false
    case Review(_) => stale
    case Resume(left) => if left == Some(0) then stale else LeavesLoopOpen(left)
  }

  /** The last delegation or resume on record was a resume interrupted while its loop was open. */
  predicate Stale(ops: seq<Operation>) {
    ops != [] && StaleAfter(Stale(ops[..|ops| - 1]), ops[|ops| - 1])
  }

  /** The agent as operations leave it: with its loop open, or with nothing but preloop in progress. */
  ghost predicate LeftAs(agent: SupervisorAgent, stale: bool)
    reads agent
  {
    agent.Valid() && if stale then agent.Table() == StaleLoop else OnlyPreloop(agent.Table())
  }

  /**
   * One operation on the cached agent: a delegation leaves a well-bracketed trace exactly if the agent was not left with
   * its loop open or the delegation is not interrupted where preloop has just ended.
   */
  method Operate(cached: SupervisorAgent, op: Operation, ghost stale: bool) returns (agent: SupervisorAgent, trace: seq<TraceEvent>)
    requires LeftAs(cached, stale)
    modifies cached
    ensures agent == cached || fresh(agent)
    ensures LeftAs(agent, StaleAfter(stale, op))
    ensures op.Implement? ==> (Bracketed(trace) <==> !stale || !InWindow(op.crash, op.gate))
  {
    hide WellBracketed, Bracketed, OnlyPreloop, Tame, Unique, Run, EditsOf, RecordsOf, InWindow;
    agent, trace := cached, [];
    match op {
      case Implement(resumed, maxTurns, maxSteps, usePkg, retryEnabled, reaches, attempts, fnames, targets, gate, crash, writes,
                     lastWrites) =>
        TableIsTame(agent.Table(), stale);
        var records, turns, edits, reached;
        ghost var phases;
        trace, records, turns, edits, reached, phases := DelegateToAgent(agent, resumed, maxTurns, maxSteps, usePkg,
          retryEnabled, reaches, attempts, fnames, targets, gate, crash, writes, lastWrites);
        NothingLeft();
      case Review(turns) =>
        ReviewDelegation(agent, turns);
      case Resume(left) =>
        agent := ResumePaused(agent, left);
    }
  }

  /** Any number of operations on one project's cached agent. An interrupted resume spoils at most one delegation. */
  method Operations(first: SupervisorAgent, ops: seq<Operation>) returns (traces: seq<seq<TraceEvent>>)
    requires first.Valid() && OnlyPreloop(first.Table())
    modifies first
    ensures |traces| == |ops|
    ensures forall i :: 0 <= i < |ops| && ops[i].Implement? ==>
              (Bracketed(traces[i]) <==> !Stale(ops[..i]) || !InWindow(ops[i].crash, ops[i].gate))
  {
    hide Bracketed, OnlyPreloop, StaleAfter, InWindow, Unique;
    traces := [];
    var agent := first;
    for n := 0 to |ops|
      invariant agent == first || fresh(agent)
      invariant LeftAs(agent, Stale(ops[..n]))
      invariant |traces| == n
      invariant forall i :: 0 <= i < n && ops[i].Implement? ==>
                  (Bracketed(traces[i]) <==> !Stale(ops[..i]) || !InWindow(ops[i].crash, ops[i].gate))
    {
      assert ops[..n + 1][..n] == ops[..n];
      var trace;
      agent, trace := Operate(agent, ops[n], Stale(ops[..n]));
      traces := traces + [trace];
    }
    assert ops[..|ops|] == ops;
  }

  lemma {:induction false} TableIsTame(table: PhaseTable, stale: bool)
    requires Unique(table) && if stale then table == StaleLoop else OnlyPreloop(table)
    ensures Tame(table) && (OnlyPreloop(table) <==> !stale)
  {
    if stale {
      assert SetPhase(table, Preloop, InProgress) == [(Loop, InProgress), (Preloop, InProgress)];
      assert OpenPhases([(Preloop, InProgress)]) == [Preloop];
      assert OpenPhases([(Loop, InProgress), (Preloop, InProgress)]) == [Loop, Preloop];
      assert (Loop, InProgress) in table;
    } else {
      CleanIsTame(table);
    }
  }

  lemma {:induction false} NothingLeft()
    ensures Unique([]) && OnlyPreloop([])
  {}

  // ----- What the agent's table does to an interrupted run. -----

  lemma {:induction false} RenderLength(done: seq<PhaseStatus>)
    ensures |RenderPhases(done)| == 2 * |done|
    ensures forall i :: 0 <= i < |done| ==> RenderPhases(done)[2 * i + 1] == PhaseEnd(Order(i), done[i])
  {
    if done != [] { RenderLength(done[..|done| - 1]); }
  }

  /** What the `finally` block adds to an open envelope: it ends the phase that was put in the table last. */
  function CrashClose(tr: seq<TraceEvent>, t: PhaseTable): seq<TraceEvent> {
    var inProgress := OpenPhases(t);
    tr + (if inProgress == [] then [] else [PhaseEnd(inProgress[|inProgress| - 1], Failed)]) + [LifecycleEnd("error")]
  }

  lemma {:induction false} CrashCloseEnvelope(tr: seq<TraceEvent>, t: PhaseTable)
    ensures var inProgress := OpenPhases(t);
            Envelope(CrashClose(tr, t)) == Envelope(tr)
              + (if inProgress == [] then [] else [PhaseEnd(inProgress[|inProgress| - 1], Failed)]) + [LifecycleEnd("error")]
  {
    var inProgress := OpenPhases(t);
    if inProgress == [] {
      assert tr + [] == tr;
      EnvelopeStep(tr, LifecycleEnd("error"));
    } else {
      var e := PhaseEnd(inProgress[|inProgress| - 1], Failed);
      EnvelopeStep(tr, e);
      EnvelopeStep(tr + [e], LifecycleEnd("error"));
    }
  }

  /** The table's last phase in progress is the trace's. */
  predicate Agrees(t: PhaseTable, done: seq<PhaseStatus>, open: bool) {
    var inProgress := OpenPhases(t);
    if open then inProgress != [] && inProgress[|inProgress| - 1] == Order(|done|) else inProgress == []
  }

  lemma {:induction false} AgreeingClose(tr: seq<TraceEvent>, t: PhaseTable, resumed: bool, done: seq<PhaseStatus>, open: bool)
    requires Partial(tr, resumed, done, open) && Agrees(t, done, open)
    ensures WellBracketed(CrashClose(tr, t), resumed, if open then done + [Failed] else done)
  {
    CrashCloseEnvelope(tr, t);
    var d := if open then done + [Failed] else done;
    assert open ==> d[..|done|] == done;
    assert Shape(CrashClose(tr, t), resumed, d, "error");
  }

  lemma {:induction false} BracketedAgrees(tr: seq<TraceEvent>, t: PhaseTable, resumed: bool, done: seq<PhaseStatus>,
                                           open: bool, r: bool, d: seq<PhaseStatus>, outcome: string)
    requires Partial(tr, resumed, done, open)
    requires Shape(CrashClose(tr, t), r, d, outcome)
    ensures Agrees(t, done, open)
  {
    hide RenderPhases, OpenPhases, Envelope, CrashClose;
    var inProgress := OpenPhases(t);
    CrashCloseEnvelope(tr, t);
    RenderLength(done);
    RenderLength(d);
    var env := Envelope(CrashClose(tr, t));
    assert |env| == 2 * |d| + 2;
    assert |env| == 2 * |done| + 2 + (if open then 1 else 0) + (if inProgress == [] then 0 else 1);
    if open {
      assert RenderPhases(d)[2 * |done| + 1] == PhaseEnd(Order(|done|), d[|done|]);
      assert env[2 * |done| + 2] == RenderPhases(d)[2 * |done| + 1];
    }
  }

  /**
   * A crash leaves a well-bracketed trace exactly when the table agrees with the trace on what is in progress.
   * A table that still holds an unfinished phase of an earlier run breaks it.
   */
  lemma {:induction false} CrashCloseExactly(tr: seq<TraceEvent>, t: PhaseTable, resumed: bool, done: seq<PhaseStatus>, open: bool)
    requires Partial(tr, resumed, done, open)
    ensures Bracketed(CrashClose(tr, t)) <==> Agrees(t, done, open)
  {
    if Agrees(t, done, open) {
      AgreeingClose(tr, t, resumed, done, open);
    }
    if Bracketed(CrashClose(tr, t)) {
      var r, d :| WellBracketed(CrashClose(tr, t), r, d);
      var outcome :| Shape(CrashClose(tr, t), r, d, outcome);
      BracketedAgrees(tr, t, resumed, done, open, r, d, outcome);
    }
  }

  /** Closing a run that tracks its table. */
  lemma {:induction false} CrashedTrace(tr: seq<TraceEvent>, t: PhaseTable, resumed: bool, done: seq<PhaseStatus>, open: bool,
                                        table: PhaseTable)
    requires Tracks(tr, t, resumed, done, open, table)
    ensures OnlyPreloop(table) || (Tame(table) && !InGap(done, open)) ==>
              var d := if open then done + [Failed] else done;
              WellBracketed(CrashClose(tr, t), resumed, d) && Bracketed(CrashClose(tr, t))
    ensures InGap(done, open) ==> (Bracketed(CrashClose(tr, t)) <==> OnlyPreloop(table))
  {
    hide CrashClose, WellBracketed, SetPhase, Bracketed;
    if InGap(done, open) { StaleTableBreaks(tr, table, resumed, done[0]); }
    if OnlyPreloop(table) { CleanIsTame(table); }
    if OnlyPreloop(table) || (Tame(table) && !InGap(done, open)) {
      if InGap(done, open) {
        AfterPreloopMembers(table, done[0]);
        OpenIsOne(t, None);
      } else if done != [] {
        OpenIsOne(t, if open then Some(Order(|done|)) else None);
      }
      AgreeingClose(tr, t, resumed, done, open);
      BracketedSome(CrashClose(tr, t), resumed, if open then done + [Failed] else done);
    }
  }

  /**
   * Whatever a table holds at the start of a delegation, closing the run right after the end of preloop is well
   * bracketed exactly if nothing but preloop was in progress in it.
   */
  lemma {:induction false} StaleTableBreaks(tr: seq<TraceEvent>, table: PhaseTable, resumed: bool, s: PhaseStatus)
    requires Partial(tr, resumed, [s], false) && Unique(table)
    ensures Bracketed(CrashClose(tr, AfterPreloop(table, s))) <==> OnlyPreloop(table)
  {
    var t := AfterPreloop(table, s);
    assert Ended([s]) && [s][0] != InProgress;
    AfterPreloopMembers(table, s);
    OpenMembers(t);
    forall q ensures q in OpenPhases(t) <==> (q, InProgress) in table && q != Preloop {}
    HeadIn(OpenPhases(t));
    if !OnlyPreloop(table) {
      var q :| (q, InProgress) in table && q != Preloop;
      assert q in OpenPhases(t);
    }
    assert Agrees(t, [s], false) <==> OnlyPreloop(table);
    hide *;
    CrashCloseExactly(tr, t, resumed, [s], false);
  }

  /** An agent left behind by an interrupted resume still has `loop` in progress; a crash right after preloop then ends it. */
  lemma {:induction false} StaleLoopBreaksBracketing(tr: seq<TraceEvent>, resumed: bool, s: PhaseStatus)
    requires Partial(tr, resumed, [s], false)
    ensures var t := AfterPreloop(StaleLoop, s);
            && CrashClose(tr, t) == tr + [PhaseEnd(Loop, Failed), LifecycleEnd("error")]
            && !Bracketed(CrashClose(tr, t))
  {
    assert SetPhase(SetPhase(StaleLoop, Preloop, InProgress), Preloop, s) == [(Loop, InProgress), (Preloop, s)];
    assert OpenPhases([(Preloop, s)]) == [] && OpenPhases([(Loop, InProgress), (Preloop, s)]) == [Loop];
    assert (Loop, InProgress) in StaleLoop;
    hide WellBracketed, Partial;
    StaleTableBreaks(tr, StaleLoop, resumed, s);
  }
}
