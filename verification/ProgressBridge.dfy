/**
 * The progress bridge between a delegation and the host: server/mcp_server.py (`_DelegationProgressBridge`),
 * as atomic steps of notifying threads, a closer and the worker thread, interleaved in any order.
 */
module ProgressBridge {
  import opened Sequences

  datatype Item = Message(text: string) | Sentinel

  /** Idle: about to `get`. TimedOut: the queue was empty, `_stopped` not yet read. */
  datatype Worker = Idle | TimedOut | Sending(text: string, heartbeat: bool) | Exited(bySentinel: bool)

  /** When a message was accepted, and whether it was forced. */
  datatype Stamp = Stamp(time: real, forced: bool)

  datatype State = State(
    throttle: real,
    stopped: bool,
    lastEmit: real,
    queue: seq<Item>,
    pending: seq<string>,     // passed the check in notify, not yet put
    worker: Worker,
    sentinelAt: Option<nat>,  // how many messages had been put when the sentinel was
    accepted: seq<string>,    // messages in the order they were put
    attempted: seq<string>,   // messages handed to ctx.info, heartbeats aside
    stamps: seq<Stamp>)

  datatype Action =
    | NotifyCheck(text: string, force: bool, now: real)
    | NotifyPut(which: nat)
    | CloseFlag
    | CloseSentinel
    | WorkerGet
    | WorkerEmpty
    | WorkerDecide(heartbeatDue: bool)
    | WorkerSent

  const HEARTBEAT := "\U{23F3} delegation in progress\U{2026}"

  function Start(throttle: real): State {
    State(throttle, false, 0.0, [], [], Idle, None, [], [], [])
  }

  predicate Accepts(s: State, force: bool, now: real) {
    !s.stopped && now > 0.0 && (force || s.lastEmit == 0.0 || now - s.lastEmit >= s.throttle)
  }

  /** One atomic step; a step that is not enabled changes nothing. */
  function Step(s: State, a: Action): State {
    match a
    case NotifyCheck(text, force, now) =>
      if Accepts(s, force, now)
      then s.(lastEmit := now, pending := s.pending + [text], stamps := s.stamps + [Stamp(now, force)])
      else s
    case NotifyPut(i) =>
      if i < |s.pending|
      then s.(pending := s.pending[..i] + s.pending[i + 1..], queue := s.queue + [Message(s.pending[i])],
              accepted := s.accepted + [s.pending[i]])
      else s
    case CloseFlag => s.(stopped := true)
    case CloseSentinel =>
      if s.stopped && s.sentinelAt.None?
      then s.(queue := s.queue + [Sentinel], sentinelAt := Some(|s.accepted|))
      else s
    case WorkerGet =>
      if s.worker.Idle? && s.queue != []
      then s.(queue := s.queue[1..],
              worker := match s.queue[0] case Sentinel => Exited(true) case Message(t) => Sending(t, false))
      else s
    case WorkerEmpty =>
      if s.worker.Idle? && s.queue == [] then s.(worker := TimedOut) else s
    case WorkerDecide(heartbeatDue) =>
      if s.worker.TimedOut?
      then s.(worker := if s.stopped then Exited(false) else if heartbeatDue then Sending(HEARTBEAT, true) else Idle)
      else s
    case WorkerSent =>
      if s.worker.Sending?
      then s.(worker := Idle, attempted := s.attempted + (if s.worker.heartbeat then [] else [s.worker.text]))
      else s
  }

  function Run(s: State, actions: seq<Action>): State {
    if actions == [] then s else Step(Run(s, actions[..|actions| - 1]), actions[|actions| - 1])
  }

  // ----- What every interleaving keeps. -----

  function Texts(q: seq<Item>): seq<string> {
    if q == [] then [] else (if q[0].Message? then [q[0].text] else []) + Texts(q[1..])
  }

  function InHand(w: Worker): seq<string> {
    if w.Sending? && !w.heartbeat then [w.text] else []
  }

  /** Nothing lost, nothing twice, nothing out of order. */
  ghost predicate Conserved(s: State) {
    s.attempted + InHand(s.worker) + Texts(s.queue) == s.accepted
  }

  /** Where the sentinel stands: what is ahead of it is what was accepted before it. */
  ghost predicate SentinelPlaced(s: State) {
    match s.sentinelAt
    case None => Sentinel !in s.queue && s.worker != Exited(true)
    case Some(k) =>
      && s.stopped && k <= |s.accepted|
      && if s.worker == Exited(true) then Sentinel !in s.queue && s.attempted == s.accepted[..k]
         else exists i: nat :: SentinelIndex(s, i, k)
  }

  ghost predicate SentinelIndex(s: State, i: nat, k: nat) {
    && i < |s.queue| && s.queue[i] == Sentinel
    && Sentinel !in s.queue[..i] && Sentinel !in s.queue[i + 1..]
    && k <= |s.accepted| && s.attempted + InHand(s.worker) + Texts(s.queue[..i]) == s.accepted[..k]
  }

  /** An unforced acceptance keeps its distance from the one before it. */
  ghost predicate Throttled(s: State) {
    && (forall i :: 0 < i < |s.stamps| && !s.stamps[i].forced ==> s.stamps[i].time - s.stamps[i - 1].time >= s.throttle)
    && (forall i :: 0 <= i < |s.stamps| ==> s.stamps[i].time > 0.0)
    && s.lastEmit == if s.stamps == [] then 0.0 else s.stamps[|s.stamps| - 1].time
  }

  ghost predicate Inv(s: State) {
    Conserved(s) && SentinelPlaced(s) && Throttled(s)
  }

  lemma {:induction false} TextsAppend(xs: seq<Item>, ys: seq<Item>)
    ensures Texts(xs + ys) == Texts(xs) + Texts(ys)
  {
    if xs == [] {
      assert xs + ys == ys;
    } else {
      assert (xs + ys)[1..] == xs[1..] + ys && (xs + ys)[0] == xs[0];
      TextsAppend(xs[1..], ys);
      var head := if xs[0].Message? then [xs[0].text] else [];
      assert Texts(xs + ys) == head + (Texts(xs[1..]) + Texts(ys));
      assert Texts(xs) == head + Texts(xs[1..]);
    }
  }

  lemma {:induction false} PutConserves(s: State, i: nat)
    requires Conserved(s) && i < |s.pending|
    ensures Conserved(Step(s, NotifyPut(i)))
  {
    TextsAppend(s.queue, [Message(s.pending[i])]);
  }

  lemma {:induction false} GetConserves(s: State)
    requires Conserved(s) && s.worker.Idle? && s.queue != []
    ensures Conserved(Step(s, WorkerGet))
  {
    assert s.attempted + InHand(s.worker) == s.attempted;
  }

  lemma {:induction false} SentConserves(s: State)
    requires Conserved(s) && s.worker.Sending?
    ensures Conserved(Step(s, WorkerSent))
  {
    assert Step(s, WorkerSent).attempted + [] == s.attempted + InHand(s.worker);
  }

  lemma {:induction false} SentinelConserves(s: State)
    requires Conserved(s)
    ensures Conserved(Step(s, CloseSentinel))
  {
    TextsAppend(s.queue, [Sentinel]);
    assert Texts(s.queue) + [] == Texts(s.queue);
  }

  lemma {:induction false} StepConserves(s: State, a: Action)
    requires Conserved(s)
    ensures Conserved(Step(s, a))
  {
    match a
    case NotifyPut(i) =>
      if i < |s.pending| { PutConserves(s, i); }
    case CloseSentinel => SentinelConserves(s);
    case WorkerGet =>
      if s.worker.Idle? && s.queue != [] { GetConserves(s); }
    case WorkerSent =>
      if s.worker.Sending? { SentConserves(s); }
    case _ =>
  }

  lemma {:induction false} StepThrottles(s: State, a: Action)
    requires Throttled(s)
    ensures Throttled(Step(s, a))
  {}

  lemma {:induction false} OthersKeepIndex(s: State, a: Action, i: nat, k: nat)
    requires SentinelIndex(s, i, k) && s.sentinelAt == Some(k) && s.stopped && s.worker != Exited(true)
    requires !a.NotifyPut? && !(a.WorkerGet? && s.worker.Idle?)
    ensures SentinelIndex(Step(s, a), i, k) && Step(s, a).worker != Exited(true)
  {
    if a.WorkerSent? && s.worker.Sending? {
      assert Step(s, a).attempted + [] == s.attempted + InHand(s.worker);
    }
  }

  lemma {:induction false} SentinelSet(s: State)
    requires Conserved(s) && SentinelPlaced(s) && s.sentinelAt.None? && s.stopped
    ensures SentinelPlaced(Step(s, CloseSentinel))
  {
    var i, s' := |s.queue|, Step(s, CloseSentinel);
    assert s'.queue[..i] == s.queue && s'.queue[i + 1..] == [];
    assert s.accepted[..|s.accepted|] == s.accepted;
    assert SentinelIndex(s', i, |s.accepted|);
  }

  lemma {:induction false} StepPlaces(s: State, a: Action)
    requires Conserved(s) && SentinelPlaced(s)
    ensures SentinelPlaced(Step(s, a))
  {
    var s' := Step(s, a);
    if s.sentinelAt.Some? && s.worker != Exited(true) {
      var k := s.sentinelAt.value;
      var i: nat :| SentinelIndex(s, i, k);
      hide SentinelIndex;
      if a.NotifyPut? && a.which < |s.pending| {
        PutBehindSentinel(s, i, k, a.which);
      } else if a.WorkerGet? && s.worker.Idle? {
        GetBeforeSentinel(s, i, k);
      } else if !a.NotifyPut? {
        OthersKeepIndex(s, a, i, k);
      }
    } else if s.sentinelAt.None? && a.CloseSentinel? && s.stopped {
      SentinelSet(s);
    } else if s.sentinelAt.Some? && a.NotifyPut? && a.which < |s.pending| {
      assert s'.accepted[..s.sentinelAt.value] == s.accepted[..s.sentinelAt.value];
    }
  }

  lemma {:induction false} PutBehindSentinel(s: State, i: nat, k: nat, j: nat)
    requires SentinelIndex(s, i, k) && j < |s.pending|
    ensures SentinelIndex(Step(s, NotifyPut(j)), i, k)
  {
    var s' := Step(s, NotifyPut(j));
    assert s'.queue[..i] == s.queue[..i] && s'.queue[i + 1..] == s.queue[i + 1..] + [Message(s.pending[j])];
    assert s'.accepted[..k] == s.accepted[..k];
  }

  lemma {:induction false} GetBeforeSentinel(s: State, i: nat, k: nat)
    requires Conserved(s) && s.worker.Idle? && s.sentinelAt == Some(k) && s.stopped
    requires SentinelIndex(s, i, k)
    ensures SentinelPlaced(Step(s, WorkerGet))
  {
    var s' := Step(s, WorkerGet);
    if i == 0 {
      assert s.queue[..0] == [] && s.queue[1..] == s.queue[0 + 1..];
    } else {
      assert s.queue[0] in s.queue[..i];
      assert s'.queue[..i - 1] == s.queue[..i][1..] && s'.queue[i - 1 + 1..] == s.queue[i + 1..];
      assert SentinelIndex(s', i - 1, k);
    }
  }

  /** Every interleaving of notifiers, closer and worker keeps the invariant. */
  lemma {:induction false} EveryRunKeeps(throttle: real, actions: seq<Action>)
    ensures Inv(Run(Start(throttle), actions))
  {
    if actions != [] {
      var p := actions[..|actions| - 1];
      EveryRunKeeps(throttle, p);
      var s := Run(Start(throttle), p);
      StepConserves(s, actions[|actions| - 1]);
      StepPlaces(s, actions[|actions| - 1]);
      StepThrottles(s, actions[|actions| - 1]);
    }
  }

  /** Messages come out in the order they were put, none twice: what was attempted is a prefix of what was accepted. */
  lemma {:induction false} DeliveredInOrder(throttle: real, actions: seq<Action>)
    ensures var s := Run(Start(throttle), actions);
            s.attempted <= s.accepted && s.attempted + InHand(s.worker) + Texts(s.queue) == s.accepted
  {
    EveryRunKeeps(throttle, actions);
  }

  /** A worker that left through the sentinel has attempted exactly what had been put before it. */
  lemma {:induction false} SentinelDrains(throttle: real, actions: seq<Action>)
    ensures var s := Run(Start(throttle), actions);
            s.worker == Exited(true) ==> s.sentinelAt.Some? && s.sentinelAt.value <= |s.accepted|
                                         && s.attempted == s.accepted[..s.sentinelAt.value]
  {
    EveryRunKeeps(throttle, actions);
  }

  /** Unforced messages are at least the throttle interval apart from the acceptance before them. */
  lemma {:induction false} UnforcedKeepDistance(throttle: real, actions: seq<Action>, i: nat)
    ensures var s := Run(Start(throttle), actions);
            0 < i < |s.stamps| && !s.stamps[i].forced ==> s.stamps[i].time - s.stamps[i - 1].time >= throttle
  {
    EveryRunKeeps(throttle, actions);
    ThrottleFixed(throttle, actions);
  }

  lemma {:induction false} ThrottleFixed(throttle: real, actions: seq<Action>)
    ensures Run(Start(throttle), actions).throttle == throttle
  {
    if actions != [] { ThrottleFixed(throttle, actions[..|actions| - 1]); }
  }

  lemma {:induction false} RunStep(s: State, actions: seq<Action>, a: Action)
    ensures Run(s, actions + [a]) == Step(Run(s, actions), a)
  {
    assert (actions + [a])[..|actions|] == actions;
  }

  /** A heartbeat is sent only when due, after an empty `get` and while not stopped, and is no notifier's message. */
  lemma {:induction false} HeartbeatsAreDue(s: State, a: Action, text: string)
    ensures Step(s, a).worker == Sending(text, true) && s.worker != Sending(text, true) ==>
              a == WorkerDecide(true) && s.worker.TimedOut? && !s.stopped && text == "\U{23F3} delegation in progress\U{2026}"
    ensures s.worker.TimedOut? && !s.stopped ==> Step(s, WorkerDecide(true)).worker.Sending? && Step(s, WorkerDecide(false)).worker.Idle?
  {}

  // ----- The other way out. -----

  /** Action i was the worker's last empty `get`, action j read the stop flag after it and ended the worker. */
  ghost predicate TimedOutAt(throttle: real, actions: seq<Action>, i: nat, j: nat) {
    && i < j < |actions| && actions[j].WorkerDecide? && LastEmpty(throttle, actions, i)
    && var s := Run(Start(throttle), actions[..j]); s.worker.TimedOut? && s.stopped
  }

  ghost predicate LastEmpty(throttle: real, actions: seq<Action>, i: nat) {
    SawEmpty(throttle, actions, i) && forall k :: i < k < |actions| ==> !SawEmpty(throttle, actions, k)
  }

  ghost predicate SawEmpty(throttle: real, actions: seq<Action>, i: nat) {
    && i < |actions| && actions[i].WorkerEmpty?
    && var s := Run(Start(throttle), actions[..i]); s.worker.Idle? && s.queue == []
  }

  /** A message was put after action i and before action j. */
  ghost predicate PutBetween(throttle: real, actions: seq<Action>, i: nat, j: nat) {
    exists k :: i <= k < j && k < |actions| && Puts(throttle, actions, k)
  }

  ghost predicate Puts(throttle: real, actions: seq<Action>, k: nat)
    requires k < |actions|
  {
    actions[k].NotifyPut? && actions[k].which < |Run(Start(throttle), actions[..k]).pending|
  }

  lemma {:induction false} RunNext(throttle: real, actions: seq<Action>, k: nat)
    requires k < |actions|
    ensures Run(Start(throttle), actions[..k + 1]) == Step(Run(Start(throttle), actions[..k]), actions[k])
  {
    assert actions[..k + 1] == actions[..k] + [actions[k]];
    RunStep(Start(throttle), actions[..k], actions[k]);
  }

  /** What had been accepted before action k. */
  function AcceptedAt(throttle: real, actions: seq<Action>, k: nat): seq<string>
    requires k <= |actions|
  {
    Run(Start(throttle), actions[..k]).accepted
  }

  /** Between two points of a run nothing is put exactly when nothing more is accepted. */
  lemma {:induction false} AcceptedBetween(throttle: real, actions: seq<Action>, i: nat, j: nat)
    requires i <= j <= |actions|
    ensures AcceptedAt(throttle, actions, i) <= AcceptedAt(throttle, actions, j)
    ensures AcceptedAt(throttle, actions, i) == AcceptedAt(throttle, actions, j) <==> !PutBetween(throttle, actions, i, j)
    decreases j - i
  {
    hide AcceptedAt, Puts;
    if i < j {
      AcceptedBetween(throttle, actions, i, j - 1);
      AcceptedNext(throttle, actions, j - 1);
      PutNext(throttle, actions, i, j);
      hide PutBetween;
      Longer(AcceptedAt(throttle, actions, i), AcceptedAt(throttle, actions, j - 1), AcceptedAt(throttle, actions, j));
    }
  }

  lemma {:induction false} AcceptedNext(throttle: real, actions: seq<Action>, k: nat)
    requires k < |actions|
    ensures AcceptedAt(throttle, actions, k) <= AcceptedAt(throttle, actions, k + 1)
    ensures AcceptedAt(throttle, actions, k) == AcceptedAt(throttle, actions, k + 1) <==> !Puts(throttle, actions, k)
  {
    RunNext(throttle, actions, k);
    PutsAccepts(Run(Start(throttle), actions[..k]), actions[k]);
    hide Run, Step;
  }

  lemma {:induction false} Longer(xs: seq<string>, ys: seq<string>, zs: seq<string>)
    requires xs <= ys <= zs
    ensures xs <= zs && (xs == zs <==> xs == ys && ys == zs)
  {}

  lemma {:induction false} PutNext(throttle: real, actions: seq<Action>, i: nat, j: nat)
    requires i < j <= |actions|
    ensures PutBetween(throttle, actions, i, j) <==> PutBetween(throttle, actions, i, j - 1) || Puts(throttle, actions, j - 1)
  {
    hide Puts;
  }

  lemma {:induction false} PutsAccepts(s: State, a: Action)
    ensures s.accepted <= Step(s, a).accepted
    ensures Step(s, a).accepted == s.accepted <==> !(a.NotifyPut? && a.which < |s.pending|)
  {}

  lemma {:induction false} TimeoutStep(s: State, a: Action)
    ensures Step(s, a).worker.TimedOut? ==>
              && Step(s, a).attempted == s.attempted
              && (s.worker.TimedOut? || (a.WorkerEmpty? && s.worker.Idle? && s.queue == []))
    ensures Step(s, a).worker == Exited(false) ==>
              && Step(s, a).attempted == s.attempted
              && (s.worker == Exited(false) || (a.WorkerDecide? && s.worker.TimedOut? && s.stopped))
  {}

  /** What a worker about to read the flag, or gone after it, has attempted. */
  lemma {:induction false} TimedOutTrace(throttle: real, actions: seq<Action>)
    ensures var s := Run(Start(throttle), actions);
            && (s.worker.TimedOut? ==> exists i: nat ::
                  LastEmpty(throttle, actions, i) && s.attempted == AcceptedAt(throttle, actions, i))
            && (s.worker == Exited(false) ==> exists i: nat, j: nat ::
                  TimedOutAt(throttle, actions, i, j) && s.attempted == AcceptedAt(throttle, actions, i))
  {
    if actions != [] {
      var n := |actions| - 1;
      var p, a := actions[..n], actions[n];
      TimedOutTrace(throttle, p);
      EveryRunKeeps(throttle, p);
      RunNext(throttle, actions, n);
      assert actions[..n + 1] == actions;
      var s0, s := Run(Start(throttle), p), Run(Start(throttle), actions);
      assert forall i :: 0 <= i <= n ==> p[..i] == actions[..i];
      TimeoutStep(s0, a);
      assert !s0.worker.Idle? ==> !SawEmpty(throttle, actions, n);
      hide Run, Step;
      if s.worker.TimedOut? {
        if s0.worker.TimedOut? {
          var i: nat :| LastEmpty(throttle, p, i) && s0.attempted == AcceptedAt(throttle, p, i);
          StillLast(throttle, actions, i);
        } else {
          assert s0.attempted + [] + [] == s0.attempted;
          assert LastEmpty(throttle, actions, n);
        }
      }
      if s.worker == Exited(false) {
        if s0.worker == Exited(false) {
          var i: nat, j: nat :| TimedOutAt(throttle, p, i, j) && s0.attempted == AcceptedAt(throttle, p, i);
          StillLast(throttle, actions, i);
          assert TimedOutAt(throttle, actions, i, j);
        } else {
          var i: nat :| LastEmpty(throttle, p, i) && s0.attempted == AcceptedAt(throttle, p, i);
          StillLast(throttle, actions, i);
          assert TimedOutAt(throttle, actions, i, n);
        }
      }
    }
  }

  /** The last empty `get` stays the last when one more action is none. */
  lemma {:induction false} StillLast(throttle: real, actions: seq<Action>, i: nat)
    requires actions != [] && LastEmpty(throttle, actions[..|actions| - 1], i) && !SawEmpty(throttle, actions, |actions| - 1)
    ensures LastEmpty(throttle, actions, i)
  {
    hide Run, Step;
    var p := actions[..|actions| - 1];
    assert forall k :: 0 <= k <= |p| ==> p[..k] == actions[..k];
    assert forall k: nat :: k < |p| ==> (SawEmpty(throttle, p, k) <==> SawEmpty(throttle, actions, k));
  }

  /**
   * Exactly the messages put before action i were attempted, so by any later point, the end of the run included, all
   * accepted ones were exactly if none was put from i up to there.
   */
  ghost predicate DeliversUpTo(throttle: real, actions: seq<Action>, i: nat) {
    var last := Run(Start(throttle), actions);
    && i < |actions| && last.attempted == AcceptedAt(throttle, actions, i)
    && (last.attempted == last.accepted <==> !PutBetween(throttle, actions, i, |actions|))
    && forall j :: i <= j <= |actions| ==>
         (last.attempted == AcceptedAt(throttle, actions, j) <==> !PutBetween(throttle, actions, i, j))
  }

  lemma {:induction false} Delivers(throttle: real, actions: seq<Action>, i: nat)
    requires i < |actions| && Run(Start(throttle), actions).attempted == AcceptedAt(throttle, actions, i)
    ensures DeliversUpTo(throttle, actions, i)
  {
    hide Run, PutBetween;
    forall j | i <= j <= |actions|
      ensures AcceptedAt(throttle, actions, i) == AcceptedAt(throttle, actions, j) <==> !PutBetween(throttle, actions, i, j)
    {
      AcceptedBetween(throttle, actions, i, j);
    }
    assert actions[..|actions|] == actions;
    assert PutBetween(throttle, actions, i, |actions|) || AcceptedAt(throttle, actions, i) == AcceptedAt(throttle, actions, |actions|);
  }

  /**
   * A worker that left through the timeout has attempted exactly what had been put before its last empty `get`. So it
   * leaves nothing behind exactly when nothing was put from then to the end of the run, the time after it left included.
   */
  lemma {:induction false} TimeoutLosesExactly(throttle: real, actions: seq<Action>)
    requires Run(Start(throttle), actions).worker == Exited(false)
    ensures exists i: nat, j: nat :: TimedOutAt(throttle, actions, i, j) && DeliversUpTo(throttle, actions, i)
  {
    hide Run;
    TimedOutTrace(throttle, actions);
    var s := Run(Start(throttle), actions);
    var i: nat, j: nat :| TimedOutAt(throttle, actions, i, j) && s.attempted == AcceptedAt(throttle, actions, i);
    Delivers(throttle, actions, i);
  }

  /** Action c put the sentinel. */
  ghost predicate SentinelPutAt(throttle: real, actions: seq<Action>, c: nat) {
    && c < |actions| && actions[c].CloseSentinel?
    && var s := Run(Start(throttle), actions[..c]); s.stopped && s.sentinelAt.None?
  }

  lemma {:induction false} SentinelStep(s: State, a: Action)
    ensures Step(s, a).sentinelAt == if a.CloseSentinel? && s.stopped && s.sentinelAt.None? then Some(|s.accepted|) else s.sentinelAt
  {}

  lemma {:induction false} SentinelTrace(throttle: real, actions: seq<Action>)
    ensures var s := Run(Start(throttle), actions);
            s.sentinelAt.Some? ==> exists c: nat ::
              SentinelPutAt(throttle, actions, c) && s.sentinelAt.value == |AcceptedAt(throttle, actions, c)|
  {
    if actions != [] {
      var n := |actions| - 1;
      var p, a := actions[..n], actions[n];
      SentinelTrace(throttle, p);
      RunNext(throttle, actions, n);
      assert actions[..n + 1] == actions;
      assert forall c :: 0 <= c <= n ==> p[..c] == actions[..c];
      var s0, s := Run(Start(throttle), p), Run(Start(throttle), actions);
      SentinelStep(s0, a);
      hide Run, Step;
      if s.sentinelAt.Some? {
        if s0.sentinelAt.Some? {
          var c: nat :| SentinelPutAt(throttle, p, c) && s0.sentinelAt.value == |AcceptedAt(throttle, p, c)|;
          assert SentinelPutAt(throttle, actions, c);
        } else {
          assert SentinelPutAt(throttle, actions, n);
        }
      }
    }
  }

  /**
   * A worker that left through the sentinel has attempted exactly what had been put before the sentinel. So it leaves
   * nothing behind exactly when nothing was put behind the sentinel.
   */
  lemma {:induction false} SentinelLosesExactly(throttle: real, actions: seq<Action>)
    requires Run(Start(throttle), actions).worker == Exited(true)
    ensures var s := Run(Start(throttle), actions);
            s.sentinelAt.Some? && (s.attempted == s.accepted <==> s.sentinelAt.value == |s.accepted|)
    ensures exists c: nat :: SentinelPutAt(throttle, actions, c) && DeliversUpTo(throttle, actions, c)
  {
    hide Run;
    var s := Run(Start(throttle), actions);
    SentinelDrains(throttle, actions);
    SentinelTrace(throttle, actions);
    var c: nat :| SentinelPutAt(throttle, actions, c) && s.sentinelAt.value == |AcceptedAt(throttle, actions, c)|;
    AcceptedBetween(throttle, actions, c, |actions|);
    assert actions[..|actions|] == actions;
    assert s.attempted == AcceptedAt(throttle, actions, c);
    Delivers(throttle, actions, c);
  }

  /** That happens too: a notifier that passed the check before the flag was raised puts its message behind the sentinel. */
  lemma {:induction false} SentinelCanLose(throttle: real)
    ensures var s := Run(Start(throttle), [NotifyCheck("m", true, 1.0), CloseFlag, CloseSentinel, NotifyPut(0), WorkerGet]);
            s.worker == Exited(true) && s.accepted == ["m"] && s.attempted == [] && s.queue == [Message("m")]
  {
    var a1, a2, a3, a4, a5 := NotifyCheck("m", true, 1.0), CloseFlag, CloseSentinel, NotifyPut(0), WorkerGet;
    var s0 := Start(throttle);
    var s1 := s0.(lastEmit := 1.0, pending := ["m"], stamps := [Stamp(1.0, true)]);
    var s3 := s1.(stopped := true, queue := [Sentinel], sentinelAt := Some(0));
    assert [] + ["m"] == ["m"] && [] + [Stamp(1.0, true)] == [Stamp(1.0, true)];
    RunStep(s0, [], a1);
    assert [] + [a1] == [a1] && Run(s0, [a1]) == s1;
    RunStep(s0, [a1], a2);
    assert [a1] + [a2] == [a1, a2];
    RunStep(s0, [a1, a2], a3);
    assert [a1, a2] + [a3] == [a1, a2, a3] && Run(s0, [a1, a2, a3]) == s3;
    SentinelExit(s3);
    RunStep(s0, [a1, a2, a3], a4);
    RunStep(s0, [a1, a2, a3, a4], a5);
    assert [a1, a2, a3] + [a4] == [a1, a2, a3, a4] && [a1, a2, a3, a4] + [a5] == [a1, a2, a3, a4, a5];
  }

  /** A put behind the sentinel, and the worker takes the sentinel. */
  lemma {:induction false} SentinelExit(s: State)
    requires s.queue == [Sentinel] && s.pending == ["m"] && s.accepted == s.attempted == [] && s.worker.Idle?
    ensures var s' := Step(Step(s, NotifyPut(0)), WorkerGet);
            s'.worker == Exited(true) && s'.accepted == ["m"] && s'.attempted == [] && s'.queue == [Message("m")]
  {
    assert Step(s, NotifyPut(0)).queue == [Sentinel, Message("m")];
  }

  /**
   * A timeout exit can lose one as well: a worker that saw an empty queue before the message was put, and the stop
   * flag after it, leaves the message behind.
   */
  lemma {:induction false} TimeoutCanLose(throttle: real)
    ensures var s := Run(Start(throttle), [WorkerEmpty, NotifyCheck("m", true, 1.0), NotifyPut(0), CloseFlag, WorkerDecide(false)]);
            s.worker == Exited(false) && s.accepted == ["m"] && s.attempted == []
  {
    var a1, a2, a3, a4, a5 := WorkerEmpty, NotifyCheck("m", true, 1.0), NotifyPut(0), CloseFlag, WorkerDecide(false);
    var s0 := Start(throttle);
    var s1, s2 := s0.(worker := TimedOut), Step(s0.(worker := TimedOut), a2);
    RunStep(s0, [], a1);
    assert [] + [a1] == [a1] && Run(s0, [a1]) == s1;
    RunStep(s0, [a1], a2);
    assert [a1] + [a2] == [a1, a2] && Run(s0, [a1, a2]) == s2;
    RunStep(s0, [a1, a2], a3);
    assert [a1, a2] + [a3] == [a1, a2, a3];
    var s3 := Run(s0, [a1, a2, a3]);
    assert s3.worker == TimedOut && s3.accepted == ["m"] && s3.attempted == [];
    RunStep(s0, [a1, a2, a3], a4);
    RunStep(s0, [a1, a2, a3, a4], a5);
    assert [a1, a2, a3] + [a4] == [a1, a2, a3, a4] && [a1, a2, a3, a4] + [a5] == [a1, a2, a3, a4, a5];
  }

  // ----- The object itself. -----

  /** Each method is one atomic step of some thread. */
  class Bridge {
    const throttle: real
    var stopped: bool
    var lastEmit: real
    var queue: seq<Item>
    ghost var history: State

    /** Everything the threads share, with the history of what happened. */
    ghost function View(): State
      reads this
    {
      history.(throttle := throttle, stopped := stopped, lastEmit := lastEmit, queue := queue)
    }

    constructor (throttle: real)
      ensures View() == Start(throttle)
    {
      this.throttle, stopped, lastEmit, queue := throttle, false, 0.0, [];
      history := Start(throttle);
    }

    /** The first half of `notify`: whether the message goes on to the queue. */
    method Check(text: string, force: bool, now: real) returns (accepted: bool)
      requires now > 0.0
      modifies this
      ensures View() == Step(old(View()), NotifyCheck(text, force, now))
      ensures accepted <==> Accepts(old(View()), force, now)
    {
      ghost var next := Step(View(), NotifyCheck(text, force, now));
      if stopped { return false; }
      if !force && lastEmit != 0.0 && now - lastEmit < throttle { return false; }
      lastEmit := now;
      history := next;
      return true;
    }

    /** The second half of `notify`. */
    method Put(ghost which: nat, text: string)
      requires which < |history.pending| && history.pending[which] == text
      modifies this
      ensures View() == Step(old(View()), NotifyPut(which))
    {
      history := Step(View(), NotifyPut(which));
      queue := queue + [Message(text)];
    }

    method RaiseFlag() returns (first: bool)
      modifies this
      ensures View() == Step(old(View()), CloseFlag) && first == !old(stopped)
    {
      first := !stopped;
      stopped := true;
    }

    method PutSentinel()
      requires stopped && history.sentinelAt.None?
      modifies this
      ensures View() == Step(old(View()), CloseSentinel)
    {
      history := Step(View(), CloseSentinel);
      queue := queue + [Sentinel];
    }

    /** `queue.get`: None stands for the `Empty` exception. */
    method Get() returns (item: Option<Item>)
      requires history.worker.Idle?
      modifies this
      ensures item.None? ==> old(queue) == [] && View() == Step(old(View()), WorkerEmpty)
      ensures item.Some? ==> old(queue) != [] && item.value == old(queue)[0] && View() == Step(old(View()), WorkerGet)
    {
      if queue == [] {
        history := Step(View(), WorkerEmpty);
        return None;
      }
      item := Some(queue[0]);
      history := Step(View(), WorkerGet);
      queue := queue[1..];
    }
  }
}
