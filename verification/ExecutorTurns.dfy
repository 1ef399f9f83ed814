/**
 * How often the executor step runs: server/mcp_server.py (`_bounded_executor_loop`,
 * `_run_executor_with_optional_stall_retry`) and the turn accounting of the supervisor retry loop.
 */
module ExecutorTurns {
  import opened Sequences

  /** What one executor step came back with; `requested` is what a files-needed stall asks for. */
  datatype StepResult = Raised | Result(success: bool, requested: set<string>)

  /** One supervisor turn: steps run, the returned `stall_auto_retried`, whether it raised. */
  datatype Turn = Turn(calls: nat, retried: bool, raised: bool)

  /** What a turn can be, given the `stall_auto_retried` flag it starts from. */
  predicate Possible(t: Turn, flag: bool) {
    && t.calls <= 2
    && (t.calls == 2 ==> !flag)
    && (t.retried ==> !flag)
    && (t.calls == 2 ==> t.retried || t.raised)
    && !(t.retried && t.raised)
  }

  /** A raised turn leaves the flag as it was. */
  function FlagAfter(t: Turn, flag: bool): bool {
    if t.raised then flag else t.retried
  }

  function FlagAt(ts: seq<Turn>, i: nat): bool
    requires i <= |ts|
  {
    if i == 0 then false else FlagAfter(ts[i - 1], FlagAt(ts, i - 1))
  }

  /** The turns of one delegation: only the first and the last may have raised. */
  ghost predicate Run(ts: seq<Turn>) {
    && (forall i :: 0 <= i < |ts| ==> Possible(ts[i], FlagAt(ts, i)))
    && (forall i :: 0 < i < |ts| - 1 ==> !ts[i].raised)
  }

  function Calls(ts: seq<Turn>): nat {
    if ts == [] then 0 else Calls(ts[..|ts| - 1]) + ts[|ts| - 1].calls
  }

  predicate RaisedInRetry(t: Turn) { t.raised && t.calls == 2 }

  lemma {:induction false} FlagPrefix(ts: seq<Turn>, n: nat, i: nat)
    requires i <= n <= |ts|
    ensures FlagAt(ts[..n], i) == FlagAt(ts, i)
  {
    if i > 0 { FlagPrefix(ts, n, i - 1); }
  }

  lemma {:induction false} RunPrefix(ts: seq<Turn>)
    requires Run(ts) && ts != []
    ensures Run(ts[..|ts| - 1])
    ensures forall i :: 0 < i < |ts| - 1 ==> !ts[i].raised
  {
    var p := ts[..|ts| - 1];
    forall i | 0 <= i < |p| ensures Possible(p[i], FlagAt(p, i)) {
      FlagPrefix(ts, |p|, i);
    }
  }

  lemma {:induction false} RunExtend(ts: seq<Turn>, t: Turn)
    requires Run(ts) && Possible(t, FlagAt(ts, |ts|))
    requires forall i :: 0 < i < |ts| ==> !ts[i].raised
    ensures Run(ts + [t]) && Calls(ts + [t]) == Calls(ts) + t.calls
    ensures FlagAt(ts + [t], |ts| + 1) == FlagAfter(t, FlagAt(ts, |ts|))
  {
    var r := ts + [t];
    assert r[..|ts|] == ts;
    forall i | 0 <= i < |r| ensures Possible(r[i], FlagAt(r, i)) {
      FlagPrefix(r, |ts|, i);
    }
    FlagPrefix(r, |ts|, |ts|);
  }

  /** Twice the calls, against three per turn. */
  lemma {:induction false} Potential(ts: seq<Turn>)
    requires Run(ts)
    requires forall i :: 0 < i < |ts| ==> !ts[i].raised
    ensures 2 * Calls(ts) <= 3 * |ts| + (if FlagAt(ts, |ts|) then 1 else 0)
                             + (if ts != [] && RaisedInRetry(ts[0]) then 1 else 0)
  {
    if ts != [] {
      var p := ts[..|ts| - 1];
      RunPrefix(ts);
      Potential(p);
      FlagPrefix(ts, |p|, |p|);
    }
  }

  /** The bound over any number of turns. */
  lemma {:induction false} CallBound(ts: seq<Turn>)
    requires Run(ts) && ts != []
    ensures Calls(ts) <= |ts| + (|ts| + 1) / 2 + (if RaisedInRetry(ts[0]) && |ts| % 2 == 0 then 1 else 0)
  {
    var p := ts[..|ts| - 1];
    RunPrefix(ts);
    Potential(p);
    FlagPrefix(ts, |p|, |p|);
  }

  /** Two turns in a row never both run a stall retry, unless the first turn's retry raised. */
  lemma {:induction false} NoConsecutiveRetries(ts: seq<Turn>, i: nat)
    requires Run(ts) && i + 1 < |ts| && ts[i].calls == 2 && ts[i + 1].calls == 2
    ensures i == 0 && RaisedInRetry(ts[0])
  {
    assert Possible(ts[i], FlagAt(ts, i)) && Possible(ts[i + 1], FlagAt(ts, i + 1));
  }

  /** Retry on every other turn, starting with `first`. */
  function Alternate(first: Turn, n: nat): seq<Turn>
    requires n > 0
    ensures |Alternate(first, n)| == n && Alternate(first, n)[0] == first
  {
    if n == 1 then [first]
    else
      var p := Alternate(first, n - 1);
      p + [if FlagAt(p, n - 1) then Turn(1, false, false) else Turn(2, true, false)]
  }

  lemma {:induction false} SingleTurn(first: Turn)
    requires Possible(first, false)
    ensures Run([first]) && Calls([first]) == first.calls && FlagAt([first], 1) == FlagAfter(first, false)
  {
    assert [first][..0] == [];
    assert FlagAt([first], 0) == false;
  }

  lemma {:induction false} AlternateCalls(n: nat)
    requires n > 0
    ensures var first := Turn(2, false, true);
            var ts := Alternate(first, n);
            && Run(ts) && (forall i :: 0 < i < n ==> !ts[i].raised)
            && FlagAt(ts, n) == (n % 2 == 0)
            && Calls(ts) == n + (n + 1) / 2 + (if n % 2 == 0 then 1 else 0)
  {
    hide Run, FlagAt, Calls;
    var first := Turn(2, false, true);
    if n == 1 {
      SingleTurn(first);
    } else {
      AlternateCalls(n - 1);
      var p := Alternate(first, n - 1);
      RunExtend(p, if FlagAt(p, n - 1) then Turn(1, false, false) else Turn(2, true, false));
    }
  }

  /** Every run of `n` turns that opens with `first` keeps to one step per turn plus one per two turns. */
  ghost predicate BoundHolds(first: Turn, n: nat)
  {
    forall ts: seq<Turn> :: Run(ts) && |ts| == n && n > 0 && ts[0] == first ==> Calls(ts) <= n + (n + 1) / 2
  }

  /** Exactly when this natural bound can be exceeded: the first turn's stall retry raised and the turn count is even. */
  lemma {:induction false} BoundHoldsExactly(first: Turn, n: nat)
    requires n > 0 && Possible(first, false)
    ensures BoundHolds(first, n) <==> !(RaisedInRetry(first) && n % 2 == 0)
  {
    if RaisedInRetry(first) && n % 2 == 0 {
      assert first == Turn(2, false, true);
      AlternateCalls(n);
      var ts := Alternate(first, n);
      assert Run(ts) && |ts| == n && ts[0] == first && Calls(ts) > n + (n + 1) / 2;
    } else {
      forall ts: seq<Turn> | Run(ts) && |ts| == n && ts[0] == first ensures Calls(ts) <= n + (n + 1) / 2 {
        CallBound(ts);
      }
    }
  }

  // ----- What the steps may edit. -----

  type FileSet = set<string>

  /** The target files before each turn and after the last, and the files each step of a turn opens for editing. */
  datatype Edits = Edits(targets: seq<FileSet>, edited: seq<seq<FileSet>>)

  /** Every step of a turn opens the same files; a stall retry adds to the targets of the turns behind it. */
  predicate TurnEdits(t: Turn, before: FileSet, after: FileSet, edited: seq<FileSet>, opens: FileSet,
                      retryEnabled: bool) {
    && |edited| == t.calls && (forall f :: f in edited ==> f == opens)
    && if t.retried then retryEnabled && before < after else after == before
  }

  /** The first turn opens the files of the context package, a rerun the targets so far; without a package nothing reruns. */
  ghost predicate EditsOf(ts: seq<Turn>, e: Edits, usePkg: bool, fnames: FileSet, targets0: FileSet, retryEnabled: bool) {
    && |e.targets| == |ts| + 1 && |e.edited| == |ts| && e.targets[0] == targets0
    && forall i :: 0 <= i < |ts| ==>
         && (i > 0 && !usePkg ==> ts[i].calls == 0)
         && TurnEdits(ts[i], e.targets[i], e.targets[i + 1], e.edited[i], if i == 0 && usePkg then fnames else e.targets[i],
                      retryEnabled)
  }

  lemma {:induction false} NoEdits(usePkg: bool, fnames: FileSet, targets0: FileSet, retryEnabled: bool)
    ensures EditsOf([], Edits([targets0], []), usePkg, fnames, targets0, retryEnabled)
  {}

  lemma {:induction false} EditsExtend(ts: seq<Turn>, e: Edits, usePkg: bool, fnames: FileSet, targets0: FileSet,
                                       retryEnabled: bool, t: Turn, after: FileSet, edited: seq<FileSet>)
    requires EditsOf(ts, e, usePkg, fnames, targets0, retryEnabled)
    requires ts != [] && !usePkg ==> t.calls == 0
    requires TurnEdits(t, e.targets[|ts|], after, edited, if ts == [] && usePkg then fnames else e.targets[|ts|], retryEnabled)
    ensures EditsOf(ts + [t], Edits(e.targets + [after], e.edited + [edited]), usePkg, fnames, targets0, retryEnabled)
  {
    hide TurnEdits;
  }

  // ----- The methods. -----

  /** What a bounded loop meets: no time left, an exception on recording the step, or the step with its result. */
  datatype Attempt = TimedOut | TraceRaises | Runs(result: StepResult)

  /** A step is run. */
  predicate RunsStep(maxSteps: nat, attempt: Attempt) { maxSteps > 0 && attempt.Runs? }

  predicate Raises(maxSteps: nat, attempt: Attempt) {
    maxSteps > 0 && (attempt.TraceRaises? || (attempt.Runs? && attempt.result.Raised?))
  }

  /** The step came back asking for files that are no targets yet. */
  predicate AsksForMore(maxSteps: nat, attempt: Attempt, targets: FileSet) {
    maxSteps > 0 && attempt.Runs? && attempt.result.Result? && !(attempt.result.requested <= targets)
  }

  /**
   * What a turn comes to, given the flag it starts from: the second attempt is made exactly if retries are on and not used
   * up, and the first step asks for more files.
   */
  predicate Follows(t: Turn, targets: FileSet, targets': FileSet, maxSteps: nat, alreadyRetried: bool, retryEnabled: bool,
                    attempts: (Attempt, Attempt)) {
    var retries := retryEnabled && !alreadyRetried && AsksForMore(maxSteps, attempts.0, targets);
    && (t.raised <==> Raises(maxSteps, attempts.0) || (retries && Raises(maxSteps, attempts.1)))
    && (t.retried <==> retries && !Raises(maxSteps, attempts.1))
    && t.calls == (if RunsStep(maxSteps, attempts.0) then 1 else 0) + (if retries && RunsStep(maxSteps, attempts.1) then 1 else 0)
    && targets' == if t.retried then targets + attempts.0.result.requested else targets
  }

  /**
   * The turns that the attempts make: turn one raises if it does not reach the executor, a rerun without a package does
   * nothing, and every other turn follows from its attempts and the flag the turns before it left.
   */
  ghost predicate RunOf(ts: seq<Turn>, e: Edits, maxSteps: nat, usePkg: bool, retryEnabled: bool, reaches: bool,
                        attempts: nat -> (Attempt, Attempt)) {
    && |e.targets| == |ts| + 1
    && forall i: nat :: i < |ts| ==>
         TurnOf(i, ts[i], e.targets[i], e.targets[i + 1], maxSteps, usePkg, FlagAt(ts, i), retryEnabled, reaches, attempts)
  }

  predicate TurnOf(i: nat, t: Turn, targets: FileSet, targets': FileSet, maxSteps: nat, usePkg: bool, flag: bool, retryEnabled: bool,
                   reaches: bool, attempts: nat -> (Attempt, Attempt)) {
    if i == 0 && !reaches then t == Turn(0, false, true) && targets' == targets
    else if i > 0 && !usePkg then t == Turn(0, false, false) && targets' == targets
    else Follows(t, targets, targets', maxSteps, flag, retryEnabled, attempts(i))
  }

  lemma {:induction false} RunOfExtend(ts: seq<Turn>, e: Edits, maxSteps: nat, usePkg: bool, retryEnabled: bool, reaches: bool,
                                       attempts: nat -> (Attempt, Attempt), t: Turn, after: FileSet, edited: seq<FileSet>)
    requires RunOf(ts, e, maxSteps, usePkg, retryEnabled, reaches, attempts)
    requires TurnOf(|ts|, t, e.targets[|ts|], after, maxSteps, usePkg, FlagAt(ts, |ts|), retryEnabled, reaches, attempts)
    ensures RunOf(ts + [t], Edits(e.targets + [after], e.edited + [edited]), maxSteps, usePkg, retryEnabled, reaches, attempts)
  {
    hide TurnOf, FlagAt;
    var r, e' := ts + [t], Edits(e.targets + [after], e.edited + [edited]);
    assert r[..|ts|] == ts;
    forall i: nat | i < |r|
      ensures TurnOf(i, r[i], e'.targets[i], e'.targets[i + 1], maxSteps, usePkg, FlagAt(r, i), retryEnabled, reaches, attempts)
    {
      FlagPrefix(r, |ts|, i);
    }
  }

  lemma {:induction false} NoRun(targets0: FileSet, maxSteps: nat, usePkg: bool, retryEnabled: bool, reaches: bool,
                                 attempts: nat -> (Attempt, Attempt))
    ensures RunOf([], Edits([targets0], []), maxSteps, usePkg, retryEnabled, reaches, attempts)
  {}

  /** `_bounded_executor_loop`: at most one step, since every outcome of a step leaves the loop. A step opens `opens`. */
  method BoundedExecutorLoop(maxSteps: nat, opens: FileSet, attempt: Attempt) returns (result: StepResult, edited: seq<FileSet>)
    ensures edited == if RunsStep(maxSteps, attempt) then [opens] else []
    ensures maxSteps > 0 && attempt.Runs? ==> result == attempt.result
    ensures maxSteps > 0 && attempt.TraceRaises? ==> result == Raised
    ensures maxSteps == 0 || attempt.TimedOut? ==> result == Result(false, {})
  {
    edited := [];
    result := Result(false, {});
    var stop, stepIdx := false, 1;
    while !stop && stepIdx <= maxSteps
      invariant !stop ==> stepIdx == 1 && edited == [] && result == Result(false, {})
      invariant stop ==> maxSteps > 0 && attempt.Runs? && edited == [opens] && result == attempt.result
      decreases if stop then 0 else 1, maxSteps - stepIdx
    {
      if attempt.TimedOut? { break; }
      // Recording the step in the trace may raise before the step runs.
      if attempt.TraceRaises? { return Raised, edited; }
      edited := edited + [opens];
      result := attempt.result;
      if result.Raised? { return; }
      if result.success { stop := true; }
      if !result.success { stop := true; }
      stepIdx := stepIdx + 1;
    }
  }

  /** `_run_executor_with_optional_stall_retry`; both its loops run the step they were given, which opens `opens`. */
  method RunWithStallRetry(maxSteps: nat, alreadyRetried: bool, retryEnabled: bool, targets: FileSet, opens: FileSet,
                           attempts: (Attempt, Attempt))
    returns (turn: Turn, targets': FileSet, edited: seq<FileSet>)
    ensures Possible(turn, alreadyRetried)
    ensures TurnEdits(turn, targets, targets', edited, opens, retryEnabled)
    ensures Follows(turn, targets, targets', maxSteps, alreadyRetried, retryEnabled, attempts)
  {
    targets' := targets;
    var result;
    result, edited := BoundedExecutorLoop(maxSteps, opens, attempts.0);
    if result.Raised? { return Turn(|edited|, false, true), targets', edited; }
    if alreadyRetried || !retryEnabled || result.requested == {} {
      return Turn(|edited|, false, false), targets', edited;
    }
    var newPaths := result.requested - targets;
    if newPaths == {} {
      assert result.requested <= targets by {
        forall p | p in result.requested ensures p in targets { assert p !in newPaths; }
      }
      return Turn(|edited|, false, false), targets', edited;
    }
    assert !(result.requested <= targets);
    var retryResult, extra := BoundedExecutorLoop(maxSteps, opens, attempts.1);
    edited := edited + extra;
    if retryResult.Raised? { return Turn(|edited|, false, true), targets', edited; }
    turn, targets' := Turn(|edited|, true, false), targets + newPaths;
  }
}
