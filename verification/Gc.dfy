/** Mark and sweep of expired traces and context-package blobs: core/cli/maintenance.py (`_cmd_gc`). */
module Gc {
  import opened Sequences

  /** One delegations.jsonl row; an absent or blank delegation id is "", a blank hash is None. */
  datatype LogRow = LogRow(id: string, createdAt: Option<int>, packageHash: Option<string>)

  /** traces/<id>.jsonl; `training` says that <id>-training.json sits beside it. */
  datatype Trace = Trace(id: string, headerAt: Option<int>, mtime: int, size: nat, training: bool)

  /** context_packages/<hash>.json */
  datatype Blob = Blob(hash: string, size: nat)

  datatype Session = Session(rows: seq<LogRow>, traces: seq<Trace>, blobs: seq<Blob>)

  /** Trace names are unique within their directory. */
  predicate Valid(s: Session) {
    forall i, j :: 0 <= i < j < |s.traces| ==> s.traces[i].id != s.traces[j].id
  }

  // ----- What is prunable. -----

  /** The last parseable creation time logged for a delegation. */
  function RowCreated(rows: seq<LogRow>, id: string): Option<int> {
    if rows == [] then None
    else
      var r := rows[|rows| - 1];
      if r.id == id && r.createdAt.Some? then r.createdAt else RowCreated(rows[..|rows| - 1], id)
  }

  function CreatedAt(s: Session, t: Trace): int {
    if t.headerAt.Some? then t.headerAt.value
    else
      var logged := if t.id == "" then None else RowCreated(s.rows, t.id);
      if logged.Some? then logged.value else t.mtime
  }

  predicate Prunable(s: Session, t: Trace, cutoff: int) {
    CreatedAt(s, t) < cutoff && !t.training
  }

  predicate PrunableId(s: Session, id: string, cutoff: int) {
    exists t :: t in s.traces && t.id == id && Prunable(s, t, cutoff)
  }

  predicate References(r: LogRow, hash: string) {
    r.id != "" && r.packageHash == Some(hash)
  }

  /** Some delegation whose trace is not prunable (or is gone) still refers to the blob. */
  predicate Live(s: Session, hash: string, cutoff: int) {
    exists r :: r in s.rows && References(r, hash) && !PrunableId(s, r.id, cutoff)
  }

  // ----- Mark. -----

  predicate LogRefers(rows: seq<LogRow>, id: string, h: string) {
    exists r :: r in rows && r.id == id && r.packageHash == Some(h)
  }

  function Look(createdAt: map<string, int>, id: string): Option<int> {
    if id in createdAt then Some(createdAt[id]) else None
  }

  predicate Has(hashes: map<string, set<string>>, id: string, h: string) {
    id in hashes && h in hashes[id]
  }

  /** The two dictionaries say what the log says. */
  ghost predicate LogRead(createdAt: map<string, int>, hashes: map<string, set<string>>, rows: seq<LogRow>) {
    && (forall id :: Look(createdAt, id) == if id == "" then None else RowCreated(rows, id))
    && (forall id, h :: Has(hashes, id, h) <==> id != "" && LogRefers(rows, id, h))
  }

  lemma {:induction false} LogReadStep(createdAt: map<string, int>, hashes: map<string, set<string>>, rows: seq<LogRow>, row: LogRow,
                                       createdAt': map<string, int>, hashes': map<string, set<string>>)
    requires LogRead(createdAt, hashes, rows)
    requires createdAt' == if row.id != "" && row.createdAt.Some? then createdAt[row.id := row.createdAt.value] else createdAt
    requires hashes' == if row.id != "" && row.packageHash.Some?
                        then hashes[row.id := (if row.id in hashes then hashes[row.id] else {}) + {row.packageHash.value}]
                        else hashes
    ensures LogRead(createdAt', hashes', rows + [row])
  {
    forall id ensures Look(createdAt', id) == if id == "" then None else RowCreated(rows + [row], id) {
      assert (rows + [row])[..|rows|] == rows;
      assert Look(createdAt, id) == if id == "" then None else RowCreated(rows, id);
    }
    forall id, h ensures Has(hashes', id, h) <==> id != "" && LogRefers(rows + [row], id, h) {
      assert row in rows + [row];
      assert LogRefers(rows + [row], id, h) <==> LogRefers(rows, id, h) || (row.id == id && row.packageHash == Some(h));
      assert Has(hashes, id, h) <==> id != "" && LogRefers(rows, id, h);
    }
  }

  /** The dictionaries built from the delegation log. */
  method ReadLog(rows: seq<LogRow>) returns (createdAt: map<string, int>, hashes: map<string, set<string>>)
    ensures LogRead(createdAt, hashes, rows)
  {
    hide LogRead;
    createdAt, hashes := map[], map[];
    LogReadNone();
    for n := 0 to |rows|
      invariant LogRead(createdAt, hashes, rows[..n])
    {
      var row := rows[n];
      ghost var createdAt0, hashes0 := createdAt, hashes;
      if row.id != "" {
        if row.createdAt.Some? { createdAt := createdAt[row.id := row.createdAt.value]; }
        if row.packageHash.Some? {
          var known := if row.id in hashes then hashes[row.id] else {};
          hashes := hashes[row.id := known + {row.packageHash.value}];
        }
      }
      LogReadStep(createdAt0, hashes0, rows[..n], row, createdAt, hashes);
      assert rows[..n + 1] == rows[..n] + [row];
    }
    assert rows[..|rows|] == rows;
  }

  lemma {:induction false} LogReadNone()
    ensures LogRead(map[], map[], [])
  {}

  /** A file to delete: the session it is in, and its name and size. */
  datatype Target = TraceFile(session: nat, id: string, size: nat) | BlobFile(session: nat, hash: string, size: nat)

  function TraceTargets(s: Session, n: nat, cutoff: int, upTo: nat): seq<Target>
    requires upTo <= |s.traces|
  {
    if upTo == 0 then []
    else
      var t := s.traces[upTo - 1];
      TraceTargets(s, n, cutoff, upTo - 1) + (if Prunable(s, t, cutoff) then [TraceFile(n, t.id, t.size)] else [])
  }

  function BlobTargets(s: Session, n: nat, cutoff: int, upTo: nat): seq<Target>
    requires upTo <= |s.blobs|
  {
    if upTo == 0 then []
    else
      var b := s.blobs[upTo - 1];
      BlobTargets(s, n, cutoff, upTo - 1) + (if !Live(s, b.hash, cutoff) then [BlobFile(n, b.hash, b.size)] else [])
  }

  function Size(targets: seq<Target>): nat {
    if targets == [] then 0 else Size(targets[..|targets| - 1]) + targets[|targets| - 1].size
  }

  /** Python's `trace_prunable_by_delegation.get(id, False)`. */
  predicate Pruned(prunable: map<string, bool>, id: string) {
    id in prunable && prunable[id]
  }

  predicate PrunableBefore(s: Session, id: string, cutoff: int, k: nat)
    requires k <= |s.traces|
  {
    exists i :: 0 <= i < k && s.traces[i].id == id && Prunable(s, s.traces[i], cutoff)
  }

  lemma {:induction false} PrunableNext(s: Session, cutoff: int, k: nat, id: string)
    requires Valid(s) && k < |s.traces|
    ensures PrunableBefore(s, id, cutoff, k + 1)
       <==> if s.traces[k].id == id then Prunable(s, s.traces[k], cutoff) else PrunableBefore(s, id, cutoff, k)
  {}

  lemma {:induction false} PrunableEnd(s: Session, cutoff: int, id: string)
    ensures PrunableBefore(s, id, cutoff, |s.traces|) <==> PrunableId(s, id, cutoff)
  {
    if PrunableId(s, id, cutoff) {
      var t :| t in s.traces && t.id == id && Prunable(s, t, cutoff);
      var i :| 0 <= i < |s.traces| && s.traces[i] == t;
      assert PrunableBefore(s, id, cutoff, |s.traces|);
    }
  }

  /** Scan one session's traces: which ids are prunable, and which files. */
  method MarkTraces(s: Session, n: nat, cutoff: int, createdAt: map<string, int>)
    returns (prunable: map<string, bool>, targets: seq<Target>, blocked: nat)
    requires Valid(s)
    requires forall id :: Look(createdAt, id) == if id == "" then None else RowCreated(s.rows, id)
    ensures forall id :: Pruned(prunable, id) <==> PrunableId(s, id, cutoff)
    ensures targets == TraceTargets(s, n, cutoff, |s.traces|)
    ensures blocked == |Filter(s.traces, (t: Trace) => CreatedAt(s, t) < cutoff && t.training)|
  {
    hide CreatedAt, PrunableId, PrunableBefore, RowCreated, Filter, Prunable;
    prunable, targets, blocked := map[], [], 0;
    ghost var pinned := (t: Trace) => CreatedAt(s, t) < cutoff && t.training;
    MarkStart(s, cutoff, pinned);
    for k := 0 to |s.traces|
      invariant forall id :: Pruned(prunable, id) <==> PrunableBefore(s, id, cutoff, k)
      invariant targets == TraceTargets(s, n, cutoff, k)
      invariant blocked == |Filter(s.traces[..k], pinned)|
    {
      var t := s.traces[k];
      ghost var before := prunable;
      MarkCount(s, k, pinned);
      var created := if t.headerAt.Some? then t.headerAt.value
                     else if t.id in createdAt then createdAt[t.id] else t.mtime;
      CreatedHere(s, t, createdAt, cutoff);
      var isOld := created < cutoff;
      if isOld && t.training {
        blocked := blocked + 1;
        prunable := prunable[t.id := false];
      } else if isOld {
        targets := targets + [TraceFile(n, t.id, t.size)];
        prunable := prunable[t.id := true];
      } else {
        prunable := prunable[t.id := false];
      }
      forall id ensures Pruned(prunable, id) <==> PrunableBefore(s, id, cutoff, k + 1) {
        PrunableNext(s, cutoff, k, id);
        assert Pruned(before, id) <==> PrunableBefore(s, id, cutoff, k);
      }
    }
    forall id ensures Pruned(prunable, id) <==> PrunableId(s, id, cutoff) { PrunableEnd(s, cutoff, id); }
    assert s.traces[..|s.traces|] == s.traces;
  }

  lemma {:induction false} MarkStart(s: Session, cutoff: int, p: Trace -> bool)
    ensures forall id :: Pruned(map[], id) <==> PrunableBefore(s, id, cutoff, 0)
    ensures Filter(s.traces[..0], p) == []
  {}

  lemma {:induction false} MarkCount(s: Session, k: nat, p: Trace -> bool)
    requires k < |s.traces|
    ensures |Filter(s.traces[..k + 1], p)| == |Filter(s.traces[..k], p)| + if p(s.traces[k]) then 1 else 0
  {
    assert s.traces[..k + 1] == s.traces[..k] + [s.traces[k]];
    FilterAppend(s.traces[..k], [s.traces[k]], p);
  }

  lemma {:induction false} CreatedHere(s: Session, t: Trace, createdAt: map<string, int>, cutoff: int)
    requires forall id :: Look(createdAt, id) == if id == "" then None else RowCreated(s.rows, id)
    ensures CreatedAt(s, t) == if t.headerAt.Some? then t.headerAt.value
                               else if t.id in createdAt then createdAt[t.id] else t.mtime
    ensures Prunable(s, t, cutoff) <==> CreatedAt(s, t) < cutoff && !t.training
  {
    assert Look(createdAt, t.id) == if t.id == "" then None else RowCreated(s.rows, t.id);
  }

  /** Hashes kept alive, then the blobs that are not. */
  method MarkBlobs(s: Session, n: nat, cutoff: int, prunable: map<string, bool>, hashes: map<string, set<string>>)
    returns (targets: seq<Target>)
    requires forall id :: Pruned(prunable, id) <==> PrunableId(s, id, cutoff)
    requires forall id, h :: Has(hashes, id, h) <==> id != "" && LogRefers(s.rows, id, h)
    ensures targets == BlobTargets(s, n, cutoff, |s.blobs|)
  {
    var live: set<string> := {};
    var ids := hashes.Keys;
    while ids != {}
      invariant ids <= hashes.Keys
      invariant forall h :: h in live <==>
                  exists id :: Has(hashes, id, h) && id !in ids && !PrunableId(s, id, cutoff)
      decreases |ids|
    {
      var id :| id in ids;
      if !Pruned(prunable, id) { live := live + hashes[id]; }
      ids := ids - {id};
    }
    forall h ensures h in live <==> Live(s, h, cutoff) {
      if h in live {
        var id :| Has(hashes, id, h) && !PrunableId(s, id, cutoff);
        assert LogRefers(s.rows, id, h);
        var r :| r in s.rows && r.id == id && r.packageHash == Some(h);
        assert References(r, h);
      }
      if Live(s, h, cutoff) {
        var r :| r in s.rows && References(r, h) && !PrunableId(s, r.id, cutoff);
        assert LogRefers(s.rows, r.id, h);
        assert Has(hashes, r.id, h);
      }
    }
    targets := [];
    for k := 0 to |s.blobs|
      invariant targets == BlobTargets(s, n, cutoff, k)
    {
      var b := s.blobs[k];
      if b.hash !in live { targets := targets + [BlobFile(n, b.hash, b.size)]; }
    }
  }

  // ----- Sweep. -----

  function AllTraceTargets(sessions: seq<Session>, cutoff: int, upTo: nat): seq<Target>
    requires upTo <= |sessions|
  {
    if upTo == 0 then []
    else
      var s := sessions[upTo - 1];
      AllTraceTargets(sessions, cutoff, upTo - 1) + TraceTargets(s, upTo - 1, cutoff, |s.traces|)
  }

  function AllBlobTargets(sessions: seq<Session>, cutoff: int, upTo: nat): seq<Target>
    requires upTo <= |sessions|
  {
    if upTo == 0 then []
    else
      var s := sessions[upTo - 1];
      AllBlobTargets(sessions, cutoff, upTo - 1) + BlobTargets(s, upTo - 1, cutoff, |s.blobs|)
  }

  /** Expired traces that a training sidecar pins. */
  function AllPinned(sessions: seq<Session>, cutoff: int, upTo: nat): nat
    requires upTo <= |sessions|
  {
    if upTo == 0 then 0
    else
      var s := sessions[upTo - 1];
      AllPinned(sessions, cutoff, upTo - 1) + |Filter(s.traces, (t: Trace) => CreatedAt(s, t) < cutoff && t.training)|
  }

  /** Everything one run wants to delete: traces first, then blobs. */
  function Targets(sessions: seq<Session>, cutoff: int): seq<Target> {
    AllTraceTargets(sessions, cutoff, |sessions|) + AllBlobTargets(sessions, cutoff, |sessions|)
  }

  datatype Report = Report(tracePrunable: nat, tracePrunableBytes: nat, blocked: nat,
                           blobPrunable: nat, blobPrunableBytes: nat,
                           prunedCount: nat, prunedBytes: nat, wouldFreeBytes: nat)

  lemma {:induction false} SizeAppend(xs: seq<Target>, ys: seq<Target>)
    ensures Size(xs + ys) == Size(xs) + Size(ys)
  {
    if ys == [] {
      assert xs + ys == xs;
    } else {
      var n := |ys| - 1;
      assert (xs + ys)[..|xs| + n] == xs + ys[..n];
      SizeAppend(xs, ys[..n]);
    }
  }

  /** One `unlink` loop; `stuck` are the files whose deletion fails. */
  method Sweep(targets: seq<Target>, stuck: set<Target>, deleted0: seq<Target>, bytes0: nat)
    returns (deleted: seq<Target>, bytes: nat)
    requires bytes0 == Size(deleted0)
    ensures deleted == deleted0 + Filter(targets, (f: Target) => f !in stuck)
    ensures bytes == Size(deleted)
  {
    hide Filter, Size;
    deleted, bytes := deleted0, bytes0;
    ghost var free := (f: Target) => f !in stuck;
    SweepNone(free);
    for n := 0 to |targets|
      invariant deleted == deleted0 + Filter(targets[..n], free)
      invariant bytes == Size(deleted)
    {
      SweepStep(targets, n, free);
      if targets[n] in stuck { continue; }
      SizeOne(deleted, targets[n]);
      deleted, bytes := deleted + [targets[n]], bytes + targets[n].size;
    }
    assert targets[..|targets|] == targets;
  }

  lemma {:induction false} SweepNone(p: Target -> bool)
    ensures Filter([], p) == [] && Size([]) == 0
  {}

  lemma {:induction false} SweepStep(targets: seq<Target>, n: nat, p: Target -> bool)
    requires n < |targets|
    ensures Filter(targets[..n + 1], p) == Filter(targets[..n], p) + if p(targets[n]) then [targets[n]] else []
  {
    assert targets[..n + 1] == targets[..n] + [targets[n]];
    FilterAppend(targets[..n], [targets[n]], p);
  }

  lemma {:induction false} SizeOne(xs: seq<Target>, f: Target)
    ensures Size(xs + [f]) == Size(xs) + f.size
  {
    assert (xs + [f])[..|xs|] == xs;
  }

  lemma {:induction false} LogReadGives(createdAt: map<string, int>, hashes: map<string, set<string>>, rows: seq<LogRow>)
    requires LogRead(createdAt, hashes, rows)
    ensures forall id :: Look(createdAt, id) == if id == "" then None else RowCreated(rows, id)
    ensures forall id, h :: Has(hashes, id, h) <==> id != "" && LogRefers(rows, id, h)
  {}

  /** `_cmd_gc` with a TTL policy. */
  method Collect(sessions: seq<Session>, cutoff: int, dryRun: bool, stuck: set<Target>)
    returns (report: Report, deleted: seq<Target>)
    requires forall s :: s in sessions ==> Valid(s)
    ensures deleted == if dryRun then [] else Filter(Targets(sessions, cutoff), (f: Target) => f !in stuck)
    ensures report.prunedCount == |deleted| && report.prunedBytes == Size(deleted)
    ensures var traces, blobs := AllTraceTargets(sessions, cutoff, |sessions|), AllBlobTargets(sessions, cutoff, |sessions|);
            && report.tracePrunable == |traces| && report.tracePrunableBytes == Size(traces)
            && report.blobPrunable == |blobs| && report.blobPrunableBytes == Size(blobs)
    ensures report.tracePrunable + report.blobPrunable == |Targets(sessions, cutoff)|
    ensures report.wouldFreeBytes == Size(Targets(sessions, cutoff))
    ensures report.blocked == AllPinned(sessions, cutoff, |sessions|)
  {
    hide Filter, TraceTargets, BlobTargets, LogRead, Size;
    SweepNone((f: Target) => f !in stuck);
    var traceTargets, blobTargets, blocked := [], [], 0;
    for n := 0 to |sessions|
      invariant traceTargets == AllTraceTargets(sessions, cutoff, n)
      invariant blobTargets == AllBlobTargets(sessions, cutoff, n)
      invariant blocked == AllPinned(sessions, cutoff, n)
    {
      assert sessions[n] in sessions;
      var createdAt, hashes := ReadLog(sessions[n].rows);
      LogReadGives(createdAt, hashes, sessions[n].rows);
      var prunable, traces, pinned := MarkTraces(sessions[n], n, cutoff, createdAt);
      var blobs := MarkBlobs(sessions[n], n, cutoff, prunable, hashes);
      traceTargets, blobTargets, blocked := traceTargets + traces, blobTargets + blobs, blocked + pinned;
    }
    deleted := [];
    var bytes := 0;
    if !dryRun {
      FilterAppend(traceTargets, blobTargets, (f: Target) => f !in stuck);
      deleted, bytes := Sweep(traceTargets, stuck, deleted, bytes);
      deleted, bytes := Sweep(blobTargets, stuck, deleted, bytes);
    }
    SizeAppend(traceTargets, blobTargets);
    report := Report(|traceTargets|, Size(traceTargets), blocked, |blobTargets|, Size(blobTargets),
                     |deleted|, bytes, Size(traceTargets) + Size(blobTargets));
  }

  // ----- What the targets are. -----

  ghost predicate IsTarget(sessions: seq<Session>, cutoff: int, f: Target) {
    && f.session < |sessions|
    && var s := sessions[f.session];
       match f
       case TraceFile(_, id, size) => exists t :: t in s.traces && t.id == id && t.size == size && Prunable(s, t, cutoff)
       case BlobFile(_, hash, size) => Blob(hash, size) in s.blobs && !Live(s, hash, cutoff)
  }

  lemma {:induction false} TraceTargetsAre(s: Session, n: nat, cutoff: int, upTo: nat, f: Target)
    requires upTo <= |s.traces|
    ensures f in TraceTargets(s, n, cutoff, upTo) <==>
              f.TraceFile? && f.session == n &&
              exists i :: 0 <= i < upTo && s.traces[i].id == f.id && s.traces[i].size == f.size && Prunable(s, s.traces[i], cutoff)
  {
    if upTo > 0 { TraceTargetsAre(s, n, cutoff, upTo - 1, f); }
  }

  lemma {:induction false} BlobTargetsAre(s: Session, n: nat, cutoff: int, upTo: nat, f: Target)
    requires upTo <= |s.blobs|
    ensures f in BlobTargets(s, n, cutoff, upTo) <==>
              f.BlobFile? && f.session == n &&
              exists i :: 0 <= i < upTo && s.blobs[i] == Blob(f.hash, f.size) && !Live(s, s.blobs[i].hash, cutoff)
  {
    if upTo > 0 { BlobTargetsAre(s, n, cutoff, upTo - 1, f); }
  }

  lemma {:induction false} SessionTargetsAre(sessions: seq<Session>, cutoff: int, n: nat, f: Target)
    requires n < |sessions|
    ensures f in TraceTargets(sessions[n], n, cutoff, |sessions[n].traces|)
       <==> f.TraceFile? && f.session == n && IsTarget(sessions, cutoff, f)
    ensures f in BlobTargets(sessions[n], n, cutoff, |sessions[n].blobs|)
       <==> f.BlobFile? && f.session == n && IsTarget(sessions, cutoff, f)
  {
    TraceTargetsAre(sessions[n], n, cutoff, |sessions[n].traces|, f);
    BlobTargetsAre(sessions[n], n, cutoff, |sessions[n].blobs|, f);
  }

  lemma {:induction false} AllTargetsAre(sessions: seq<Session>, cutoff: int, upTo: nat, f: Target)
    requires upTo <= |sessions|
    ensures f in AllTraceTargets(sessions, cutoff, upTo) <==> f.TraceFile? && f.session < upTo && IsTarget(sessions, cutoff, f)
    ensures f in AllBlobTargets(sessions, cutoff, upTo) <==> f.BlobFile? && f.session < upTo && IsTarget(sessions, cutoff, f)
  {
    hide IsTarget, TraceTargets, BlobTargets;
    if upTo > 0 {
      AllTargetsAre(sessions, cutoff, upTo - 1, f);
      SessionTargetsAre(sessions, cutoff, upTo - 1, f);
    }
  }

  /** The two target lists hold the prunable files and nothing else. */
  lemma {:induction false} TargetsAre(sessions: seq<Session>, cutoff: int, f: Target)
    ensures f in Targets(sessions, cutoff) <==> IsTarget(sessions, cutoff, f)
  {
    AllTargetsAre(sessions, cutoff, |sessions|, f);
  }

  // ----- Safety. -----

  /** What a run deletes. */
  ghost predicate Ran(sessions: seq<Session>, cutoff: int, stuck: set<Target>, deleted: seq<Target>) {
    deleted == Filter(Targets(sessions, cutoff), (f: Target) => f !in stuck)
  }

  lemma {:induction false} DeletedAre(sessions: seq<Session>, cutoff: int, stuck: set<Target>, deleted: seq<Target>, f: Target)
    requires Ran(sessions, cutoff, stuck, deleted)
    ensures f in deleted <==> IsTarget(sessions, cutoff, f) && f !in stuck
  {
    TargetsAre(sessions, cutoff, f);
  }

  /** A deleted blob has no reference from a delegation without an expired, unpinned trace, whatever deletes fail. */
  lemma {:induction false} BlobsSafe(sessions: seq<Session>, cutoff: int, stuck: set<Target>, deleted: seq<Target>,
                                     f: Target, r: LogRow)
    requires Ran(sessions, cutoff, stuck, deleted) && f in deleted && f.BlobFile?
    requires f.session < |sessions| && r in sessions[f.session].rows && References(r, f.hash)
    ensures var s := sessions[f.session];
            exists t :: t in s.traces && t.id == r.id && CreatedAt(s, t) < cutoff && !t.training
  {
    DeletedAre(sessions, cutoff, stuck, deleted, f);
    assert PrunableId(sessions[f.session], r.id, cutoff);
  }

  /** A trace with a training sidecar is never deleted. */
  lemma {:induction false} TrainingSafe(sessions: seq<Session>, cutoff: int, stuck: set<Target>, deleted: seq<Target>,
                                        n: nat, t: Trace)
    requires Ran(sessions, cutoff, stuck, deleted) && n < |sessions| && Valid(sessions[n])
    requires t in sessions[n].traces && t.training
    ensures TraceFile(n, t.id, t.size) !in deleted
  {
    DeletedAre(sessions, cutoff, stuck, deleted, TraceFile(n, t.id, t.size));
  }

  /** A later cutoff prunes at least as much. */
  lemma {:induction false} LaterCutoffPrunesMore(sessions: seq<Session>, cutoff: int, later: int, f: Target)
    requires cutoff <= later && f in Targets(sessions, cutoff)
    ensures f in Targets(sessions, later)
  {
    TargetsAre(sessions, cutoff, f);
    TargetsAre(sessions, later, f);
    if f.BlobFile? {
      var s := sessions[f.session];
      forall r | r in s.rows && References(r, f.hash) ensures PrunableId(s, r.id, later) {
        assert PrunableId(s, r.id, cutoff);
        var t :| t in s.traces && t.id == r.id && Prunable(s, t, cutoff);
        assert Prunable(s, t, later);
      }
    }
  }

  lemma {:induction false} FilterAll(xs: seq<Target>, p: Target -> bool)
    requires forall x :: x in xs ==> p(x)
    ensures Filter(xs, p) == xs
  {
    if xs != [] { FilterAll(xs[1..], p); }
  }

  /** When no delete fails, exactly the predicted bytes are freed. */
  lemma {:induction false} FreesWhatItPredicts(sessions: seq<Session>, cutoff: int, deleted: seq<Target>)
    requires Ran(sessions, cutoff, {}, deleted)
    ensures deleted == Targets(sessions, cutoff) && Size(deleted) == Size(Targets(sessions, cutoff))
  {
    var none: set<Target> := {};
    FilterAll(Targets(sessions, cutoff), (f: Target) => f !in none);
  }

  // ----- A second run. -----

  /** The session directory once the deleted files are gone. */
  function AfterSession(s: Session, n: nat, deleted: seq<Target>): Session {
    Session(s.rows,
            Filter(s.traces, (t: Trace) => TraceFile(n, t.id, t.size) !in deleted),
            Filter(s.blobs, (b: Blob) => BlobFile(n, b.hash, b.size) !in deleted))
  }

  function After(sessions: seq<Session>, deleted: seq<Target>): seq<Session> {
    seq(|sessions|, n requires 0 <= n < |sessions| => AfterSession(sessions[n], n, deleted))
  }

  /** What the first run leaves of a delegation's trace. */
  lemma {:induction false} IdAfter(sessions: seq<Session>, cutoff: int, stuck: set<Target>, deleted: seq<Target>, n: nat, id: string, cutoff': int)
    requires Ran(sessions, cutoff, stuck, deleted) && n < |sessions|
    ensures PrunableId(AfterSession(sessions[n], n, deleted), id, cutoff') <==>
              exists t :: t in sessions[n].traces && t.id == id && Prunable(sessions[n], t, cutoff')
                          && TraceFile(n, t.id, t.size) !in deleted
  {
    var s, s' := sessions[n], AfterSession(sessions[n], n, deleted);
    forall t ensures Prunable(s', t, cutoff') <==> Prunable(s, t, cutoff') {}
  }

  /** A second run at the same cutoff only retries what the first failed to delete. */
  lemma {:induction false} SecondRunOnlyRetries(sessions: seq<Session>, cutoff: int, stuck: set<Target>, deleted: seq<Target>, f: Target)
    requires Ran(sessions, cutoff, stuck, deleted)
    requires f in Targets(After(sessions, deleted), cutoff)
    ensures f in Targets(sessions, cutoff) && f in stuck
  {
    var after := After(sessions, deleted);
    TargetsAre(after, cutoff, f);
    TargetsAre(sessions, cutoff, f);
    DeletedAre(sessions, cutoff, stuck, deleted, f);
    var s, s' := sessions[f.session], after[f.session];
    match f
    case TraceFile(n, id, size) =>
      var t :| t in s'.traces && t.id == id && t.size == size && Prunable(s', t, cutoff);
      assert t in s.traces && Prunable(s, t, cutoff);
    case BlobFile(n, hash, size) =>
      assert Blob(hash, size) in s.blobs;
      forall r | r in s.rows && References(r, hash) ensures PrunableId(s, r.id, cutoff) {
        IdAfter(sessions, cutoff, stuck, deleted, n, r.id, cutoff);
        assert r in s'.rows;
      }
  }

  /** With every delete successful, a second run at the same cutoff prunes nothing. */
  lemma {:induction false} SecondRunPrunesNothing(sessions: seq<Session>, cutoff: int, deleted: seq<Target>)
    requires Ran(sessions, cutoff, {}, deleted)
    ensures Targets(After(sessions, deleted), cutoff) == []
  {
    var ts := Targets(After(sessions, deleted), cutoff);
    forall f ensures f !in ts {
      if f in ts { SecondRunOnlyRetries(sessions, cutoff, {}, deleted, f); }
    }
    HeadIn(ts);
  }

  /**
   * A blob whose delete failed can be collected by some later run exactly when the trace deletes of all delegations
   * referring to it failed too: a delegation whose trace is gone keeps its blobs alive for good.
   */
  lemma {:induction false} RetriedExactly(sessions: seq<Session>, cutoff: int, stuck: set<Target>, deleted: seq<Target>, f: Target)
    requires Ran(sessions, cutoff, stuck, deleted) && (forall s :: s in sessions ==> Valid(s))
    requires f.BlobFile? && f.session < |sessions| && f in Targets(sessions, cutoff) && f in stuck
    ensures (exists cutoff' :: f in Targets(After(sessions, deleted), cutoff'))
       <==> ReferrersStuck(sessions[f.session], f.session, f.hash, stuck)
  {
    var after := After(sessions, deleted);
    TargetsAre(sessions, cutoff, f);
    var n, s := f.session, sessions[f.session];
    assert s in sessions;
    if ReferrersStuck(s, n, f.hash, stuck) {
      TargetsAre(after, cutoff, f);
      DeletedAre(sessions, cutoff, stuck, deleted, f);
      assert Blob(f.hash, f.size) in after[n].blobs;
      forall r | r in s.rows && References(r, f.hash) ensures PrunableId(after[n], r.id, cutoff) {
        StuckKeepsTrace(sessions, cutoff, stuck, deleted, n, r, f.hash);
      }
    }
    forall cutoff' | f in Targets(after, cutoff') ensures ReferrersStuck(s, n, f.hash, stuck) {
      TargetsAre(after, cutoff', f);
      forall r, t | r in s.rows && References(r, f.hash) && t in s.traces && t.id == r.id
        ensures TraceFile(n, t.id, t.size) in stuck
      {
        assert r in after[n].rows && PrunableId(after[n], r.id, cutoff');
        KeptTraceStuck(sessions, cutoff, stuck, deleted, n, r, t, f.hash, cutoff');
      }
    }
  }

  /** Every delegation referring to the blob had a trace whose delete failed. */
  ghost predicate ReferrersStuck(s: Session, n: nat, hash: string, stuck: set<Target>) {
    forall r, t :: r in s.rows && References(r, hash) && t in s.traces && t.id == r.id
                   ==> TraceFile(n, t.id, t.size) in stuck
  }

  lemma {:induction false} KeptTraceStuck(sessions: seq<Session>, cutoff: int, stuck: set<Target>, deleted: seq<Target>,
                                          n: nat, r: LogRow, t: Trace, hash: string, cutoff': int)
    requires Ran(sessions, cutoff, stuck, deleted) && n < |sessions| && Valid(sessions[n])
    requires r in sessions[n].rows && References(r, hash) && !Live(sessions[n], hash, cutoff)
    requires t in sessions[n].traces && t.id == r.id
    requires PrunableId(AfterSession(sessions[n], n, deleted), r.id, cutoff')
    ensures TraceFile(n, t.id, t.size) in stuck
  {
    var s := sessions[n];
    IdAfter(sessions, cutoff, stuck, deleted, n, r.id, cutoff');
    var u :| u in s.traces && u.id == r.id && TraceFile(n, u.id, u.size) !in deleted;
    assert PrunableId(s, r.id, cutoff);
    var v :| v in s.traces && v.id == r.id && Prunable(s, v, cutoff);
    SameTrace(s, t, u);
    SameTrace(s, t, v);
    DeletedAre(sessions, cutoff, stuck, deleted, TraceFile(n, t.id, t.size));
  }

  lemma {:induction false} SameTrace(s: Session, t: Trace, u: Trace)
    requires Valid(s) && t in s.traces && u in s.traces && t.id == u.id
    ensures t == u
  {
    var i :| 0 <= i < |s.traces| && s.traces[i] == t;
    var j :| 0 <= j < |s.traces| && s.traces[j] == u;
  }

  lemma {:induction false} StuckKeepsTrace(sessions: seq<Session>, cutoff: int, stuck: set<Target>, deleted: seq<Target>,
                                           n: nat, r: LogRow, hash: string)
    requires Ran(sessions, cutoff, stuck, deleted) && n < |sessions| && r in sessions[n].rows && References(r, hash)
    requires !Live(sessions[n], hash, cutoff)
    requires forall t :: t in sessions[n].traces && t.id == r.id ==> TraceFile(n, t.id, t.size) in stuck
    ensures PrunableId(AfterSession(sessions[n], n, deleted), r.id, cutoff)
  {
    var s := sessions[n];
    assert PrunableId(s, r.id, cutoff);
    var t :| t in s.traces && t.id == r.id && Prunable(s, t, cutoff);
    DeletedAre(sessions, cutoff, stuck, deleted, TraceFile(n, t.id, t.size));
    IdAfter(sessions, cutoff, stuck, deleted, n, r.id, cutoff);
  }
}
