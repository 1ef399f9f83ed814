/** The delegation timeline: `_build_view_events` of core/cli/delegation_view_enrich.py. */
module ViewEvents {
  import opened Sequences
  import opened Sorting
  import opened Paths

  // ---------------------------------------------------------------- data

  /** A trace line. An empty timestamp stands for none. */
  datatype Line =
    | Header
    | FinalPrompt(timestamp: string)
    | IndexCall(timestamp: string)
    | Action(step: Option<int>, timestamp: string)
    | ProxyCall(step: Option<int>, call: Option<int>, received: string, timestamp: string)
    | BackendCall(step: Option<int>, call: Option<int>, timestamp: string)
    | Rest(shown: bool, toolCall: bool, timestamp: string)

  /** What a row shows, by its display name. */
  datatype Kind = HostIn | HostOut | Handoff | Send | Receive | Divider | IndexFile | IndexHeader | ExecutorOut | Plain

  /** A row: `line` is the trace line behind it, `order` its emission number, `late` marks a moved handoff. */
  datatype Event = Event(kind: Kind, step: Option<int>, line: Option<nat>, timestamp: string, order: nat, late: bool)

  datatype Row = Row(seqNo: nat, event: Event)

  // ---------------------------------------------------------------- what a trace says

  predicate StepProxy(l: Line) { l.ProxyCall? && l.step.Some? }

  /** Lines that open their step. */
  predicate Opens(l: Line) { l.Action? || StepProxy(l) }

  function OpenedStep(l: Line): Option<int>
    requires Opens(l)
  {
    l.step
  }

  /** Evidence that the executor ran. */
  predicate Ran(l: Line) {
    l.FinalPrompt? || l.Action? || StepProxy(l) || (l.BackendCall? && l.step.Some?) || (l.Rest? && l.toolCall)
  }

  /** Positions of the lines satisfying `p`, in order. */
  function Where(lines: seq<Line>, p: Line -> bool): seq<nat> {
    if lines == [] then []
    else
      var n := |lines| - 1;
      Where(lines[..n], p) + if p(lines[n]) then [n] else []
  }

  /** The lines behind the rows of one kind, in emission order. */
  function Origins(events: seq<Event>, kind: Kind): seq<Option<nat>> {
    if events == [] then []
    else
      var n := |events| - 1;
      Origins(events[..n], kind) + if events[n].kind == kind then [events[n].line] else []
  }

  lemma {:induction false} OriginsAdd(events: seq<Event>, e: Event, kind: Kind)
    ensures Origins(events + [e], kind) == Origins(events, kind) + if e.kind == kind then [e.line] else []
  {
    assert (events + [e])[..|events|] == events;
  }

  /** `lines[k]` for each k, as origins. */
  function Somes(ks: seq<nat>): seq<Option<nat>> {
    Map(ks, k => Some(k))
  }

  // ---------------------------------------------------------------- emission

  predicate IsBackend(l: Line) { l.BackendCall? }

  predicate IsFinalPrompt(l: Line) { l.FinalPrompt? }

  predicate IsIndexCall(l: Line) { l.IndexCall? }

  predicate IsShown(l: Line) { l.Rest? && l.shown }

  ghost predicate HasDivider(events: seq<Event>, step: Option<int>) {
    exists i :: 0 <= i < |events| && events[i].kind.Divider? && events[i].step == step
  }

  /** Rows are numbered as emitted, a step has one divider, and its sends come after it. */
  ghost predicate Emission(events: seq<Event>) {
    && (forall i :: 0 <= i < |events| ==> events[i].order == i && !events[i].late && !events[i].kind.IndexHeader?)
    && (forall i, j :: 0 <= i < j < |events| && events[i].kind.Divider? && events[j].kind.Divider? ==> events[i].step != events[j].step)
    && (forall j :: 0 <= j < |events| && events[j].kind.Send? ==> HasDivider(events[..j], events[j].step))
  }

  /** Some line opens step `s`. */
  ghost predicate Opened(lines: seq<Line>, s: Option<int>) {
    exists k :: 0 <= k < |lines| && Opens(lines[k]) && OpenedStep(lines[k]) == s
  }

  /** The kind of row a line gives beside a divider. */
  function RowKind(l: Line): Option<Kind> {
    if StepProxy(l) then Some(Send)
    else if IsBackend(l) then Some(Receive)
    else if IsFinalPrompt(l) then Some(Handoff)
    else if IsIndexCall(l) then Some(IndexFile)
    else if IsShown(l) then Some(Plain)
    else None
  }

  /** When a model call was sent. */
  function SendTime(l: Line): string
    requires l.ProxyCall?
  {
    if l.received != "" then l.received else l.timestamp
  }

  /** The row shows what its line says. */
  predicate Shows(e: Event, l: Line) {
    match e.kind
    case Send => StepProxy(l) && e.step == l.step && e.timestamp == SendTime(l)
    case Receive => l.BackendCall? && e.step == l.step && e.timestamp == l.timestamp
    case Handoff => l.FinalPrompt? && e.timestamp == l.timestamp
    case IndexFile => l.IndexCall? && e.timestamp == l.timestamp
    case Divider => Opens(l) && e.step == l.step && e.timestamp == l.timestamp
    case Plain => IsShown(l) && e.timestamp == l.timestamp
    case _ => false
  }

  /** Every row shows its line, or the record's start or end; a divider is that of the first line opening its step. */
  ghost predicate Faithful(events: seq<Event>, lines: seq<Line>, start: string, end: string) {
    && (forall i :: 0 <= i < |events| ==>
          match events[i].line
          case None =>
            if events[i].kind.HostIn? then events[i].timestamp == start
            else events[i].kind in {HostOut, ExecutorOut} && events[i].timestamp == end
          case Some(k) =>
            && k < |lines| && Shows(events[i], lines[k])
            && (events[i].kind.Divider? ==> !Opened(lines[..k], events[i].step)))
    && (forall i, j :: 0 <= i < j < |events| && events[i].line.Some? && events[j].line.Some? ==>
          events[i].line.value <= events[j].line.value)
  }

  /** One row for each line that shows one, in the order of the lines, and a divider for each step that was opened. */
  ghost predicate OneRowEach(events: seq<Event>, lines: seq<Line>) {
    && Origins(events, Send) == Somes(Where(lines, StepProxy))
    && Origins(events, Receive) == Somes(Where(lines, IsBackend))
    && Origins(events, Handoff) == Somes(Where(lines, IsFinalPrompt))
    && Origins(events, IndexFile) == Somes(Where(lines, IsIndexCall))
    && Origins(events, Plain) == Somes(Where(lines, IsShown))
    && (forall s :: HasDivider(events, s) <==> Opened(lines, s))
  }

  lemma {:induction false} Add(events: seq<Event>, e: Event)
    requires Emission(events) && e.order == |events| && !e.late && !e.kind.IndexHeader?
    requires e.kind.Divider? ==> !HasDivider(events, e.step)
    requires e.kind.Send? ==> HasDivider(events, e.step)
    ensures Emission(events + [e])
    ensures forall s :: HasDivider(events + [e], s) <==> HasDivider(events, s) || (e.kind.Divider? && e.step == s)
    ensures forall k :: Origins(events + [e], k) == Origins(events, k) + if e.kind == k then [e.line] else []
  {
    var after := events + [e];
    forall k ensures Origins(after, k) == Origins(events, k) + if e.kind == k then [e.line] else [] {
      OriginsAdd(events, e, k);
    }
    forall s ensures HasDivider(after, s) <==> HasDivider(events, s) || (e.kind.Divider? && e.step == s) {
      if HasDivider(events, s) {
        var i :| 0 <= i < |events| && events[i].kind.Divider? && events[i].step == s;
        assert after[i] == events[i];
      }
      if e.kind.Divider? && e.step == s { assert after[|events|] == e; }
    }
    forall j | 0 <= j < |after| && after[j].kind.Send? ensures HasDivider(after[..j], after[j].step) {
      assert after[..j] == events[..j];
      if j == |events| { assert events[..j] == events; }
    }
  }

  lemma {:induction false} WhereNext(lines: seq<Line>, n: nat, p: Line -> bool)
    requires n < |lines|
    ensures Somes(Where(lines[..n + 1], p)) == Somes(Where(lines[..n], p)) + if p(lines[n]) then [Some(n)] else []
  {
    assert lines[..n + 1][..n] == lines[..n];
  }

  lemma {:induction false} LineDone(before: seq<Event>, after: seq<Event>, lines: seq<Line>, n: nat)
    requires n < |lines| && OneRowEach(before, lines[..n])
    requires forall k :: k != Divider ==> Origins(after, k) == Origins(before, k) + if RowKind(lines[n]) == Some(k) then [Some(n)] else []
    requires forall s :: HasDivider(after, s) <==> HasDivider(before, s) || (Opens(lines[n]) && OpenedStep(lines[n]) == s)
    ensures OneRowEach(after, lines[..n + 1])
  {
    hide Origins, Where, Somes;
    WhereNext(lines, n, StepProxy);
    WhereNext(lines, n, IsBackend);
    WhereNext(lines, n, IsFinalPrompt);
    WhereNext(lines, n, IsIndexCall);
    WhereNext(lines, n, IsShown);
    forall s ensures HasDivider(after, s) <==> Opened(lines[..n + 1], s) {
      OpenedNext(lines, n, s);
    }
  }

  lemma {:induction false} OpenedNext(lines: seq<Line>, n: nat, s: Option<int>)
    requires n < |lines|
    ensures Opened(lines[..n + 1], s) <==> Opened(lines[..n], s) || (Opens(lines[n]) && OpenedStep(lines[n]) == s)
  {
    var before, after := lines[..n], lines[..n + 1];
    assert after[n] == lines[n] && forall k :: 0 <= k < n ==> before[k] == after[k];
  }

  /** A divider for a step that has none yet. */
  method OpenStep(events0: seq<Event>, seen0: set<Option<int>>, step: Option<int>, n: nat, timestamp: string)
    returns (events: seq<Event>, seen: set<Option<int>>)
    requires Emission(events0) && forall s :: s in seen0 <==> HasDivider(events0, s)
    ensures events == if step in seen0 then events0 else events0 + [Event(Divider, step, Some(n), timestamp, |events0|, false)]
    ensures Emission(events) && seen == seen0 + {step} && forall s :: s in seen <==> HasDivider(events, s)
    ensures forall k :: k != Divider ==> Origins(events, k) == Origins(events0, k)
  {
    hide Emission, HasDivider, Origins;
    events, seen := events0, seen0 + {step};
    if step in seen0 {
      assert seen == seen0;
    } else {
      events := Emit(events, Divider, step, Some(n), timestamp);
    }
  }

  /** The rows added show the line; a divider is for a step not seen before. */
  ghost predicate AddsRows(before: seq<Event>, after: seq<Event>, line: Line, n: nat, seen: set<Option<int>>) {
    && before <= after
    && forall i :: |before| <= i < |after| ==>
         after[i].line == Some(n) && Shows(after[i], line) && (after[i].kind.Divider? ==> after[i].step !in seen)
  }

  lemma {:induction false} AddsNone(events: seq<Event>, line: Line, n: nat, seen: set<Option<int>>)
    ensures AddsRows(events, events, line, n, seen)
  {}

  lemma {:induction false} AddsMore(line: Line, n: nat, seen: set<Option<int>>)
    ensures forall before, after, e: Event {:trigger AddsRows(before, after + [e], line, n, seen)} ::
              (AddsRows(before, after, line, n, seen) && e.line == Some(n) && Shows(e, line)
               && (e.kind.Divider? ==> e.step !in seen))
              ==> AddsRows(before, after + [e], line, n, seen)
  {}

  /** The rows of one line, in emission order. */
  method EmitLine(events0: seq<Event>, seen0: set<Option<int>>, line: Line, n: nat)
    returns (events: seq<Event>, seen: set<Option<int>>)
    requires Emission(events0) && forall s :: s in seen0 <==> HasDivider(events0, s)
    ensures Emission(events) && forall s :: s in seen <==> HasDivider(events, s)
    ensures forall k :: k != Divider ==> Origins(events, k) == Origins(events0, k) + if RowKind(line) == Some(k) then [Some(n)] else []
    ensures AddsRows(events0, events, line, n, seen0)
    ensures forall s :: HasDivider(events, s) <==> HasDivider(events0, s) || (Opens(line) && OpenedStep(line) == s)
  {
    hide Emission, HasDivider, Origins, AddsRows;
    events, seen := events0, seen0;
    PlusNothing(events0);
    AddsNone(events0, line, n, seen0);
    AddsMore(line, n, seen0);
    match line {
      case Header =>
      case FinalPrompt(ts) =>
        events := Emit(events, Handoff, None, Some(n), ts);
      case IndexCall(ts) =>
        events := Emit(events, IndexFile, None, Some(n), ts);
      case Action(step, ts) =>
        events, seen := OpenStep(events, seen, step, n, ts);
      case ProxyCall(step, call, received, ts) =>
        if step.Some? {
          events, seen := OpenStep(events, seen, step, n, ts);
          events := Emit(events, Send, step, Some(n), if received != "" then received else ts);
        }
      case BackendCall(step, call, ts) =>
        events := Emit(events, Receive, step, Some(n), ts);
      case Rest(shown, toolCall, ts) =>
        if shown {
          events := Emit(events, Plain, None, Some(n), ts);
        }
    }
  }

  lemma {:induction false} PlusNothing(events: seq<Event>)
    ensures forall k :: Origins(events, k) + [] == Origins(events, k)
  {}

  /** `_emit`. */
  method Emit(events0: seq<Event>, kind: Kind, step: Option<int>, line: Option<nat>, timestamp: string)
    returns (events: seq<Event>)
    requires Emission(events0) && !kind.IndexHeader?
    requires kind.Divider? ==> !HasDivider(events0, step)
    requires kind.Send? ==> HasDivider(events0, step)
    ensures events == events0 + [Event(kind, step, line, timestamp, |events0|, false)] && Emission(events)
    ensures forall s :: HasDivider(events, s) <==> HasDivider(events0, s) || (kind.Divider? && step == s)
    ensures forall k :: Origins(events, k) == if kind == k then Origins(events0, k) + [line] else Origins(events0, k)
  {
    var e := Event(kind, step, line, timestamp, |events0|, false);
    Add(events0, e);
    events := events0 + [e];
    assert forall k :: Origins(events0, k) + [] == Origins(events0, k);
  }

  /** The pass over the trace lines, from the record's opening row. */
  method EmitLines(events0: seq<Event>, start: string, end: string, lines: seq<Line>) returns (events: seq<Event>, ran: bool)
    requires Emission(events0) && OneRowEach(events0, []) && Faithful(events0, lines, start, end) && LinesBelow(events0, 0)
    ensures Emission(events) && OneRowEach(events, lines) && Faithful(events, lines, start, end)
    ensures forall k :: k in {HostIn, HostOut, ExecutorOut} ==> Origins(events, k) == Origins(events0, k)
    ensures ran <==> exists k :: 0 <= k < |lines| && Ran(lines[k])
  {
    hide Emission, HasDivider, Origins, OneRowEach, Faithful, LinesBelow, Opened, Shows;
    events, ran := events0, false;
    var seen: set<Option<int>> := {};
    NoDividers(events);
    PlusNothing(events0);
    assert lines[..0] == [];
    for n := 0 to |lines|
      invariant Emission(events) && OneRowEach(events, lines[..n])
      invariant Faithful(events, lines, start, end) && LinesBelow(events, n)
      invariant forall s :: s in seen <==> HasDivider(events, s)
      invariant forall k :: k in {HostIn, HostOut, ExecutorOut} ==> Origins(events, k) == Origins(events0, k)
      invariant ran <==> exists k :: 0 <= k < n && Ran(lines[k])
    {
      ghost var before := events;
      ran := ran || Ran(lines[n]);
      DividersOpened(before, lines, n);
      PlusNothing(before);
      ghost var seen0 := seen;
      events, seen := EmitLine(events, seen, lines[n], n);
      LineFaithful(before, events, lines, n, seen0, start, end);
      LineDone(before, events, lines, n);
    }
    assert lines[..|lines|] == lines;
  }

  lemma {:induction false} NoDividers(events: seq<Event>)
    requires OneRowEach(events, [])
    ensures forall s :: !HasDivider(events, s)
  {}

  /** The rows before sorting. */
  method EmitEvents(start: string, end: string, lines: seq<Line>) returns (events: seq<Event>)
    ensures Emitted(events, start, end, lines)
  {
    hide Emission, HasDivider, Origins, OneRowEach, Faithful, LinesBelow, Ran;
    NothingEmitted();
    events := Emit([], HostIn, None, None, start);
    NoLines(events);
    HostFaithful(events, lines, start, end);
    var ran;
    events, ran := EmitLines(events, start, end, lines);
    if ran {
      events := EmitClosing(events, ExecutorOut, start, end, lines);
    }
    events := EmitClosing(events, HostOut, start, end, lines);
  }

  /** A row for the end of the record. */
  method EmitClosing(events0: seq<Event>, kind: Kind, start: string, end: string, lines: seq<Line>) returns (events: seq<Event>)
    requires Emission(events0) && OneRowEach(events0, lines) && Faithful(events0, lines, start, end) && kind in {HostOut, ExecutorOut}
    ensures Emission(events) && OneRowEach(events, lines) && Faithful(events, lines, start, end)
    ensures forall k :: Origins(events, k) == if kind == k then Origins(events0, k) + [None] else Origins(events0, k)
  {
    hide Emission, HasDivider, Origins, OneRowEach, Faithful;
    events := Emit(events0, kind, None, None, end);
    EndFaithful(events0, events[|events0|], lines, start, end);
    SameRows(events0, events, lines);
  }

  /** The rows made from the delegation record; the executor's closing row if it ran. */
  ghost predicate RecordRows(events: seq<Event>, lines: seq<Line>) {
    && Origins(events, HostIn) == [None] && Origins(events, HostOut) == [None]
    && Origins(events, ExecutorOut) == if exists k :: 0 <= k < |lines| && Ran(lines[k]) then [None] else []
  }

  ghost predicate LinesBelow(events: seq<Event>, n: nat) {
    forall i :: 0 <= i < |events| && events[i].line.Some? ==> events[i].line.value < n
  }

  lemma {:induction false} DividersOpened(events: seq<Event>, lines: seq<Line>, n: nat)
    requires n <= |lines| && OneRowEach(events, lines[..n])
    ensures forall s :: HasDivider(events, s) <==> Opened(lines[..n], s)
  {}

  lemma {:induction false} LineFaithful(before: seq<Event>, after: seq<Event>, lines: seq<Line>, n: nat, seen: set<Option<int>>,
                                        start: string, end: string)
    requires n < |lines| && Faithful(before, lines, start, end) && LinesBelow(before, n)
    requires AddsRows(before, after, lines[n], n, seen) && forall s :: s in seen <==> Opened(lines[..n], s)
    ensures Faithful(after, lines, start, end) && LinesBelow(after, n + 1)
  {
    hide Shows, Opened;
    assert forall i :: 0 <= i < |before| ==> after[i] == before[i];
  }

  lemma {:induction false} HostFaithful(events: seq<Event>, lines: seq<Line>, start: string, end: string)
    requires |events| == 1 && events[0].kind.HostIn? && events[0].line.None? && events[0].timestamp == start
    ensures Faithful(events, lines, start, end) && LinesBelow(events, 0)
  {}

  lemma {:induction false} EndFaithful(events: seq<Event>, e: Event, lines: seq<Line>, start: string, end: string)
    requires Faithful(events, lines, start, end) && e.line.None? && e.kind in {HostOut, ExecutorOut} && e.timestamp == end
    ensures Faithful(events + [e], lines, start, end)
  {
    hide Shows, Opened;
  }

  lemma {:induction false} NothingEmitted()
    ensures Emission([]) && forall s :: !HasDivider([], s)
    ensures forall k :: Origins([], k) == []
  {}

  lemma {:induction false} NoLines(events: seq<Event>)
    requires forall s :: !HasDivider(events, s)
    requires forall k :: k in {Send, Receive, Handoff, IndexFile, Plain} ==> Origins(events, k) == []
    ensures OneRowEach(events, [])
  {}

  lemma {:induction false} SameRows(before: seq<Event>, after: seq<Event>, lines: seq<Line>)
    requires OneRowEach(before, lines)
    requires forall k :: k in {Send, Receive, Handoff, IndexFile, Plain} ==> Origins(after, k) == Origins(before, k)
    requires forall s :: HasDivider(after, s) <==> HasDivider(before, s)
    ensures OneRowEach(after, lines)
  {}

  // ---------------------------------------------------------------- what is emitted, line by line

  /** What the pass over the lines leaves. */
  ghost predicate Emitted(events: seq<Event>, start: string, end: string, lines: seq<Line>) {
    Emission(events) && OneRowEach(events, lines) && Faithful(events, lines, start, end) && RecordRows(events, lines)
  }

  lemma {:induction false} OriginsMembers(events: seq<Event>, kind: Kind)
    ensures forall o :: o in Origins(events, kind) <==> exists i :: 0 <= i < |events| && events[i].kind == kind && events[i].line == o
  {
    if events != [] {
      var n := |events| - 1;
      OriginsMembers(events[..n], kind);
      forall o ensures o in Origins(events, kind)
                  <==> exists i :: 0 <= i < |events| && events[i].kind == kind && events[i].line == o {
        assert (exists i :: 0 <= i < n && events[..n][i].kind == kind && events[..n][i].line == o)
          <==> exists i :: 0 <= i < n && events[i].kind == kind && events[i].line == o;
      }
    }
  }

  lemma {:induction false} WhereMembers(lines: seq<Line>, p: Line -> bool)
    ensures forall k: nat :: Some(k) in Somes(Where(lines, p)) <==> k < |lines| && p(lines[k])
  {
    if lines != [] {
      var n := |lines| - 1;
      WhereMembers(lines[..n], p);
      WhereNext(lines, n, p);
      assert lines[..n + 1] == lines;
    } else {
      assert Somes([]) == [];
    }
  }

  ghost predicate HasRow(events: seq<Event>, kind: Kind, step: Option<int>, k: nat, timestamp: string) {
    exists i :: 0 <= i < |events| && events[i].kind == kind && events[i].step == step && events[i].line == Some(k)
                && events[i].timestamp == timestamp
  }

  lemma {:induction false} RowThere(events: seq<Event>, lines: seq<Line>, kind: Kind, p: Line -> bool, k: nat)
    requires Origins(events, kind) == Somes(Where(lines, p)) && k < |lines| && p(lines[k])
    ensures exists i :: 0 <= i < |events| && events[i].kind == kind && events[i].line == Some(k)
  {
    hide Origins, Somes, Where;
    WhereMembers(lines, p);
    OriginsMembers(events, kind);
  }

  /** Every call, prompt and index line has its row, with the step and the time of the line. */
  lemma {:induction false} LineHasRow(events: seq<Event>, start: string, end: string, lines: seq<Line>, k: nat)
    requires Emitted(events, start, end, lines) && k < |lines|
    ensures match lines[k]
            case ProxyCall(step, _, received, ts) =>
              step.Some? ==> HasRow(events, Send, step, k, if received == "" then ts else received)
            case BackendCall(step, _, ts) => HasRow(events, Receive, step, k, ts)
            case FinalPrompt(ts) => exists step :: HasRow(events, Handoff, step, k, ts)
            case IndexCall(ts) => exists step :: HasRow(events, IndexFile, step, k, ts)
            case Rest(shown, _, ts) => shown ==> exists step :: HasRow(events, Plain, step, k, ts)
            case _ => true
  {
    hide Origins, Somes, Where, HasDivider, Opened;
    match lines[k] {
      case ProxyCall(step, _, _, _) =>
        if step.Some? {
          RowThere(events, lines, Send, StepProxy, k);
          var i :| 0 <= i < |events| && events[i].kind == Send && events[i].line == Some(k);
          assert Shows(events[i], lines[k]);
        }
      case BackendCall(_, _, _) =>
        RowThere(events, lines, Receive, IsBackend, k);
        var i :| 0 <= i < |events| && events[i].kind == Receive && events[i].line == Some(k);
        assert Shows(events[i], lines[k]);
      case FinalPrompt(ts) =>
        RowThere(events, lines, Handoff, IsFinalPrompt, k);
        var i :| 0 <= i < |events| && events[i].kind == Handoff && events[i].line == Some(k);
        assert Shows(events[i], lines[k]) && HasRow(events, Handoff, events[i].step, k, ts);
      case IndexCall(ts) =>
        RowThere(events, lines, IndexFile, IsIndexCall, k);
        var i :| 0 <= i < |events| && events[i].kind == IndexFile && events[i].line == Some(k);
        assert Shows(events[i], lines[k]) && HasRow(events, IndexFile, events[i].step, k, ts);
      case Rest(shown, _, ts) =>
        if shown {
          RowThere(events, lines, Plain, IsShown, k);
          var i :| 0 <= i < |events| && events[i].kind == Plain && events[i].line == Some(k);
          assert Shows(events[i], lines[k]) && HasRow(events, Plain, events[i].step, k, ts);
        }
      case _ =>
    }
  }

  /** A row of a trace line is of a kind and shows a time and a step that the line has. */
  lemma {:induction false} RowHasLine(events: seq<Event>, start: string, end: string, lines: seq<Line>, i: nat)
    requires Emitted(events, start, end, lines) && i < |events| && events[i].line.Some?
    ensures events[i].line.value < |lines|
    ensures var e, l := events[i], lines[events[i].line.value];
            match l
            case Header => false
            case ProxyCall(step, _, received, ts) =>
              && step.Some? && e.step == step
              && if e.kind.Divider? then e.timestamp == ts else e.kind.Send? && e.timestamp == if received == "" then ts else received
            case Action(step, ts) => e.kind.Divider? && e.step == step && e.timestamp == ts
            case BackendCall(step, _, ts) => e.kind.Receive? && e.step == step && e.timestamp == ts
            case FinalPrompt(ts) => e.kind.Handoff? && e.timestamp == ts
            case IndexCall(ts) => e.kind.IndexFile? && e.timestamp == ts
            case Rest(shown, _, ts) => shown && e.kind.Plain? && e.timestamp == ts
  {
    hide OneRowEach, RecordRows, Emission, Opened;
    assert Shows(events[i], lines[events[i].line.value]);
  }

  /**
   * Every action, and every call with a step, has a divider of its step: that of the first action or call of the step,
   * with the time it was logged.
   */
  lemma {:induction false} StepHasDivider(events: seq<Event>, start: string, end: string, lines: seq<Line>, k: nat)
    returns (i: nat, m: nat)
    requires Emitted(events, start, end, lines) && k < |lines|
    requires lines[k].Action? || (lines[k].ProxyCall? && lines[k].step.Some?)
    ensures i < |events| && events[i].kind.Divider? && events[i].step == lines[k].step
    ensures m <= k && events[i].line == Some(m)
    ensures lines[m].Action? || lines[m].ProxyCall?
    ensures lines[m].step == lines[k].step && events[i].timestamp == lines[m].timestamp
    ensures forall n :: 0 <= n < m && (lines[n].Action? || lines[n].ProxyCall?) ==>
              lines[n].step != lines[k].step || (lines[n].ProxyCall? && lines[n].step.None?)
  {
    hide Origins, Somes, Where, RecordRows, Emission;
    OpenedBy(lines, k, |lines|);
    assert lines[..|lines|] == lines;
    i :| 0 <= i < |events| && events[i].kind.Divider? && events[i].step == lines[k].step;
    RowHasLine(events, start, end, lines, i);
    m := events[i].line.value;
    OpenedBy(lines, k, m);
    forall n | 0 <= n < m && (lines[n].Action? || lines[n].ProxyCall?)
      ensures lines[n].step != lines[k].step || (lines[n].ProxyCall? && lines[n].step.None?)
    {
      OpenedBy(lines, n, m);
    }
  }

  lemma {:induction false} OpenedBy(lines: seq<Line>, k: nat, m: nat)
    requires k < |lines| && m <= |lines|
    ensures k < m && (lines[k].Action? || (lines[k].ProxyCall? && lines[k].step.Some?)) ==> Opened(lines[..m], lines[k].step)
  {
    if k < m && Opens(lines[k]) { assert lines[..m][k] == lines[k] && OpenedStep(lines[..m][k]) == lines[k].step; }
  }

  /** One row opens the record and one closes it; one ends the executor exactly if a line shows that it ran. */
  lemma {:induction false} RecordHasRows(events: seq<Event>, start: string, end: string, lines: seq<Line>)
    requires Emitted(events, start, end, lines)
    ensures exists i :: 0 <= i < |events| && events[i].kind.HostIn? && events[i].timestamp == start
    ensures exists i :: 0 <= i < |events| && events[i].kind.HostOut? && events[i].timestamp == end
    ensures (exists i :: 0 <= i < |events| && events[i].kind.ExecutorOut?) <==> exists k :: 0 <= k < |lines| && Ran(lines[k])
  {
    hide OneRowEach, Emission, Opened, Origins, Shows, Ran;
    OriginsMembers(events, HostIn);
    OriginsMembers(events, HostOut);
    OriginsMembers(events, ExecutorOut);
    assert None in Origins(events, HostIn) && None in Origins(events, HostOut);
    if i :| 0 <= i < |events| && events[i].kind.ExecutorOut? { assert events[i].line in Origins(events, ExecutorOut); }
    if exists k :: 0 <= k < |lines| && Ran(lines[k]) { assert None in Origins(events, ExecutorOut); }
  }

  /** The lines that show that the executor ran. */
  lemma {:induction false} RanMeans(l: Line)
    ensures Ran(l) <==>
              match l
              case FinalPrompt(_) => true
              case Action(_, _) => true
              case ProxyCall(step, _, _, _) => step.Some?
              case BackendCall(step, _, _) => step.Some?
              case Rest(_, toolCall, _) => toolCall
              case _ => false
  {}

  // ---------------------------------------------------------------- the order of the timeline

  /** By timestamp, then by emission. */
  predicate Earlier(a: Event, b: Event) {
    StrLe(a.timestamp, b.timestamp) && (a.timestamp == b.timestamp ==> a.order <= b.order)
  }

  lemma {:induction false} EarlierPreorder()
    ensures TotalPreorder(Earlier)
  {
    hide StrLe;
    forall a, b ensures Earlier(a, b) || Earlier(b, a) { StrLeTotal(a.timestamp, b.timestamp); }
    forall a, b, c | Earlier(a, b) && Earlier(b, c) ensures Earlier(a, c) {
      StrLeTransitive(a.timestamp, b.timestamp, c.timestamp);
      StrLeTotal(a.timestamp, b.timestamp);
    }
  }

  /** The first row of a kind. */
  function First(events: seq<Event>, kind: Kind): (i: nat)
    ensures i <= |events| && (i < |events| ==> events[i].kind == kind)
    ensures forall j :: 0 <= j < i ==> events[j].kind != kind
  {
    if events == [] || events[0].kind == kind then 0 else 1 + First(events[1..], kind)
  }

  /** The first handoff moved up before the first send. */
  function Moved(events: seq<Event>, to: nat, from: nat): seq<Event>
    requires to <= from < |events|
  {
    events[..to] + [events[from].(late := true)] + events[to..from] + events[from + 1..]
  }

  /** The handoff stands below the first send although both are stamped and its stamp is later. */
  predicate Misplaced(events: seq<Event>) {
    var h, l := First(events, Handoff), First(events, Send);
    && h < |events| && l < |events| && l < h
    && events[l].timestamp != "" && events[h].timestamp != "" && !StrLe(events[h].timestamp, events[l].timestamp)
  }

  method RepositionHandoff(events0: seq<Event>) returns (events: seq<Event>)
    ensures events == if Misplaced(events0) then Moved(events0, First(events0, Send), First(events0, Handoff)) else events0
  {
    events := events0;
    var mcp, llm := First(events, Handoff), First(events, Send);
    if mcp == |events| || llm == |events| { return; }
    var mcpTs, llmTs := events[mcp].timestamp, events[llm].timestamp;
    if mcpTs == "" || llmTs == "" || StrLe(mcpTs, llmTs) { return; }
    if mcp < llm { return; }
    var handoff := events[mcp];
    events := events[..mcp] + events[mcp + 1..];
    handoff := handoff.(late := true);
    events := events[..llm] + [handoff] + events[llm..];
    assert events == Moved(events0, llm, mcp);
  }

  /** One header directly above the first index row, if there is one, with its timestamp. */
  ghost predicate HeaderAdded(body: seq<Event>, final: seq<Event>) {
    var k := First(body, IndexFile);
    if k == |body| then final == body
    else
      exists header: Event ::
        && header.kind.IndexHeader? && header.timestamp == body[k].timestamp && header.step == None && !header.late
        && final == body[..k] + [header] + body[k..]
  }

  method InsertIndexHeader(events0: seq<Event>) returns (events: seq<Event>)
    ensures HeaderAdded(events0, events)
  {
    var k := First(events0, IndexFile);
    if k == |events0| { return events0; }
    var header := Event(IndexHeader, None, None, events0[k].timestamp, 0, false);
    events := events0[..k] + [header] + events0[k..];
  }

  function Unmoved(e: Event): Event { e.(late := false) }

  /**
   * The rows in final order: every emitted row once, in the order of time and emission but for one handoff
   * that may stand directly above the first send. The first handoff stands above the first send exactly when
   * it is earlier, or both are stamped with different times.
   */
  ghost predicate Timeline(emitted: seq<Event>, body: seq<Event>) {
    var h, l := First(body, Handoff), First(body, Send);
    && multiset(Map(body, Unmoved)) == multiset(emitted)
    && (forall i, j :: 0 <= i < j < |body| && !body[i].late && !body[j].late ==> Earlier(body[i], body[j]))
    && (forall i :: 0 <= i < |body| && body[i].late ==> i == h && l == h + 1)
    && (h < |body| && l < |body| ==>
          (h < l <==> Earlier(body[h], body[l]) || (body[l].timestamp != "" && body[h].timestamp != body[l].timestamp)))
  }

  lemma {:induction false} SortedRows(emitted: seq<Event>, sorted: seq<Event>)
    requires Emission(emitted) && sorted == StableSort(emitted, Earlier)
    ensures SortedBy(sorted, Earlier) && multiset(sorted) == multiset(emitted)
    ensures forall i :: 0 <= i < |sorted| ==> !sorted[i].late
    ensures forall i, j :: 0 <= i < j < |sorted| ==> !Earlier(sorted[j], sorted[i])
  {
    hide StrLe;
    EarlierPreorder();
    SortSorts(emitted, Earlier);
    SortNoDup(emitted, Earlier);
    forall i | 0 <= i < |sorted| ensures !sorted[i].late && sorted[i] in emitted {
      assert sorted[i] in sorted;
    }
    forall i, j | 0 <= i < j < |sorted| ensures !Earlier(sorted[j], sorted[i]) {
      assert Earlier(sorted[i], sorted[j]);
      StrLeTotal(sorted[i].timestamp, sorted[j].timestamp);
      assert sorted[i] in emitted && sorted[j] in emitted;
      var a :| 0 <= a < |emitted| && emitted[a] == sorted[i];
      var b :| 0 <= b < |emitted| && emitted[b] == sorted[j];
      assert sorted[i] != sorted[j];
    }
  }

  lemma {:induction false} UnmovedSame(body: seq<Event>)
    requires forall i :: 0 <= i < |body| ==> !body[i].late
    ensures Map(body, Unmoved) == body
  {}

  lemma {:induction false} MovedRows(events: seq<Event>, to: nat, from: nat)
    requires to < from < |events| && forall i :: 0 <= i < |events| ==> !events[i].late
    ensures multiset(Map(Moved(events, to, from), Unmoved)) == multiset(events)
  {
    hide Unmoved;
    var back := events[..to] + [events[from]] + events[to..from] + events[from + 1..];
    MovedBack(events, to, from);
    assert events == events[..to] + events[to..from] + [events[from]] + events[from + 1..];
  }

  lemma {:induction false} MovedBack(events: seq<Event>, to: nat, from: nat)
    requires to < from < |events| && forall i :: 0 <= i < |events| ==> !events[i].late
    ensures Map(Moved(events, to, from), Unmoved) == events[..to] + [events[from]] + events[to..from] + events[from + 1..]
  {
    var moved, back := Moved(events, to, from), events[..to] + [events[from]] + events[to..from] + events[from + 1..];
    assert |moved| == |back|;
    forall i | 0 <= i < |moved| ensures Unmoved(moved[i]) == back[i] {
      if i == to { assert moved[i] == events[from].(late := true); } else { assert moved[i] == back[i] && back[i] in events; }
    }
  }

  lemma {:induction false} MovedAt(events: seq<Event>, to: nat, from: nat, i: nat)
    requires to < from < |events| == |Moved(events, to, from)| && i < |events|
    ensures Moved(events, to, from)[i] ==
            if i < to then events[i] else if i == to then events[from].(late := true)
            else if i <= from then events[i - 1] else events[i]
  {}

  lemma {:induction false} TimelineHolds(emitted: seq<Event>, sorted: seq<Event>, body: seq<Event>)
    requires Emission(emitted) && sorted == StableSort(emitted, Earlier)
    requires body == if Misplaced(sorted) then Moved(sorted, First(sorted, Send), First(sorted, Handoff)) else sorted
    ensures Timeline(emitted, body)
  {
    SortedRows(emitted, sorted);
    hide StableSort, Emission, Earlier, Moved, First;
    if Misplaced(sorted) { MovedTimeline(emitted, sorted); } else { KeptTimeline(emitted, sorted); }
  }

  lemma {:induction false} KeptTimeline(emitted: seq<Event>, sorted: seq<Event>)
    requires SortedBy(sorted, Earlier) && multiset(sorted) == multiset(emitted) && !Misplaced(sorted)
    requires forall i :: 0 <= i < |sorted| ==> !sorted[i].late
    requires forall i, j :: 0 <= i < j < |sorted| ==> !Earlier(sorted[j], sorted[i])
    ensures Timeline(emitted, sorted)
  {
    hide StrLe;
    UnmovedSame(sorted);
    var h, l := First(sorted, Handoff), First(sorted, Send);
    if h < |sorted| && l < |sorted| { StrLeTotal(sorted[h].timestamp, sorted[l].timestamp); }
    assert StrLe("", "") by { EmptyFirst(""); }
    if h < |sorted| && l < |sorted| { EmptyFirst(sorted[l].timestamp); }
  }

  lemma {:induction false} EmptyFirst(s: string)
    ensures StrLe("", s)
  {}

  lemma {:induction false} MovedTimeline(emitted: seq<Event>, sorted: seq<Event>)
    requires SortedBy(sorted, Earlier) && multiset(sorted) == multiset(emitted) && Misplaced(sorted)
    requires forall i :: 0 <= i < |sorted| ==> !sorted[i].late
    ensures Timeline(emitted, Moved(sorted, First(sorted, Send), First(sorted, Handoff)))
  {
    var h, l := First(sorted, Handoff), First(sorted, Send);
    var body := Moved(sorted, l, h);
    MovedRows(sorted, l, h);
    MovedOrder(sorted, l, h);
    MovedAt(sorted, l, h, l);
    MovedAt(sorted, l, h, l + 1);
    hide Moved, StrLe, Earlier;
    forall i | 0 <= i < l ensures body[i].kind == sorted[i].kind { MovedAt(sorted, l, h, i); }
    FirstAt(body, Handoff, l);
    FirstAt(body, Send, l + 1);
    StrLeTotal(sorted[h].timestamp, sorted[l].timestamp);
  }

  lemma {:induction false} MovedOrder(sorted: seq<Event>, l: nat, h: nat)
    requires SortedBy(sorted, Earlier) && l < h < |sorted|
    requires forall i :: 0 <= i < |sorted| ==> !sorted[i].late
    ensures var body := Moved(sorted, l, h);
            && |body| == |sorted|
            && (forall i :: 0 <= i < |body| ==> (body[i].late <==> i == l))
            && (forall i, j :: 0 <= i < j < |body| && !body[i].late && !body[j].late ==> Earlier(body[i], body[j]))
  {
    hide Earlier;
    var body := Moved(sorted, l, h);
    forall i | 0 <= i < |body|
      ensures body[i] == if i < l then sorted[i] else if i == l then sorted[h].(late := true)
                         else if i <= h then sorted[i - 1] else sorted[i]
    {
      MovedAt(sorted, l, h, i);
    }
    forall i, j | 0 <= i < j < |body| && !body[i].late && !body[j].late ensures Earlier(body[i], body[j]) {
      var i0 := if i < l || i > h then i else i - 1;
      var j0 := if j < l || j > h then j else j - 1;
      assert body[i] == sorted[i0] && body[j] == sorted[j0];
    }
  }

  lemma {:induction false} FirstAt(events: seq<Event>, kind: Kind, i: nat)
    requires i < |events| && events[i].kind == kind && forall j :: 0 <= j < i ==> events[j].kind != kind
    ensures First(events, kind) == i
  {}

  // ---------------------------------------------------------------- the view

  /** The rows of a trace: emitted, put in order, with the header. */
  ghost predicate ViewOf(start: string, end: string, lines: seq<Line>, emitted: seq<Event>, body: seq<Event>, final: seq<Event>) {
    && Emitted(emitted, start, end, lines)
    && Timeline(emitted, body) && HeaderAdded(body, final)
  }

  function EventOf(r: Row): Event { r.event }

  method NumberRows(events: seq<Event>) returns (view: seq<Row>)
    ensures Map(view, EventOf) == events && forall i :: 0 <= i < |view| ==> view[i].seqNo == i
  {
    view := [];
    for n := 0 to |events|
      invariant |view| == n && forall i :: 0 <= i < n ==> view[i] == Row(i, events[i])
    {
      view := view + [Row(n, events[n])];
    }
  }

  method BuildViewEvents(start: string, end: string, lines: seq<Line>) returns (view: seq<Row>)
    ensures forall i :: 0 <= i < |view| ==> view[i].seqNo == i
    ensures exists emitted, body :: ViewOf(start, end, lines, emitted, body, Map(view, EventOf))
  {
    hide Emission, OneRowEach, Faithful, RecordRows, Timeline, HeaderAdded, StableSort, Misplaced, Moved, Map, Origins;
    var emitted := EmitEvents(start, end, lines);
    var sorted := StableSort(emitted, Earlier);
    var body := RepositionHandoff(sorted);
    TimelineHolds(emitted, sorted, body);
    var events := InsertIndexHeader(body);
    assert ViewOf(start, end, lines, emitted, body, events);
    view := NumberRows(events);
  }

  /**
   * Emission puts a step's divider above all its sends, the final order need not: the divider carries the time the
   * line that opened the step was logged, a send the time its call was received.
   */
  lemma {:induction false} DividerAboveSend(start: string, end: string, lines: seq<Line>, emitted: seq<Event>, body: seq<Event>,
                                            i: nat, j: nat, a: nat, b: nat)
    requires Emission(emitted) && Faithful(emitted, lines, start, end) && Timeline(emitted, body)
    requires i < |emitted| && j < |emitted| && emitted[i].kind.Divider? && emitted[j].kind.Send? && emitted[i].step == emitted[j].step
    requires a < |body| && b < |body| && body[a] == emitted[i] && body[b] == emitted[j]
    ensures i < j && emitted[i].line.Some? && emitted[j].line.Some?
    ensures var k, m := emitted[i].line.value, emitted[j].line.value;
            && k <= m < |lines| && Opens(lines[k]) && StepProxy(lines[m]) && lines[k].step == lines[m].step
            && !Opened(lines[..k], lines[k].step)
            && (a < b <==> StrLe(lines[k].timestamp, SendTime(lines[m])))
  {
    hide StrLe, Timeline, Opened, Shows, Emission;
    DividerFirst(emitted, i, j);
    BodyOrder(emitted, body, i, j, a, b);
    assert Shows(emitted[i], lines[emitted[i].line.value]) && Shows(emitted[j], lines[emitted[j].line.value]);
    ShowsTimes(emitted[i], lines[emitted[i].line.value]);
    ShowsTimes(emitted[j], lines[emitted[j].line.value]);
  }

  /** Emission puts the one divider of a step above each of its sends. */
  lemma {:induction false} DividerFirst(emitted: seq<Event>, i: nat, j: nat)
    requires Emission(emitted) && i < |emitted| && j < |emitted|
    requires emitted[i].kind.Divider? && emitted[j].kind.Send? && emitted[i].step == emitted[j].step
    ensures i < j
  {
    assert HasDivider(emitted[..j], emitted[j].step);
    var i' :| 0 <= i' < j && emitted[..j][i'].kind.Divider? && emitted[..j][i'].step == emitted[j].step;
    assert emitted[i'] == emitted[..j][i'];
  }

  /** Two emitted rows, neither moved, stand in time order, ties in emission order. */
  lemma {:induction false} BodyOrder(emitted: seq<Event>, body: seq<Event>, i: nat, j: nat, a: nat, b: nat)
    requires Emission(emitted) && Timeline(emitted, body) && i < j < |emitted|
    requires a < |body| && b < |body| && body[a] == emitted[i] && body[b] == emitted[j]
    ensures a < b <==> StrLe(emitted[i].timestamp, emitted[j].timestamp)
  {
    hide StrLe, First;
    StrLeTotal(emitted[i].timestamp, emitted[j].timestamp);
    if a < b { assert Earlier(body[a], body[b]); } else { assert Earlier(body[b], body[a]); }
  }

  lemma {:induction false} ShowsTimes(e: Event, l: Line)
    requires Shows(e, l)
    ensures e.kind.Divider? ==> Opens(l) && e.step == l.step && e.timestamp == l.timestamp
    ensures e.kind.Send? ==> StepProxy(l) && e.step == l.step && e.timestamp == SendTime(l)
  {}

  /** Where a model call opens its step itself, its divider stands above it unless it was logged after it was received. */
  lemma {:induction false} ImplicitDividerAbove(start: string, end: string, lines: seq<Line>, emitted: seq<Event>, body: seq<Event>,
                                                i: nat, j: nat, k: nat, a: nat, b: nat)
    requires Emission(emitted) && Faithful(emitted, lines, start, end) && Timeline(emitted, body)
    requires i < |emitted| && j < |emitted| && emitted[i].kind.Divider? && emitted[j].kind.Send?
    requires emitted[i].line == emitted[j].line == Some(k)
    requires a < |body| && b < |body| && body[a] == emitted[i] && body[b] == emitted[j]
    ensures k < |lines| && lines[k].ProxyCall?
    ensures a < b <==> lines[k].received == "" || StrLe(lines[k].timestamp, lines[k].received)
  {
    hide StrLe, First, Opened, Timeline;
    DividerAboveSend(start, end, lines, emitted, body, i, j, a, b);
    StrLeTotal(lines[k].timestamp, lines[k].timestamp);
  }

  /** One call that opens its step, received at "1" and logged at "2". */
  function LateLines(): seq<Line> { [ProxyCall(Some(1), Some(1), "1", "2")] }

  lemma {:induction false} OriginsSome(events: seq<Event>, kind: Kind)
    requires Origins(events, kind) != []
    ensures exists j :: 0 <= j < |events| && events[j].kind == kind
  {
    var n := |events| - 1;
    if events[n].kind != kind {
      OriginsSome(events[..n], kind);
      var j :| 0 <= j < n && events[..n][j].kind == kind;
      assert events[j].kind == kind;
    }
  }

  /** An emitted row that is no handoff is in the body as it is. */
  lemma {:induction false} RowInBody(emitted: seq<Event>, body: seq<Event>, i: nat)
    requires Timeline(emitted, body) && i < |emitted| && !emitted[i].late && !emitted[i].kind.Handoff?
    ensures exists a :: 0 <= a < |body| && body[a] == emitted[i]
  {
    hide Earlier;
    var back := Map(body, Unmoved);
    assert emitted[i] in multiset(emitted) && emitted[i] in multiset(back);
    assert emitted[i] in back;
    var a :| 0 <= a < |back| && back[a] == emitted[i];
    assert !body[a].late;
  }

  /** Every view of this trace shows the send above the divider of its step. */
  lemma {:induction false} DividerBelowItsSend(start: string, end: string, emitted: seq<Event>, body: seq<Event>, final: seq<Event>)
    requires ViewOf(start, end, LateLines(), emitted, body, final)
    ensures exists a, b :: 0 <= a < b < |body| && body[a].kind.Send? && body[b].kind.Divider? && body[a].step == body[b].step == Some(1)
  {
    var i, j := LateRows(start, end, emitted);
    hide Timeline, Emission, Faithful, OneRowEach, RecordRows, HeaderAdded, LateLines, StrLe;
    assert !StrLe("2", "1") by { TwoAfterOne(); }
    RowInBody(emitted, body, i);
    RowInBody(emitted, body, j);
    var b :| 0 <= b < |body| && body[b] == emitted[i];
    var a :| 0 <= a < |body| && body[a] == emitted[j];
    InOrder(emitted, body, b, a);
    assert a != b;
  }

  lemma {:induction false} TwoAfterOne()
    ensures !StrLe("2", "1")
  {}

  lemma {:induction false} InOrder(emitted: seq<Event>, body: seq<Event>, a: nat, b: nat)
    requires Timeline(emitted, body) && a < |body| && b < |body| && !body[a].late && !body[b].late
    ensures a < b ==> StrLe(body[a].timestamp, body[b].timestamp)
  {
    hide StrLe;
    if a < b { assert Earlier(body[a], body[b]); }
  }

  lemma {:induction false} LateRows(start: string, end: string, emitted: seq<Event>) returns (i: nat, j: nat)
    requires Emission(emitted) && OneRowEach(emitted, LateLines()) && Faithful(emitted, LateLines(), start, end)
    ensures i < |emitted| && emitted[i].kind.Divider? && emitted[i].step == Some(1) && emitted[i].timestamp == "2" && !emitted[i].late
    ensures j < |emitted| && emitted[j].kind.Send? && emitted[j].step == Some(1) && emitted[j].timestamp == "1" && !emitted[j].late
  {
    var lines := LateLines();
    assert StepProxy(lines[0]);
    assert lines[..0] == [];
    assert Opened(lines, Some(1)) by { assert Opens(lines[0]) && OpenedStep(lines[0]) == Some(1); }
    i :| 0 <= i < |emitted| && emitted[i].kind.Divider? && emitted[i].step == Some(1);
    OriginsSome(emitted, Send);
    j :| 0 <= j < |emitted| && emitted[j].kind == Send;
    RowsOfOne(lines, emitted, start, end, i);
    RowsOfOne(lines, emitted, start, end, j);
  }

  lemma {:induction false} RowsOfOne(lines: seq<Line>, events: seq<Event>, start: string, end: string, i: nat)
    requires Faithful(events, lines, start, end) && i < |events| && |lines| == 1 && events[i].kind in {Divider, Send}
    ensures Shows(events[i], lines[0])
  {}
}
