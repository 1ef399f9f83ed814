/**
 * The cap on clarity questions per spec: server/mcp_server.py (`_count_clarity_blocked_rounds`, spec matching, the clarity
 * gate) and core/context/helper_llm_pipeline.py (`apply_clarity_check`).
 */
module ClarityRounds {
  import opened Sequences
  import opened Text

  const CLARITY_ROUND_CAP := 2

  /**
   * A delegations.jsonl record. `needsInput` is outcome == "needs_input", `clarification` that the clarity result is
   * clarification_needed. `owner` is the spec the delegation was about; counting does not look at it.
   */
  datatype Record = Record(needsInput: bool, clarification: bool, requestSpec: string, recordSpec: string, taskSpec: string,
                           owner: string)

  function Slashed(s: string): string {
    if s == "" then "" else [if s[0] == '\\' then '/' else s[0]] + Slashed(s[1..])
  }

  function Normalize(path: string): string {
    var text := Slashed(Strip(path));
    if StartsWith(text, "./") then text[2..] else text
  }

  predicate EndsWith(s: string, suffix: string) {
    |suffix| <= |s| && s[|s| - |suffix|..] == suffix
  }

  predicate SameSpec(a: string, b: string) {
    a != "" && b != "" && (a == b || EndsWith(a, "/" + b) || EndsWith(b, "/" + a))
  }

  /** Two paths name one spec when they are equal or one is the end of the other, from a slash on. */
  lemma {:induction false} SameSpecMeans(a: string, b: string)
    ensures SameSpec(a, b) <==> a != "" && b != "" && (a == b || exists x :: a == x + ("/" + b) || b == x + ("/" + a))
  {
    if EndsWith(a, "/" + b) { assert a == a[..|a| - |"/" + b|] + ("/" + b); }
    if EndsWith(b, "/" + a) { assert b == b[..|b| - |"/" + a|] + ("/" + a); }
    forall x | a == x + ("/" + b) ensures EndsWith(a, "/" + b) {}
    forall x | b == x + ("/" + a) ensures EndsWith(b, "/" + a) {}
  }

  /** White space around a path, one "./" before it and the kind of slash do not matter. */
  lemma {:induction false} NormalizeMeans(path: string)
    ensures |Slashed(path)| == |path|
    ensures forall k :: 0 <= k < |path| ==> Slashed(path)[k] == if path[k] == '\\' then '/' else path[k]
    ensures var text := Slashed(Strip(path));
            Normalize(path) == if |text| >= 2 && text[0] == '.' && text[1] == '/' then text[2..] else text
  {
    SlashedAt(path);
    var text := Slashed(Strip(path));
    if |text| >= 2 { assert text[..2] == [text[0], text[1]]; }
  }

  lemma {:induction false} SlashedAt(path: string)
    ensures |Slashed(path)| == |path|
    ensures forall k :: 0 <= k < |path| ==> Slashed(path)[k] == if path[k] == '\\' then '/' else path[k]
  {
    if path != "" { SlashedAt(path[1..]); }
  }

  /** The first spec path a record carries. */
  function SpecOf(r: Record): string {
    if r.requestSpec != "" then r.requestSpec else if r.recordSpec != "" then r.recordSpec else r.taskSpec
  }

  predicate BlockedFor(r: Record, spec: string) {
    r.needsInput && r.clarification
    && (Normalize(spec) == "" || SameSpec(Normalize(SpecOf(r)), Normalize(spec)))
  }

  function Count(log: seq<Record>, spec: string): nat {
    if log == [] then 0
    else Count(log[..|log| - 1], spec) + if BlockedFor(log[|log| - 1], spec) then 1 else 0
  }

  method CountBlockedRounds(log: seq<Record>, spec: string) returns (count: nat)
    ensures count == Count(log, spec)
  {
    count := 0;
    for n := 0 to |log|
      invariant count == Count(log[..n], spec)
    {
      assert log[..n + 1][..n] == log[..n];
      if BlockedFor(log[n], spec) { count := count + 1; }
    }
    assert log[..|log|] == log;
  }

  /** What the clarity model would answer, were it asked. */
  datatype Answer = CallFailed | Clear | Questions(qs: seq<string>)

  datatype Check = Check(blocked: bool, questions: seq<string>, ran: bool, passed: Option<bool>, autoPassed: bool,
                         roundIndex: nat, modelCalled: bool)

  /** `apply_clarity_check`. */
  function ApplyCheck(priorBlocked: nat, answer: Answer): Check {
    var round := priorBlocked + 1;
    if priorBlocked >= CLARITY_ROUND_CAP then Check(false, [], false, Some(true), true, round, false)
    else
      match answer
      case CallFailed => Check(false, [], false, None, false, round, true)
      case Clear => Check(false, [], true, Some(true), false, round, true)
      case Questions(qs) => Check(true, qs, true, Some(false), false, round, true)
  }

  /** From the third round on it passes unasked; before, the model is asked and only its questions block. */
  lemma {:induction false} CheckMeans(priorBlocked: nat, answer: Answer)
    ensures var c := ApplyCheck(priorBlocked, answer);
            && c.roundIndex == priorBlocked + 1
            && (c.autoPassed <==> priorBlocked >= 2) && (c.modelCalled <==> priorBlocked < 2)
            && (c.ran <==> priorBlocked < 2 && !answer.CallFailed?)
            && (c.blocked <==> priorBlocked < 2 && answer.Questions?)
            && c.questions == (if c.blocked then answer.qs else [])
            && c.passed == if priorBlocked < 2 && answer.CallFailed? then None else Some(!c.blocked)
  {}

  /** One delegation. `rawSpec` is the path as the host sent it, `spec` the resolved one. */
  datatype Request = Request(rawSpec: string, spec: string, clarityOn: bool, answer: Answer, specInvalid: bool,
                             resolved: bool, interrupted: bool)

  function CheckOf(log: seq<Record>, q: Request): Check {
    ApplyCheck(Count(log, q.spec), q.answer)
  }

  /** The record a delegation leaves: the block is written down only if nothing overrides or resolves it. */
  function RecordOf(log: seq<Record>, q: Request): Record {
    var blocked := q.clarityOn && CheckOf(log, q).blocked;
    var stands := blocked && !q.specInvalid && !q.resolved && !q.interrupted;
    Record(stands, stands, q.rawSpec, "", q.spec, q.spec)
  }

  function Session(requests: seq<Request>): seq<Record> {
    if requests == [] then []
    else
      var log := Session(requests[..|requests| - 1]);
      log + [RecordOf(log, requests[|requests| - 1])]
  }

  /** Blocked records of the delegations on one spec. */
  function Own(log: seq<Record>, spec: string): nat {
    if log == [] then 0
    else
      var r := log[|log| - 1];
      Own(log[..|log| - 1], spec) + if r.needsInput && r.clarification && r.owner == spec then 1 else 0
  }

  /** A blocked record of this delegation counts for `spec`; with no path to look for, every record does. */
  predicate Matches(q: Request, spec: string) {
    Normalize(spec) == "" || SameSpec(Normalize(if q.rawSpec != "" then q.rawSpec else q.spec), Normalize(spec))
  }

  /** The matching recognises the path the host sent as the resolved one. */
  predicate Recognised(q: Request) {
    Matches(q, q.spec)
  }

  /** The model finds questions and nothing overrides or resolves them. */
  predicate Unclear(q: Request) {
    q.clarityOn && q.answer.Questions? && !q.specInvalid && !q.resolved && !q.interrupted
  }

  // ----- The cap. -----

  lemma {:induction false} SessionStep(requests: seq<Request>, q: Request)
    ensures Session(requests + [q]) == Session(requests) + [RecordOf(Session(requests), q)]
  {
    assert (requests + [q])[..|requests|] == requests;
  }

  lemma {:induction false} CountStep(log: seq<Record>, r: Record, spec: string)
    ensures Count(log + [r], spec) == Count(log, spec) + if BlockedFor(r, spec) then 1 else 0
    ensures Own(log + [r], spec) == Own(log, spec) + if r.needsInput && r.clarification && r.owner == spec then 1 else 0
  {
    assert (log + [r])[..|log|] == log;
  }

  /** A spec's own blocked records are among those counted for it. */
  lemma {:induction false} OwnIsCounted(requests: seq<Request>, spec: string)
    requires forall q :: q in requests && q.spec == spec ==> Recognised(q)
    ensures Own(Session(requests), spec) <= Count(Session(requests), spec)
  {
    if requests != [] {
      var n := |requests| - 1;
      var log, q := Session(requests[..n]), requests[n];
      OwnIsCounted(requests[..n], spec);
      CountStep(log, RecordOf(log, q), spec);
      assert q in requests;
    }
  }

  /** Over every sequence of delegations in a session, a spec is blocked for questions at most CLARITY_ROUND_CAP times. */
  lemma {:induction false} AtMostCap(requests: seq<Request>, spec: string)
    requires forall q :: q in requests && q.spec == spec ==> Recognised(q)
    ensures Own(Session(requests), spec) <= CLARITY_ROUND_CAP
  {
    if requests != [] {
      var n := |requests| - 1;
      var log, q := Session(requests[..n]), requests[n];
      AtMostCap(requests[..n], spec);
      OwnIsCounted(requests[..n], spec);
      CountStep(log, RecordOf(log, q), spec);
    }
  }

  /** Once the cap is reached, the next round passes and the model is not asked. */
  lemma {:induction false} NextRoundPasses(requests: seq<Request>, q: Request)
    requires forall p :: p in requests && p.spec == q.spec ==> Recognised(p)
    requires Own(Session(requests), q.spec) == CLARITY_ROUND_CAP
    ensures var c := CheckOf(Session(requests), q);
            !c.blocked && c.autoPassed && !c.modelCalled && c.passed == Some(true) && c.roundIndex > CLARITY_ROUND_CAP
  {
    OwnIsCounted(requests, q.spec);
  }

  function Repeat(q: Request, n: nat): seq<Request> {
    if n == 0 then [] else Repeat(q, n - 1) + [q]
  }

  /** A host that keeps sending the same unclear request is stopped exactly when the matching recognises its path. */
  lemma {:induction false} StoppedExactly(q: Request, n: nat)
    requires Unclear(q)
    ensures Own(Session(Repeat(q, n)), q.spec) == if Recognised(q) then Min(n, CLARITY_ROUND_CAP) else n
    ensures Count(Session(Repeat(q, n)), q.spec) == if Recognised(q) then Min(n, CLARITY_ROUND_CAP) else 0
  {
    hide Recognised, RecordOf, Own, Count;
    if n == 0 {
      NothingCounted(q.spec);
    } else {
      StoppedExactly(q, n - 1);
      SessionStep(Repeat(q, n - 1), q);
      RepeatedRecord(Session(Repeat(q, n - 1)), q);
    }
  }

  lemma {:induction false} NothingCounted(spec: string)
    ensures Own([], spec) == 0 && Count([], spec) == 0
  {}

  lemma {:induction false} RepeatedRecord(log: seq<Record>, q: Request)
    requires Unclear(q)
    ensures var after, asked := log + [RecordOf(log, q)], Count(log, q.spec) < CLARITY_ROUND_CAP;
            && Own(after, q.spec) == Own(log, q.spec) + (if asked then 1 else 0)
            && Count(after, q.spec) == Count(log, q.spec) + if asked && Recognised(q) then 1 else 0
  {
    hide Normalize, SameSpec;
    CountStep(log, RecordOf(log, q), q.spec);
  }

  // ----- Records of other specs. -----

  lemma {:induction false} RecordCounts(log: seq<Record>, q: Request, spec: string)
    ensures var r := RecordOf(log, q);
            && r.owner == q.spec && r.needsInput == r.clarification
            && (BlockedFor(r, spec) <==> r.needsInput && Matches(q, spec))
  {
    hide Normalize, SameSpec;
  }

  /** Every blocked record that counts for the spec is about it. */
  ghost predicate OnlyOwn(log: seq<Record>, spec: string) {
    forall r :: r in log && BlockedFor(r, spec) ==> r.owner == spec
  }

  /**
   * The count is the number of the spec's own blocked rounds exactly when no record of another spec matches it.
   * An empty path matches every record.
   */
  lemma {:induction false} CountIsOwnExactly(requests: seq<Request>, spec: string)
    requires forall q :: q in requests && q.spec == spec ==> Recognised(q)
    ensures Own(Session(requests), spec) <= Count(Session(requests), spec)
    ensures Count(Session(requests), spec) == Own(Session(requests), spec) <==> OnlyOwn(Session(requests), spec)
  {
    hide Normalize, SameSpec, BlockedFor, Matches;
    if requests != [] {
      var n := |requests| - 1;
      var log, q := Session(requests[..n]), requests[n];
      assert q in requests;
      CountIsOwnExactly(requests[..n], spec);
      CountStep(log, RecordOf(log, q), spec);
      RecordCounts(log, q, spec);
      assert Session(requests) == log + [RecordOf(log, q)];
      hide RecordOf, Session, Own, Count;
      OnlyOwnStep(log, RecordOf(log, q), spec);
    }
  }

  lemma {:induction false} OnlyOwnStep(log: seq<Record>, r: Record, spec: string)
    ensures OnlyOwn(log + [r], spec) <==> OnlyOwn(log, spec) && (BlockedFor(r, spec) ==> r.owner == spec)
  {
    hide BlockedFor;
    assert r in log + [r] && forall x :: x in log ==> x in log + [r];
  }

  lemma {:induction false} SessionOwners(requests: seq<Request>, spec: string)
    requires forall q :: q in requests && q.spec != spec ==> !Matches(q, spec)
    ensures OnlyOwn(Session(requests), spec)
  {
    hide BlockedFor, Matches;
    if requests != [] {
      var n := |requests| - 1;
      var log, q := Session(requests[..n]), requests[n];
      assert q in requests;
      SessionOwners(requests[..n], spec);
      RecordCounts(log, q, spec);
      OnlyOwnStep(log, RecordOf(log, q), spec);
    }
  }

  /** While no other spec sent in the session matches, a round passes unasked exactly after the spec's own rounds are used up. */
  lemma {:induction false} PassesExactlyAfterOwnRounds(requests: seq<Request>, q: Request)
    requires forall p :: p in requests && p.spec == q.spec ==> Recognised(p)
    requires forall p :: p in requests && p.spec != q.spec ==> !Matches(p, q.spec)
    ensures CheckOf(Session(requests), q).autoPassed <==> Own(Session(requests), q.spec) == CLARITY_ROUND_CAP
  {
    SessionOwners(requests, q.spec);
    CountIsOwnExactly(requests, q.spec);
    AtMostCap(requests, q.spec);
  }

  /**
   * Another spec can use up the rounds of a spec that was never asked about exactly when its path matches:
   * then two unclear requests about it do.
   */
  lemma {:induction false} OthersUseUpRoundsExactly(q: Request, x: Request)
    requires Unclear(q) && q.spec != x.spec
    ensures (exists n: nat :: CheckOf(Session(Repeat(q, n)), x).autoPassed) <==> Matches(q, x.spec)
    ensures Matches(q, x.spec) ==> CheckOf(Session(Repeat(q, 2)), x).autoPassed
    ensures forall n: nat :: Own(Session(Repeat(q, n)), x.spec) == 0
  {
    hide Session, Repeat, Own, Count, Matches;
    forall n: nat
      ensures Own(Session(Repeat(q, n)), x.spec) == 0
      ensures !Matches(q, x.spec) ==> Count(Session(Repeat(q, n)), x.spec) == 0
    {
      OtherRounds(q, x.spec, n);
    }
    if Matches(q, x.spec) { TwoRounds(q, x.spec); }
  }

  lemma {:induction false} OtherRounds(q: Request, spec: string, n: nat)
    requires q.spec != spec
    ensures Own(Session(Repeat(q, n)), spec) == 0
    ensures !Matches(q, spec) ==> Count(Session(Repeat(q, n)), spec) == 0
  {
    hide BlockedFor, Matches;
    if n > 0 {
      OtherRounds(q, spec, n - 1);
      var log := Session(Repeat(q, n - 1));
      SessionStep(Repeat(q, n - 1), q);
      RecordCounts(log, q, spec);
      CountStep(log, RecordOf(log, q), spec);
    }
  }

  /** A round that may still ask adds one to the count of every spec it matches. */
  lemma {:induction false} RoundCounts(log: seq<Record>, q: Request, spec: string)
    requires Unclear(q) && Count(log, q.spec) < CLARITY_ROUND_CAP
    ensures Count(log + [RecordOf(log, q)], spec) == Count(log, spec) + if Matches(q, spec) then 1 else 0
  {
    RecordCounts(log, q, spec);
    hide BlockedFor, Matches;
    CountStep(log, RecordOf(log, q), spec);
  }

  lemma {:induction false} TwoRounds(q: Request, spec: string)
    requires Unclear(q) && Matches(q, spec)
    ensures Count(Session(Repeat(q, 2)), spec) == CLARITY_ROUND_CAP
  {
    assert Repeat(q, 0) == [] && Repeat(q, 1) == [] + [q] && Repeat(q, 2) == Repeat(q, 1) + [q];
    SessionStep([], q);
    SessionStep(Repeat(q, 1), q);
    NothingCounted(spec);
    NothingCounted(q.spec);
    assert Session([]) == [];
    hide Session, Own, Count, Matches, RecordOf, Repeat;
    RoundCounts([], q, spec);
    RoundCounts([], q, q.spec);
    RoundCounts(Session(Repeat(q, 1)), q, spec);
  }

  /** Matching by suffix lets another spec of the same name use up the rounds: "x.md" is never asked about here. */
  lemma {:induction false} NamesakeUsesUpRounds(qs: seq<string>)
    ensures var a := Request("a/x.md", "a/x.md", true, Questions(qs), false, false, false);
            var x := a.(rawSpec := "x.md", spec := "x.md");
            CheckOf(Session([a, a]), x).autoPassed && Own(Session([a, a]), "x.md") == 0
  {
    var a := Request("a/x.md", "a/x.md", true, Questions(qs), false, false, false);
    NamesakeNames();
    hide Normalize, SameSpec;
    assert [] + [a] == [a] && [a] + [a] == [a, a];
    SessionStep([], a);
    SessionStep([a], a);
    var r := Record(true, true, "a/x.md", "", "a/x.md", "a/x.md");
    assert RecordOf([], a) == r;
    CountStep([], r, "a/x.md");
    assert [] + [r] == [r];
    assert RecordOf([r], a) == r;
    CountStep([], r, "x.md");
    CountStep([r], r, "x.md");
  }

  lemma {:induction false} NamesakeNames()
    ensures Normalize("a/x.md") == "a/x.md" && Normalize("x.md") == "x.md"
    ensures SameSpec("a/x.md", "x.md") && SameSpec("a/x.md", "a/x.md")
  {
    Plain("a/x.md");
    Plain("x.md");
    hide Normalize, Slashed, Strip;
    assert "/" + "x.md" == "/x.md" && "a/x.md"[1..] == "/x.md";
    assert EndsWith("a/x.md", "/" + "x.md");
  }

  /** A plain path is its own normal form. */
  lemma {:induction false} Plain(path: string)
    requires path != "" && Trimmed(path) && '\\' !in path && path[0] != '.'
    ensures Normalize(path) == path
  {
    TrimmedStrip(path);
    SlashedSame(path);
  }

  lemma {:induction false} SlashedSame(s: string)
    requires '\\' !in s
    ensures Slashed(s) == s
  {
    if s != "" { SlashedSame(s[1..]); }
  }
}
