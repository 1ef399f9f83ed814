/** Window budget enforcement: core/context/budget.py. */
module Budget {
  import opened Sequences
  import opened Text
  import opened Package

  datatype Stage = ToExcerpt | ToHead | ToPointer

  const SHRINK_HEAD_LINES := 40

  /** `_shrink_excerpt_head`. */
  function ShrinkHead(payload: string): string {
    var lines := SplitLines(payload);
    Join("\n", lines[..Min(|lines|, SHRINK_HEAD_LINES)]) + "\n\U{2026} (budget truncated)\n"
  }

  function Estimate(brief: string, es: seq<Entry>): nat {
    EstimateTokens(brief + Payloads(es))
  }

  /** The entries a stage touches. */
  predicate Applies(stage: Stage, e: Entry) {
    match stage
    case ToExcerpt => e.tier.ReadFull?
    case ToHead => e.tier.ReadExcerpt? && e.payload.Some?
    case ToPointer => IsRead(e) && e.payload.Some?
  }

  function Original(e: Entry): nat { ByteLength(if e.payload.Some? then e.payload.value else "") }

  /** What a stage makes of such an entry. */
  function Apply(stage: Stage, e: Entry, excerpt: string -> Option<Excerpt>): Entry
    requires Applies(stage, e)
  {
    match stage
    case ToExcerpt =>
      (match excerpt(e.path)
       case Some(x) => Entry(e.path, ReadExcerpt, Some(x.excerptBytes), Some(x.text), Some(ExcerptRel(e.path)))
       case None => Entry(e.path, ReadExcerpt, e.bytes, None, e.excerptPath))
    case ToHead =>
      var shrunk := ShrinkHead(e.payload.value);
      Entry(e.path, ReadExcerpt, Some(ByteLength(shrunk)), Some(shrunk), e.excerptPath)
    case ToPointer => Entry(e.path, Pointer, e.bytes, None, e.excerptPath)
  }

  function Note(stage: Stage, e: Entry, excerpt: string -> Option<Excerpt>): Truncation
    requires Applies(stage, e)
  {
    match stage
    case ToExcerpt =>
      var kept := match excerpt(e.path) case Some(x) => x.excerptBytes case None => 0;
      Truncation("context_budget:read_full_to_excerpt", e.path, Max(0, Original(e) - kept))
    case ToHead =>
      Truncation("context_budget:excerpt_shrink", e.path, Max(0, Original(e) - ByteLength(ShrinkHead(e.payload.value))))
    case ToPointer => Truncation("context_budget:drop_payload", e.path, Original(e))
  }

  // ----- Reference: a stage degrades a prefix, the shortest one that fits. -----

  /** `es` after the stage has handled the first k entries. */
  function Prefix(stage: Stage, es: seq<Entry>, k: nat, excerpt: string -> Option<Excerpt>): seq<Entry>
    requires k <= |es|
  {
    seq(|es|, i requires 0 <= i < |es| => if i < k && Applies(stage, es[i]) then Apply(stage, es[i], excerpt) else es[i])
  }

  function Notes(stage: Stage, es: seq<Entry>, k: nat, excerpt: string -> Option<Excerpt>): seq<Truncation>
    requires k <= |es|
  {
    if k == 0 then []
    else Notes(stage, es, k - 1, excerpt) + (if Applies(stage, es[k - 1]) then [Note(stage, es[k - 1], excerpt)] else [])
  }

  /** The stage stops after the first touched entry that brings the estimate down to the budget. */
  ghost predicate StopsAt(stage: Stage, brief: string, es: seq<Entry>, k: nat, excerpt: string -> Option<Excerpt>, budget: int)
    requires k <= |es|
  {
    && (k < |es| ==> 0 < k && Estimate(brief, Prefix(stage, es, k, excerpt)) <= budget)
    && (forall j :: 0 < j < k && Applies(stage, es[j - 1]) ==> Estimate(brief, Prefix(stage, es, j, excerpt)) > budget)
    && (0 < k < |es| ==> Applies(stage, es[k - 1]))
  }

  /** How far a stage gets: not at all when the estimate already fits. */
  ghost predicate Outcome(stage: Stage, brief: string, es: seq<Entry>, k: nat, excerpt: string -> Option<Excerpt>, budget: int)
    requires k <= |es|
  {
    if Estimate(brief, es) <= budget then k == 0 else StopsAt(stage, brief, es, k, excerpt, budget)
  }

  /** What a stage leaves when it stops after k entries. */
  ghost predicate RanTo(stage: Stage, brief: string, es: seq<Entry>, k: nat, excerpt: string -> Option<Excerpt>, budget: int,
                        truncations0: seq<Truncation>, entries: seq<Entry>, truncations: seq<Truncation>, touched: seq<string>) {
    && k <= |es| && Outcome(stage, brief, es, k, excerpt, budget)
    && entries == Prefix(stage, es, k, excerpt)
    && truncations == truncations0 + Notes(stage, es, k, excerpt)
    && touched == Map(Notes(stage, es, k, excerpt), (t: Truncation) => t.path)
  }

  /** One `for i, entry in enumerate(entries)` loop with its break. */
  method RunStage(stage: Stage, brief: string, es: seq<Entry>, excerpt: string -> Option<Excerpt>, budget: int,
                  truncations0: seq<Truncation>)
    returns (entries: seq<Entry>, truncations: seq<Truncation>, touched: seq<string>)
    ensures exists k: nat :: RanTo(stage, brief, es, k, excerpt, budget, truncations0, entries, truncations, touched)
  {
    hide Estimate, Apply, Note, Notes, Prefix, Applies, Map;
    entries, truncations, touched := es, truncations0, [];
    StageStart(stage, es, excerpt);
    if Estimate(brief, es) <= budget {
      assert RanTo(stage, brief, es, 0, excerpt, budget, truncations0, entries, truncations, touched);
      return;
    }
    for i := 0 to |es|
      invariant entries == Prefix(stage, es, i, excerpt)
      invariant truncations == truncations0 + Notes(stage, es, i, excerpt)
      invariant touched == Map(Notes(stage, es, i, excerpt), (t: Truncation) => t.path)
      invariant forall j :: 0 < j <= i && Applies(stage, es[j - 1]) ==> Estimate(brief, Prefix(stage, es, j, excerpt)) > budget
    {
      StageStep(stage, es, i, excerpt);
      if !Applies(stage, entries[i]) { continue; }
      truncations := truncations + [Note(stage, entries[i], excerpt)];
      touched := touched + [entries[i].path];
      entries := entries[i := Apply(stage, entries[i], excerpt)];
      if Estimate(brief, entries) <= budget {
        assert RanTo(stage, brief, es, i + 1, excerpt, budget, truncations0, entries, truncations, touched);
        return;
      }
    }
    assert RanTo(stage, brief, es, |es|, excerpt, budget, truncations0, entries, truncations, touched);
  }

  lemma {:induction false} StageStart(stage: Stage, es: seq<Entry>, excerpt: string -> Option<Excerpt>)
    ensures Prefix(stage, es, 0, excerpt) == es && Notes(stage, es, 0, excerpt) == []
    ensures Map([], (t: Truncation) => t.path) == []
  {}

  lemma {:induction false} StageStep(stage: Stage, es: seq<Entry>, i: nat, excerpt: string -> Option<Excerpt>)
    requires i < |es|
    ensures |Prefix(stage, es, i, excerpt)| == |es| && Prefix(stage, es, i, excerpt)[i] == es[i]
    ensures Prefix(stage, es, i + 1, excerpt)
         == if Applies(stage, es[i]) then Prefix(stage, es, i, excerpt)[i := Apply(stage, es[i], excerpt)]
            else Prefix(stage, es, i, excerpt)
    ensures Notes(stage, es, i + 1, excerpt)
         == Notes(stage, es, i, excerpt) + if Applies(stage, es[i]) then [Note(stage, es[i], excerpt)] else []
    ensures Map(Notes(stage, es, i + 1, excerpt), (t: Truncation) => t.path)
         == Map(Notes(stage, es, i, excerpt), (t: Truncation) => t.path) + if Applies(stage, es[i]) then [es[i].path] else []
  {
    hide Apply, Note;
    if Applies(stage, es[i]) {
      NotePath(stage, es[i], excerpt);
      MapAppend(Notes(stage, es, i, excerpt), Note(stage, es[i], excerpt));
    }
  }

  lemma {:induction false} NotePath(stage: Stage, e: Entry, excerpt: string -> Option<Excerpt>)
    requires Applies(stage, e)
    ensures Note(stage, e, excerpt).path == e.path
  {}

  lemma {:induction false} MapAppend(ts: seq<Truncation>, t: Truncation)
    ensures Map(ts + [t], (t: Truncation) => t.path) == Map(ts, (t: Truncation) => t.path) + [t.path]
  {}

  function PointerList(paths: seq<string>): string {
    Join("\n", Map(paths, (p: string) => "- " + p))
  }

  function BriefWithPointers(brief: string, dropped: seq<string>): string {
    if dropped == [] then brief
    else RStrip(brief) + "\n\n## Paths (budget)\n" + PointerList(dropped) + "\n"
  }

  /** The three stages in order, and the package they leave. */
  ghost predicate Staged(pkg: Package, r: Package, k1: nat, k2: nat, k3: nat, excerpt: string -> Option<Excerpt>, budget: int) {
    && k1 <= |pkg.entries| && k2 <= |pkg.entries| && k3 <= |pkg.entries|
    && var e1 := Prefix(ToExcerpt, pkg.entries, k1, excerpt);
       var e2 := Prefix(ToHead, e1, k2, excerpt);
       var n1, n2, n3 := Notes(ToExcerpt, pkg.entries, k1, excerpt), Notes(ToHead, e1, k2, excerpt), Notes(ToPointer, e2, k3, excerpt);
       && Outcome(ToExcerpt, pkg.brief, pkg.entries, k1, excerpt, budget)
       && Outcome(ToHead, pkg.brief, e1, k2, excerpt, budget)
       && Outcome(ToPointer, pkg.brief, e2, k3, excerpt, budget)
       && r.entries == Prefix(ToPointer, e2, k3, excerpt)
       && r.truncations == pkg.truncations + n1 + n2 + n3
       && r.brief == BriefWithPointers(pkg.brief, Map(n3, (t: Truncation) => t.path))
       && r.overLimit == (Estimate(r.brief, r.entries) > budget)
  }

  /** Budgeting leaves a package that fits as it is, and takes any other through the stages. */
  ghost predicate Budgeted(pkg: Package, r: Package, excerpt: string -> Option<Excerpt>, budget: int) {
    if Estimate(pkg.brief, pkg.entries) <= budget then r == pkg
    else exists k1: nat, k2: nat, k3: nat :: Staged(pkg, r, k1, k2, k3, excerpt, budget)
  }

  /** `apply_context_budget`. */
  method ApplyContextBudget(pkg: Package, budget: int, excerpt: string -> Option<Excerpt>) returns (r: Package)
    ensures Budgeted(pkg, r, excerpt, budget)
  {
    hide Outcome, Notes, Estimate, Prefix;
    if Estimate(pkg.brief, pkg.entries) <= budget { return pkg; }
    PrefixLength();
    var e1, t1, p1 := RunStage(ToExcerpt, pkg.brief, pkg.entries, excerpt, budget, pkg.truncations);
    ghost var k1: nat :| RanTo(ToExcerpt, pkg.brief, pkg.entries, k1, excerpt, budget, pkg.truncations, e1, t1, p1);
    var e2, t2, p2 := RunStage(ToHead, pkg.brief, e1, excerpt, budget, t1);
    ghost var k2: nat :| RanTo(ToHead, pkg.brief, e1, k2, excerpt, budget, t1, e2, t2, p2);
    var e3, t3, dropped := RunStage(ToPointer, pkg.brief, e2, excerpt, budget, t2);
    ghost var k3: nat :| RanTo(ToPointer, pkg.brief, e2, k3, excerpt, budget, t2, e3, t3, dropped);
    var brief := BriefWithPointers(pkg.brief, dropped);
    r := Package(brief, e3, t3, Estimate(brief, e3) > budget);
    assert Staged(pkg, r, k1, k2, k3, excerpt, budget);
  }

  lemma {:induction false} PrefixLength()
    ensures forall stage, es: seq<Entry>, k: nat, excerpt :: k <= |es| ==> |Prefix(stage, es, k, excerpt)| == |es|
  {}

  // ----- What budgeting keeps, changes and guarantees. -----

  /** Position in the lattice of tiers a read entry moves down through. */
  function Rank(t: Tier): nat { if t.ReadFull? then 2 else if t.ReadExcerpt? then 1 else 0 }

  /** Same paths in the same order, non-read entries as they were, read entries only further down. */
  ghost predicate Degrades(before: seq<Entry>, after: seq<Entry>) {
    && |after| == |before|
    && forall i :: 0 <= i < |before| ==>
         && after[i].path == before[i].path
         && (!IsRead(before[i]) ==> after[i] == before[i])
         && (IsRead(before[i]) ==> (IsRead(after[i]) || after[i].tier.Pointer?) && Rank(after[i].tier) <= Rank(before[i].tier))
  }

  lemma {:induction false} StageDegrades(stage: Stage, es: seq<Entry>, k: nat, excerpt: string -> Option<Excerpt>)
    requires k <= |es|
    ensures Degrades(es, Prefix(stage, es, k, excerpt))
  {}

  lemma {:induction false} DegradesTransitive(a: seq<Entry>, b: seq<Entry>, c: seq<Entry>)
    requires Degrades(a, b) && Degrades(b, c)
    ensures Degrades(a, c)
  {}

  lemma {:induction false} BudgetDegrades(pkg: Package, r: Package, k1: nat, k2: nat, k3: nat,
                                          excerpt: string -> Option<Excerpt>, budget: int)
    requires Staged(pkg, r, k1, k2, k3, excerpt, budget)
    ensures Degrades(pkg.entries, r.entries)
  {
    var e1 := Prefix(ToExcerpt, pkg.entries, k1, excerpt);
    var e2 := Prefix(ToHead, e1, k2, excerpt);
    StageDegrades(ToExcerpt, pkg.entries, k1, excerpt);
    StageDegrades(ToHead, e1, k2, excerpt);
    StageDegrades(ToPointer, e2, k3, excerpt);
    DegradesTransitive(pkg.entries, e1, e2);
    DegradesTransitive(pkg.entries, e2, r.entries);
  }

  lemma {:induction false} FitsOrDone(stage: Stage, brief: string, es: seq<Entry>, k: nat, excerpt: string -> Option<Excerpt>, budget: int)
    requires k <= |es| && Outcome(stage, brief, es, k, excerpt, budget)
    ensures Estimate(brief, Prefix(stage, es, k, excerpt)) <= budget || k == |es|
  {
    if Estimate(brief, es) <= budget { assert Prefix(stage, es, 0, excerpt) == es; }
  }

  ghost predicate NoFullFile(es: seq<Entry>) {
    forall i :: 0 <= i < |es| ==> !es[i].tier.ReadFull?
  }

  lemma {:induction false} AllExcerpted(es: seq<Entry>, excerpt: string -> Option<Excerpt>)
    ensures NoFullFile(Prefix(ToExcerpt, es, |es|, excerpt))
  {}

  lemma {:induction false} NoFullFileKept(a: seq<Entry>, b: seq<Entry>)
    requires Degrades(a, b) && NoFullFile(a)
    ensures NoFullFile(b)
  {}

  /** An excerpt is shrunk or dropped only once no full file is left. */
  lemma {:induction false} FullFilesGoFirst(pkg: Package, r: Package, k1: nat, k2: nat, k3: nat,
                                            excerpt: string -> Option<Excerpt>, budget: int)
    requires Staged(pkg, r, k1, k2, k3, excerpt, budget)
    requires k2 > 0 || k3 > 0
    ensures NoFullFile(Prefix(ToExcerpt, pkg.entries, k1, excerpt)) && NoFullFile(r.entries)
  {
    hide NoFullFile, Degrades, Estimate, Apply;
    var e1 := Prefix(ToExcerpt, pkg.entries, k1, excerpt);
    var e2 := Prefix(ToHead, e1, k2, excerpt);
    FitsOrDone(ToExcerpt, pkg.brief, pkg.entries, k1, excerpt, budget);
    if k3 > 0 { HeadsGoBeforePointers(pkg, r, k1, k2, k3, excerpt, budget); }
    AllExcerpted(pkg.entries, excerpt);
    StageDegrades(ToHead, e1, k2, excerpt);
    StageDegrades(ToPointer, e2, k3, excerpt);
    NoFullFileKept(e1, e2);
    NoFullFileKept(e2, r.entries);
  }

  /** A payload is dropped only once every excerpt has been cut to its head. */
  lemma {:induction false} HeadsGoBeforePointers(pkg: Package, r: Package, k1: nat, k2: nat, k3: nat,
                                                 excerpt: string -> Option<Excerpt>, budget: int)
    requires Staged(pkg, r, k1, k2, k3, excerpt, budget) && k3 > 0
    ensures k1 == k2 == |pkg.entries|
  {
    hide Estimate, Apply;
    var e1 := Prefix(ToExcerpt, pkg.entries, k1, excerpt);
    var e2 := Prefix(ToHead, e1, k2, excerpt);
    FitsOrDone(ToExcerpt, pkg.brief, pkg.entries, k1, excerpt, budget);
    FitsOrDone(ToHead, pkg.brief, e1, k2, excerpt, budget);
    assert Estimate(pkg.brief, e2) > budget;
    assert Prefix(ToHead, e1, 0, excerpt) == e1;
  }

  /** Still over budget: no read payload is left, or only the appended pointer list is to blame. */
  lemma {:induction false} OverLimitExplained(pkg: Package, r: Package, k1: nat, k2: nat, k3: nat,
                                              excerpt: string -> Option<Excerpt>, budget: int)
    requires Staged(pkg, r, k1, k2, k3, excerpt, budget) && r.overLimit
    ensures (forall i :: 0 <= i < |r.entries| && IsRead(r.entries[i]) ==> r.entries[i].payload.None?)
         || (Estimate(pkg.brief, r.entries) <= budget && r.brief != pkg.brief)
  {
    var e1 := Prefix(ToExcerpt, pkg.entries, k1, excerpt);
    var e2 := Prefix(ToHead, e1, k2, excerpt);
    FitsOrDone(ToPointer, pkg.brief, e2, k3, excerpt, budget);
  }

  lemma {:induction false} SkippedStep(stage: Stage, es: seq<Entry>, i: nat, excerpt: string -> Option<Excerpt>)
    requires i < |es| && !Applies(stage, es[i])
    ensures Prefix(stage, es, i + 1, excerpt) == Prefix(stage, es, i, excerpt)
  {}

  /** While a stage is at work, the estimate is over budget before every entry it comes to. */
  lemma {:induction false} OverBefore(stage: Stage, brief: string, es: seq<Entry>, k: nat, excerpt: string -> Option<Excerpt>,
                                      budget: int, i: nat)
    requires i < k <= |es| && Outcome(stage, brief, es, k, excerpt, budget)
    ensures Estimate(brief, Prefix(stage, es, i, excerpt)) > budget
  {
    hide Estimate, Apply, Applies;
    if i == 0 {
      assert Prefix(stage, es, 0, excerpt) == es;
    } else {
      OverBefore(stage, brief, es, k, excerpt, budget, i - 1);
      if !Applies(stage, es[i - 1]) { SkippedStep(stage, es, i - 1, excerpt); }
    }
  }

  /**
   * No payload is dropped in vain: the package was over budget before each drop, the first one included,
   * and every entry behind the last drop keeps what it had.
   */
  lemma {:induction false} NothingDroppedInVain(pkg: Package, r: Package, k1: nat, k2: nat, k3: nat,
                                                excerpt: string -> Option<Excerpt>, budget: int)
    requires Staged(pkg, r, k1, k2, k3, excerpt, budget)
    ensures var e2 := Prefix(ToHead, Prefix(ToExcerpt, pkg.entries, k1, excerpt), k2, excerpt);
            && |e2| == |r.entries| == |pkg.entries|
            && (forall i :: 0 <= i < k3 && Applies(ToPointer, e2[i]) ==>
                  r.entries[i].payload.None? && Estimate(pkg.brief, Prefix(ToPointer, e2, i, excerpt)) > budget)
            && (forall i :: k3 <= i < |e2| ==> r.entries[i] == e2[i])
  {
    hide Estimate;
    var e2 := Prefix(ToHead, Prefix(ToExcerpt, pkg.entries, k1, excerpt), k2, excerpt);
    forall i | 0 <= i < k3 && Applies(ToPointer, e2[i])
      ensures Estimate(pkg.brief, Prefix(ToPointer, e2, i, excerpt)) > budget
    {
      OverBefore(ToPointer, pkg.brief, e2, k3, excerpt, budget, i);
    }
  }

  // ----- What the entries hold in the end. -----

  /** What the first loop does to an entry it comes to. */
  ghost predicate Excerpted(e: Entry, e': Entry, excerpt: string -> Option<Excerpt>) {
    if e.tier != ReadFull then e' == e
    else if excerpt(e.path).None? then e' == e.(tier := ReadExcerpt, payload := None)
    else
      && e'.path == e.path && e'.tier == ReadExcerpt
      && e'.payload == Some(excerpt(e.path).value.text) && e'.bytes == Some(excerpt(e.path).value.excerptBytes)
      && e'.excerptPath == Some(".mcp-coder/context/excerpts/" + Slashes(e.path) + ".excerpt.txt")
  }

  /** What the second does: at most forty lines stay, then a notice. */
  ghost predicate Shrunk(e: Entry, e': Entry) {
    if e.tier != ReadExcerpt || e.payload.None? then e' == e
    else
      && e'.path == e.path && e'.tier == ReadExcerpt && e'.excerptPath == e.excerptPath
      && e'.payload.Some? && e'.bytes == Some(ByteLength(e'.payload.value))
      && var lines := SplitLines(e.payload.value);
         e'.payload.value == Join("\n", if |lines| <= 40 then lines else lines[..40]) + "\n\U{2026} (budget truncated)\n"
  }

  /** What the third does: the payload goes, the size stays. */
  ghost predicate Dropped(e: Entry, e': Entry) {
    if e.payload.None? || !(e.tier == ReadFull || e.tier == ReadExcerpt) then e' == e
    else e'.path == e.path && e'.tier == Pointer && e'.payload == None && e'.bytes == e.bytes && e'.excerptPath == e.excerptPath
  }

  /** What became of entry i: each stage handled it if it got that far, and the last ones did only if nothing else helped. */
  lemma {:induction false} EntryHolds(pkg: Package, r: Package, k1: nat, k2: nat, k3: nat,
                                      excerpt: string -> Option<Excerpt>, budget: int, i: nat)
    returns (e1: Entry, e2: Entry)
    requires Staged(pkg, r, k1, k2, k3, excerpt, budget) && i < |pkg.entries|
    ensures |r.entries| == |pkg.entries|
    ensures if i < k1 then Excerpted(pkg.entries[i], e1, excerpt) else e1 == pkg.entries[i]
    ensures if i < k2 then Shrunk(e1, e2) else e2 == e1
    ensures if i < k3 then Dropped(e2, r.entries[i]) else r.entries[i] == e2
  {
    hide Estimate, Outcome, Notes, BriefWithPointers;
    var es1 := Prefix(ToExcerpt, pkg.entries, k1, excerpt);
    var es2 := Prefix(ToHead, es1, k2, excerpt);
    e1, e2 := es1[i], es2[i];
    if i < k2 && Applies(ToHead, e1) { ShrinkShows(e1, excerpt); }
    hide Shrunk, ShrinkHead;
  }

  lemma {:induction false} ShrinkShows(e: Entry, excerpt: string -> Option<Excerpt>)
    requires Applies(ToHead, e)
    ensures Shrunk(e, Apply(ToHead, e, excerpt))
  {
    var lines := SplitLines(e.payload.value);
    assert lines[..|lines|] == lines;
  }

  /** An excerpted entry that no later stage touched shows its excerpt, or nothing if the file cannot be read. */
  lemma {:induction false} ExcerptShown(pkg: Package, r: Package, k1: nat, k2: nat, k3: nat,
                                        excerpt: string -> Option<Excerpt>, budget: int, i: nat)
    requires Staged(pkg, r, k1, k2, k3, excerpt, budget) && i < k1 && k2 <= i && k3 <= i && pkg.entries[i].tier == ReadFull
    ensures i < |r.entries| && r.entries[i].tier == ReadExcerpt && r.entries[i].path == pkg.entries[i].path
    ensures match excerpt(pkg.entries[i].path)
            case Some(x) => r.entries[i].payload == Some(x.text) && r.entries[i].bytes == Some(x.excerptBytes)
            case None => r.entries[i].payload == None && r.entries[i].bytes == pkg.entries[i].bytes
  {
    hide Outcome, Shrunk;
    var e1, e2 := EntryHolds(pkg, r, k1, k2, k3, excerpt, budget, i);
  }

  /** Every note names an entry the stage handled, the stage, and the bytes gone from it. */
  lemma {:induction false} NotesSay(stage: Stage, es: seq<Entry>, k: nat, excerpt: string -> Option<Excerpt>, t: Truncation)
    requires k <= |es| && t in Notes(stage, es, k, excerpt)
    ensures exists i :: 0 <= i < k && Says(stage, es[i], excerpt, t)
  {
    if t in Notes(stage, es, k - 1, excerpt) {
      NotesSay(stage, es, k - 1, excerpt, t);
    } else {
      if stage == ToHead { ShrinkShows(es[k - 1], excerpt); }
      hide Shrunk, ByteLength;
      assert Says(stage, es[k - 1], excerpt, t);
    }
  }

  ghost predicate Says(stage: Stage, e: Entry, excerpt: string -> Option<Excerpt>, t: Truncation) {
    var was := if e.payload.Some? then ByteLength(e.payload.value) else 0;
    && t.path == e.path
    && match stage
       case ToExcerpt =>
         && e.tier == ReadFull && t.reason == "context_budget:read_full_to_excerpt"
         && t.bytesDropped == Max(0, was - match excerpt(e.path) case Some(x) => x.excerptBytes case None => 0)
       case ToHead =>
         && e.tier == ReadExcerpt && e.payload.Some? && t.reason == "context_budget:excerpt_shrink"
         && exists e' :: Shrunk(e, e') && e'.payload.Some? && t.bytesDropped == Max(0, was - ByteLength(e'.payload.value))
       case ToPointer =>
         (e.tier == ReadFull || e.tier == ReadExcerpt) && e.payload.Some? && t.reason == "context_budget:drop_payload" && t.bytesDropped == was
  }

  /** One line per path. */
  function Listed(paths: seq<string>): string {
    if paths == [] then "" else "\n- " + paths[0] + Listed(paths[1..])
  }

  lemma {:induction false} PointerListSays(paths: seq<string>)
    requires paths != []
    ensures "\n" + PointerList(paths) == Listed(paths)
  {
    var lines := Map(paths, (p: string) => "- " + p);
    assert lines[1..] == Map(paths[1..], (p: string) => "- " + p);
    if |paths| == 1 {
      assert paths[1..] == [] && Listed(paths[1..]) == "";
    } else {
      PointerListSays(paths[1..]);
      assert PointerList(paths) == "- " + paths[0] + "\n" + PointerList(paths[1..]);
    }
  }

  function NotedPaths(stage: Stage, es: seq<Entry>, k: nat, excerpt: string -> Option<Excerpt>): seq<string>
    requires k <= |es|
  {
    Map(Notes(stage, es, k, excerpt), (t: Truncation) => t.path)
  }

  lemma {:induction false} PathsNoted(stage: Stage, es: seq<Entry>, k: nat, excerpt: string -> Option<Excerpt>)
    requires k <= |es|
    ensures forall p :: p in NotedPaths(stage, es, k, excerpt) <==> exists i :: 0 <= i < k && Applies(stage, es[i]) && es[i].path == p
  {
    hide Apply, Note;
    if k == 0 {
      StageStart(stage, es, excerpt);
    } else {
      PathsNoted(stage, es, k - 1, excerpt);
      StageStep(stage, es, k - 1, excerpt);
      hide Notes, Map, Applies;
      var last := if Applies(stage, es[k - 1]) then [es[k - 1].path] else [];
      assert NotedPaths(stage, es, k, excerpt) == NotedPaths(stage, es, k - 1, excerpt) + last;
      hide NotedPaths;
      OneMorePath(NotedPaths(stage, es, k - 1, excerpt), last, stage, es, k);
    }
  }

  lemma {:induction false} OneMorePath(before: seq<string>, last: seq<string>, stage: Stage, es: seq<Entry>, k: nat)
    requires 0 < k <= |es| && last == if Applies(stage, es[k - 1]) then [es[k - 1].path] else []
    requires forall p :: p in before <==> exists i :: 0 <= i < k - 1 && Applies(stage, es[i]) && es[i].path == p
    ensures forall p :: p in before + last <==> exists i :: 0 <= i < k && Applies(stage, es[i]) && es[i].path == p
  {
    hide Applies;
    forall p ensures p in before + last <==> exists i :: 0 <= i < k && Applies(stage, es[i]) && es[i].path == p {
      if p in last { assert Applies(stage, es[k - 1]) && es[k - 1].path == p; }
    }
  }

  /** A read entry whose text the budget dropped. */
  predicate LostText(before: Entry, after: Entry) {
    (before.tier == ReadFull || before.tier == ReadExcerpt) && after.tier == Pointer
  }

  /** The brief is as it was, or names every dropped path and no other, one to a line under a heading. */
  lemma {:induction false} BriefSays(pkg: Package, r: Package, k1: nat, k2: nat, k3: nat,
                                     excerpt: string -> Option<Excerpt>, budget: int)
    returns (dropped: seq<string>)
    requires Staged(pkg, r, k1, k2, k3, excerpt, budget)
    ensures |r.entries| == |pkg.entries|
    ensures r.brief == if dropped == [] then pkg.brief else RStrip(pkg.brief) + "\n\n## Paths (budget)" + Listed(dropped) + "\n"
    ensures forall p :: p in dropped
                   <==> exists i :: 0 <= i < |r.entries| && r.entries[i].path == p && LostText(pkg.entries[i], r.entries[i])
  {
    dropped := DroppedPaths(pkg, k1, k2, k3, excerpt);
    var es2 := Prefix(ToHead, Prefix(ToExcerpt, pkg.entries, k1, excerpt), k2, excerpt);
    PathsNoted(ToPointer, es2, k3, excerpt);
    if dropped != [] { PointerListSays(dropped); }
    BriefIs(pkg.brief, dropped);
    PrefixLength();
    hide Notes, Outcome, Estimate, BriefWithPointers, Listed, RStrip, Map, Applies, LostText;
    forall i: nat | i < |r.entries|
      ensures LostText(pkg.entries[i], r.entries[i]) <==> i < k3 && Applies(ToPointer, es2[i])
      ensures r.entries[i].path == es2[i].path
    {
      LostExactly(pkg, r, k1, k2, k3, excerpt, budget, i);
    }
    hide Prefix;
  }

  lemma {:induction false} LostExactly(pkg: Package, r: Package, k1: nat, k2: nat, k3: nat,
                                       excerpt: string -> Option<Excerpt>, budget: int, i: nat)
    requires Staged(pkg, r, k1, k2, k3, excerpt, budget) && i < |pkg.entries|
    ensures |r.entries| == |pkg.entries|
    ensures var es2 := Prefix(ToHead, Prefix(ToExcerpt, pkg.entries, k1, excerpt), k2, excerpt);
            && (LostText(pkg.entries[i], r.entries[i]) <==> i < k3 && Applies(ToPointer, es2[i]))
            && r.entries[i].path == es2[i].path
  {
    hide Outcome, Estimate, Notes, BriefWithPointers, ShrinkHead;
  }

  lemma {:induction false} BriefIs(brief: string, dropped: seq<string>)
    requires dropped != [] ==> "\n" + PointerList(dropped) == Listed(dropped)
    ensures BriefWithPointers(brief, dropped)
         == if dropped == [] then brief else RStrip(brief) + "\n\n## Paths (budget)" + Listed(dropped) + "\n"
  {
    if dropped != [] {
      var pre := RStrip(brief) + "\n\n## Paths (budget)";
      assert RStrip(brief) + "\n\n## Paths (budget)\n" == pre + "\n";
      assert pre + "\n" + PointerList(dropped) == pre + ("\n" + PointerList(dropped));
    }
  }

  // ----- When budgeting makes a package larger. -----

  function Length(e: Entry): nat { if e.payload.Some? then |e.payload.value| else 0 }

  /** Characters of the payloads in the read tiers. */
  function ReadText(es: seq<Entry>): nat {
    if es == [] then 0 else (if IsRead(es[0]) then Length(es[0]) else 0) + ReadText(es[1..])
  }

  function OtherText(es: seq<Entry>): nat {
    if es == [] then 0 else (if IsRead(es[0]) then 0 else Length(es[0])) + OtherText(es[1..])
  }

  lemma {:induction false} PayloadLength(es: seq<Entry>)
    ensures |Payloads(es)| == ReadText(es) + OtherText(es)
  {
    if es != [] { PayloadLength(es[1..]); }
  }

  lemma {:induction false} OtherSame(a: seq<Entry>, b: seq<Entry>)
    requires |a| == |b|
    requires forall i :: 0 <= i < |a| ==> (if IsRead(a[i]) then 0 else Length(a[i])) == (if IsRead(b[i]) then 0 else Length(b[i]))
    ensures OtherText(a) == OtherText(b)
  {
    if a != [] { OtherSame(a[1..], b[1..]); }
  }

  lemma {:induction false} StageOther(stage: Stage, es: seq<Entry>, k: nat, excerpt: string -> Option<Excerpt>)
    requires k <= |es|
    ensures OtherText(Prefix(stage, es, k, excerpt)) == OtherText(es)
  {
    OtherSame(Prefix(stage, es, k, excerpt), es);
  }

  lemma {:induction false} NoReadText(es: seq<Entry>)
    requires forall i :: 0 <= i < |es| && IsRead(es[i]) ==> es[i].payload.None?
    ensures ReadText(es) == 0
  {
    if es != [] { NoReadText(es[1..]); }
  }

  /** The estimate of a text of `n` characters. */
  function Tokens(n: nat): nat { if n == 0 then 0 else Max(1, n / 4) }

  lemma {:induction false} EstimateLength(brief: string, es: seq<Entry>)
    ensures Estimate(brief, es) == Tokens(|brief| + ReadText(es) + OtherText(es))
  {
    PayloadLength(es);
  }

  /** Paths of the entries the last stage dropped. */
  function DroppedPaths(pkg: Package, k1: nat, k2: nat, k3: nat, excerpt: string -> Option<Excerpt>): seq<string>
    requires k1 <= |pkg.entries| && k2 <= |pkg.entries| && k3 <= |pkg.entries|
  {
    var e2 := Prefix(ToHead, Prefix(ToExcerpt, pkg.entries, k1, excerpt), k2, excerpt);
    NotedPaths(ToPointer, e2, k3, excerpt)
  }

  function ListLength(paths: seq<string>): nat {
    if paths == [] then 0 else |paths[0]| + 3 + ListLength(paths[1..])
  }

  /** What the path section adds to a brief: a title, a line per path, less the white space it replaces. */
  function SectionLength(brief: string, paths: seq<string>): int {
    if paths == [] then 0
    else |"\n\n## Paths (budget)\n"| + ListLength(paths) - (|brief| - |RStrip(brief)|)
  }

  lemma {:induction false} PointerListLength(paths: seq<string>)
    requires paths != []
    ensures |PointerList(paths)| + 1 == ListLength(paths)
  {
    var lines := Map(paths, (p: string) => "- " + p);
    if |paths| == 1 {
      assert paths[1..] == [];
    } else {
      PointerListLength(paths[1..]);
      assert lines[1..] == Map(paths[1..], (p: string) => "- " + p);
    }
  }

  lemma {:induction false} BriefLength(brief: string, paths: seq<string>)
    ensures |BriefWithPointers(brief, paths)| == |brief| + SectionLength(brief, paths)
  {
    if paths != [] { PointerListLength(paths); }
  }

  /** What the stages leave of the text: either it fits beside the old brief, or no read text is left. */
  lemma {:induction false} StagedText(pkg: Package, r: Package, k1: nat, k2: nat, k3: nat,
                                      excerpt: string -> Option<Excerpt>, budget: int)
    requires Staged(pkg, r, k1, k2, k3, excerpt, budget)
    ensures k1 <= |pkg.entries| && k2 <= |pkg.entries| && k3 <= |pkg.entries|
    ensures OtherText(r.entries) == OtherText(pkg.entries)
    ensures Estimate(pkg.brief, r.entries) <= budget || ReadText(r.entries) == 0
    ensures r.brief == BriefWithPointers(pkg.brief, DroppedPaths(pkg, k1, k2, k3, excerpt))
    ensures k3 == 0 ==> r.brief == pkg.brief
  {
    var e1 := Prefix(ToExcerpt, pkg.entries, k1, excerpt);
    var e2 := Prefix(ToHead, e1, k2, excerpt);
    StageOther(ToExcerpt, pkg.entries, k1, excerpt);
    StageOther(ToHead, e1, k2, excerpt);
    StageOther(ToPointer, e2, k3, excerpt);
    FitsOrDone(ToPointer, pkg.brief, e2, k3, excerpt, budget);
    if k3 == |e2| {
      assert forall i :: 0 <= i < |e2| && IsRead(r.entries[i]) ==> r.entries[i].payload.None?;
      NoReadText(r.entries);
    }
    hide Estimate, Outcome;
  }

  /** How far a stage gets on entries that do not fit: to the first prefix that does, or to the end. */
  function FirstFit(stage: Stage, brief: string, es: seq<Entry>, excerpt: string -> Option<Excerpt>, budget: int, from: nat): (k: nat)
    requires from <= |es|
    ensures from <= k <= |es|
    ensures k < |es| ==> Estimate(brief, Prefix(stage, es, k, excerpt)) <= budget
    ensures forall j :: from <= j < k ==> Estimate(brief, Prefix(stage, es, j, excerpt)) > budget
    decreases |es| - from
  {
    if from == |es| || Estimate(brief, Prefix(stage, es, from, excerpt)) <= budget then from
    else FirstFit(stage, brief, es, excerpt, budget, from + 1)
  }

  /** No prefix of the stage fits. */
  ghost predicate Exhausted(stage: Stage, brief: string, es: seq<Entry>, excerpt: string -> Option<Excerpt>, budget: int) {
    forall k :: 0 <= k <= |es| ==> Estimate(brief, Prefix(stage, es, k, excerpt)) > budget
  }

  /** Naming the dropped paths outweighs, in whole tokens, the read text that is gone from `after`. */
  predicate Heavier(pkg: Package, after: seq<Entry>, dropped: seq<string>) {
    var text := |pkg.brief| + ReadText(pkg.entries) + OtherText(pkg.entries);
    var text' := text + SectionLength(pkg.brief, dropped) - (ReadText(pkg.entries) - ReadText(after));
    text' >= 0 && Tokens(text') > Tokens(text)
  }

  /**
   * The package does not fit with any number of read files excerpted and cut to their heads, and naming the files
   * dropped then, up to the first drop that fits, outweighs the read text removed.
   */
  ghost predicate Outgrows(pkg: Package, excerpt: string -> Option<Excerpt>, budget: int) {
    var n := |pkg.entries|;
    var e1 := Prefix(ToExcerpt, pkg.entries, n, excerpt);
    var e2 := Prefix(ToHead, e1, n, excerpt);
    var k := FirstFit(ToPointer, pkg.brief, e2, excerpt, budget, 0);
    && Exhausted(ToExcerpt, pkg.brief, pkg.entries, excerpt, budget)
    && Exhausted(ToHead, pkg.brief, e1, excerpt, budget)
    && Heavier(pkg, Prefix(ToPointer, e2, k, excerpt), DroppedPaths(pkg, n, n, k, excerpt))
  }

  /** Budgeting makes a package larger exactly when the package given outgrows its budget that way. */
  lemma {:induction false} GrowsExactly(pkg: Package, r: Package, excerpt: string -> Option<Excerpt>, budget: int)
    requires Budgeted(pkg, r, excerpt, budget)
    ensures Estimate(r.brief, r.entries) > Estimate(pkg.brief, pkg.entries) <==> Outgrows(pkg, excerpt, budget)
  {
    assert Prefix(ToExcerpt, pkg.entries, 0, excerpt) == pkg.entries;
    PrefixLength();
    hide Estimate, Staged, Prefix, DroppedPaths, Heavier;
    if Estimate(pkg.brief, pkg.entries) > budget {
      var k1: nat, k2: nat, k3: nat :| Staged(pkg, r, k1, k2, k3, excerpt, budget);
      GrowthOfRun(pkg, r, k1, k2, k3, excerpt, budget);
      ExhaustedExactly(pkg, r, k1, k2, k3, excerpt, budget);
    }
  }

  /** The stages come to drop payloads exactly when the first two are exhausted, and then how far is determined. */
  lemma {:induction false} ExhaustedExactly(pkg: Package, r: Package, k1: nat, k2: nat, k3: nat,
                                            excerpt: string -> Option<Excerpt>, budget: int)
    requires Estimate(pkg.brief, pkg.entries) > budget && Staged(pkg, r, k1, k2, k3, excerpt, budget)
    ensures var n := |pkg.entries|;
            var e1 := Prefix(ToExcerpt, pkg.entries, n, excerpt);
            var e2 := Prefix(ToHead, e1, n, excerpt);
            var exhausted := Exhausted(ToExcerpt, pkg.brief, pkg.entries, excerpt, budget)
                             && Exhausted(ToHead, pkg.brief, e1, excerpt, budget);
            && (k3 > 0 ==> exhausted)
            && (exhausted ==> k1 == k2 == n && k3 == FirstFit(ToPointer, pkg.brief, e2, excerpt, budget, 0)
                              && r.entries == Prefix(ToPointer, e2, k3, excerpt))
  {
    hide Estimate, Notes;
    var n := |pkg.entries|;
    var e1 := Prefix(ToExcerpt, pkg.entries, n, excerpt);
    var e2 := Prefix(ToHead, e1, n, excerpt);
    assert Prefix(ToHead, e1, 0, excerpt) == e1 && Prefix(ToPointer, e2, 0, excerpt) == e2;
    PrefixLength();
    hide Prefix;
    if k3 > 0 {
      HeadsGoBeforePointers(pkg, r, k1, k2, k3, excerpt, budget);
      assert Estimate(pkg.brief, e2) > budget;
      StageExhausted(ToHead, pkg.brief, e1, excerpt, budget);
      StageExhausted(ToExcerpt, pkg.brief, pkg.entries, excerpt, budget);
    }
    if Exhausted(ToExcerpt, pkg.brief, pkg.entries, excerpt, budget) && Exhausted(ToHead, pkg.brief, e1, excerpt, budget) {
      assert k1 == n && k2 == n;
      FirstFitIs(ToPointer, pkg.brief, e2, k3, excerpt, budget);
    }
  }

  lemma {:induction false} StageExhausted(stage: Stage, brief: string, es: seq<Entry>, excerpt: string -> Option<Excerpt>, budget: int)
    requires Outcome(stage, brief, es, |es|, excerpt, budget)
    requires Estimate(brief, Prefix(stage, es, |es|, excerpt)) > budget
    ensures Exhausted(stage, brief, es, excerpt, budget)
  {
    forall k | 0 <= k < |es| ensures Estimate(brief, Prefix(stage, es, k, excerpt)) > budget {
      OverBefore(stage, brief, es, |es|, excerpt, budget, k);
    }
  }

  lemma {:induction false} FirstFitIs(stage: Stage, brief: string, es: seq<Entry>, k: nat, excerpt: string -> Option<Excerpt>, budget: int)
    requires k <= |es| && Estimate(brief, es) > budget && Outcome(stage, brief, es, k, excerpt, budget)
    ensures k == FirstFit(stage, brief, es, excerpt, budget, 0)
  {
    hide Estimate, Prefix;
    var fit := FirstFit(stage, brief, es, excerpt, budget, 0);
    if fit < k { OverBefore(stage, brief, es, k, excerpt, budget, fit); }
  }

  /** The growth of one run, whose third stage stopped at k3: what the path section adds against the read text lost. */
  lemma {:induction false} GrowthOfRun(pkg: Package, r: Package, k1: nat, k2: nat, k3: nat,
                                       excerpt: string -> Option<Excerpt>, budget: int)
    requires Estimate(pkg.brief, pkg.entries) > budget && Staged(pkg, r, k1, k2, k3, excerpt, budget)
    ensures k1 <= |pkg.entries| && k2 <= |pkg.entries| && k3 <= |pkg.entries|
    ensures ReadText(r.entries) <= ReadText(pkg.entries)
    ensures Estimate(r.brief, r.entries) > Estimate(pkg.brief, pkg.entries)
            <==> Heavier(pkg, r.entries, DroppedPaths(pkg, k1, k2, k3, excerpt))
    ensures Estimate(r.brief, r.entries) > Estimate(pkg.brief, pkg.entries) ==>
              k3 > 0 && SectionLength(pkg.brief, DroppedPaths(pkg, k1, k2, k3, excerpt)) > ReadText(pkg.entries) - ReadText(r.entries)
  {
    hide *;
    StagedText(pkg, r, k1, k2, k3, excerpt, budget);
    BriefLength(pkg.brief, DroppedPaths(pkg, k1, k2, k3, excerpt));
    EstimateLength(pkg.brief, pkg.entries);
    EstimateLength(pkg.brief, r.entries);
    EstimateLength(r.brief, r.entries);
    Outweighs(|pkg.brief|, |r.brief|, ReadText(pkg.entries), ReadText(r.entries), OtherText(r.entries), budget);
    HeavierMeans(pkg, r.entries, DroppedPaths(pkg, k1, k2, k3, excerpt));
  }

  lemma {:induction false} HeavierMeans(pkg: Package, after: seq<Entry>, dropped: seq<string>)
    ensures var text := |pkg.brief| + ReadText(pkg.entries) + OtherText(pkg.entries);
            var text' := text + SectionLength(pkg.brief, dropped) - (ReadText(pkg.entries) - ReadText(after));
            Heavier(pkg, after, dropped) <==> text' >= 0 && Tokens(text') > Tokens(text)
  {}

  lemma {:induction false} Outweighs(brief: nat, brief': nat, read: nat, read': nat, other: nat, budget: int)
    requires Tokens(brief + read + other) > budget
    requires Tokens(brief + read' + other) <= budget || read' == 0
    ensures read >= read'
    ensures Tokens(brief' + read' + other) > Tokens(brief + read + other) ==> brief' - brief > read - read'
  {}

  /** A read file of eight characters under a path three times as long. */
  function Grower(): Package {
    Package("", [Entry("lib/a_long_enough_path.py", ReadExcerpt, Some(8), Some("12345678"), None)], [], false)
  }

  /** One entry, handled or not. */
  lemma {:induction false} Single(stage: Stage, e: Entry, excerpt: string -> Option<Excerpt>)
    ensures Prefix(stage, [e], 0, excerpt) == [e] && Notes(stage, [e], 0, excerpt) == []
    ensures Prefix(stage, [e], 1, excerpt) == [if Applies(stage, e) then Apply(stage, e, excerpt) else e]
    ensures Notes(stage, [e], 1, excerpt) == if Applies(stage, e) then [Note(stage, e, excerpt)] else []
  {
    hide Apply, Applies, Note;
  }

  lemma {:induction false} SingleEstimate(brief: string, e: Entry)
    ensures Estimate(brief, [e]) == Tokens(|brief| + Length(e))
  {
    EstimateLength(brief, [e]);
    assert [e][1..] == [];
    assert ReadText([e]) + OtherText([e]) == Length(e);
  }

  /** A stage that finds a single entry over budget handles it. */
  lemma {:induction false} SingleOutcome(stage: Stage, brief: string, e: Entry, k: nat, excerpt: string -> Option<Excerpt>, budget: int)
    requires k <= 1 && Estimate(brief, [e]) > budget
    ensures Outcome(stage, brief, [e], k, excerpt, budget) <==> k == 1
  {
    hide Estimate, Apply, Applies;
  }

  /** What the stages make of a single excerpt that never fits: its head, then its pointer. */
  function Pointed(brief: string, e: Entry, excerpt: string -> Option<Excerpt>, budget: int): Package
    requires e.tier.ReadExcerpt? && e.payload.Some?
  {
    var head := Apply(ToHead, e, excerpt);
    var gone := Apply(ToPointer, head, excerpt);
    var after := BriefWithPointers(brief, [e.path]);
    Package(after, [gone], [Note(ToHead, e, excerpt), Note(ToPointer, head, excerpt)], Estimate(after, [gone]) > budget)
  }

  lemma {:induction false} SingleRuns(brief: string, e: Entry, excerpt: string -> Option<Excerpt>, budget: int,
                                      r: Package, k1: nat, k2: nat, k3: nat)
    requires e.tier.ReadExcerpt? && e.payload.Some?
    requires Estimate(brief, [e]) > budget && Estimate(brief, [Apply(ToHead, e, excerpt)]) > budget
    ensures Staged(Package(brief, [e], [], false), r, k1, k2, k3, excerpt, budget) <==>
              k1 == k2 == k3 == 1 && r == Pointed(brief, e, excerpt, budget)
  {
    var head := Apply(ToHead, e, excerpt);
    assert Note(ToPointer, head, excerpt).path == e.path;
    assert !Applies(ToExcerpt, e) && Applies(ToHead, e) && Applies(ToPointer, head);
    Single(ToExcerpt, e, excerpt);
    Single(ToHead, e, excerpt);
    Single(ToPointer, head, excerpt);
    assert Map([Note(ToPointer, head, excerpt)], (t: Truncation) => t.path) == [e.path];
    hide Estimate, Apply, Applies, Note, Outcome, Prefix, Notes, BriefWithPointers, Map;
    if k1 <= 1 { SingleOutcome(ToExcerpt, brief, e, k1, excerpt, budget); }
    if k2 <= 1 { SingleOutcome(ToHead, brief, e, k2, excerpt, budget); }
    if k3 <= 1 { SingleOutcome(ToPointer, brief, head, k3, excerpt, budget); }
  }

  lemma {:induction false} GrowerSizes(excerpt: string -> Option<Excerpt>)
    ensures var e := Grower().entries[0];
            var r := Pointed("", e, excerpt, 1);
            1 < Estimate("", [e]) < Estimate(r.brief, r.entries) && Estimate("", [Apply(ToHead, e, excerpt)]) > 1
  {
    var e := Grower().entries[0];
    var head := Apply(ToHead, e, excerpt);
    var r := Pointed("", e, excerpt, 1);
    SingleEstimate("", e);
    SingleEstimate("", head);
    SingleEstimate(r.brief, r.entries[0]);
    assert Length(head) >= |"\n\U{2026} (budget truncated)\n"|;
    assert |r.brief| >= |"\n\n## Paths (budget)\n"|;
  }

  /** With the smallest budget that can be configured, every run over this package leaves a larger one, and there is one. */
  lemma {:induction false} BudgetingCanGrow(excerpt: string -> Option<Excerpt>)
    ensures exists r :: Budgeted(Grower(), r, excerpt, 1)
    ensures forall r :: Budgeted(Grower(), r, excerpt, 1) ==>
              Estimate(r.brief, r.entries) > Estimate(Grower().brief, Grower().entries)
  {
    var e := Grower().entries[0];
    var r := Pointed("", e, excerpt, 1);
    GrowerSizes(excerpt);
    GrowerIs();
    hide Staged, Estimate, Apply, Pointed, Grower;
    SingleRuns("", e, excerpt, 1, r, 1, 1, 1);
    assert Budgeted(Grower(), r, excerpt, 1);
    forall r' | Budgeted(Grower(), r', excerpt, 1)
      ensures Estimate(r'.brief, r'.entries) > Estimate(Grower().brief, Grower().entries)
    {
      var k1: nat, k2: nat, k3: nat :| Staged(Grower(), r', k1, k2, k3, excerpt, 1);
      SingleRuns("", e, excerpt, 1, r', k1, k2, k3);
    }
  }

  lemma {:induction false} GrowerIs()
    ensures var pkg := Grower();
            |pkg.entries| == 1 && pkg.entries[0].tier.ReadExcerpt? && pkg.entries[0].payload.Some?
            && pkg == Package("", [pkg.entries[0]], [], false)
  {}
}
