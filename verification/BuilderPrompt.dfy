/** The context-builder prompt and its token budget: core/context/builder_prompt.py. */
module BuilderPrompt {
  import opened Sequences
  import opened Sorting
  import opened Text

  /** A history row; `line` is its rendering, `id` is "" when absent. */
  datatype HistoryRow = HistoryRow(id: string, line: string)

  datatype Reasoning = Reasoning(id: string, summary: string)

  datatype RefKind = DelegationRef | WorkspaceFileRef | OtherRef

  /** A retrieved reference; `line` is its rendering. */
  datatype Ref = Ref(kind: RefKind, id: string, score: Option<real>, line: string)

  datatype History = History(sameSpec: seq<HistoryRow>, projectRecent: seq<HistoryRow>, priorReasoning: seq<Reasoning>)

  /** The sections that are never truncated; an absent section is "". */
  datatype Fixed = Fixed(mechanicalBrief: string, picker: string, suggested: string, transcript: string, planner: string)

  // ----- Rendering. -----

  predicate NotEmpty(s: string) { s != "" }

  function Paragraphs(parts: seq<string>): string {
    Join("\n\n", Filter(parts, NotEmpty))
  }

  function HistorySection(same: seq<HistoryRow>, project: seq<HistoryRow>): string {
    if same == [] && project == [] then ""
    else
      Join("\n", ["## Prior delegations"]
                 + (if same == [] then [] else ["Same spec (most recent first):"] + Map(same, (r: HistoryRow) => r.line))
                 + (if project == [] then [] else ["\nProject-wide (recent):"] + Map(project, (r: HistoryRow) => r.line)))
  }

  function ReasoningLine(r: Reasoning): string {
    "- **" + r.id[..Min(8, |r.id|)] + "\U{2026}**: " + r.summary
  }

  function ReasoningSection(entries: seq<Reasoning>): string {
    var told := Filter(entries, (r: Reasoning) => r.summary != "");
    if told == [] then "" else Join("\n", ["## Prior reasoning"] + Map(told, ReasoningLine))
  }

  function RefSection(title: string, refs: seq<Ref>): string {
    if refs == [] then "" else Join("\n", [title] + Map(refs, (r: Ref) => r.line))
  }

  function RagSections(delegation: seq<Ref>, files: seq<Ref>): string {
    Paragraphs([RefSection("## Relevant prior work", delegation), RefSection("## Related files (by summary)", files)])
  }

  function Brief(f: Fixed): string { "## Mechanical brief\n" + Strip(f.mechanicalBrief) }

  function FixedText(f: Fixed): string {
    Paragraphs([Brief(f), f.picker, f.suggested, f.transcript, f.planner])
  }

  function Assemble(f: Fixed, reasoning: seq<Reasoning>, same: seq<HistoryRow>, project: seq<HistoryRow>,
                    delegation: seq<Ref>, files: seq<Ref>): string {
    Paragraphs([Brief(f), f.picker, f.suggested, ReasoningSection(reasoning), HistorySection(same, project),
                RagSections(delegation, files), f.transcript, f.planner])
  }

  // ----- Deduplication. -----

  /** Delegation refs whose id is not in the recency history, in order. */
  function DedupeAgainstHistory(refs: seq<Ref>, h: History): seq<Ref> {
    var rows := h.sameSpec + h.projectRecent;
    Filter(refs, (r: Ref) => r.id == "" || forall k :: 0 <= k < |rows| ==> rows[k].id != r.id)
  }

  /** File refs whose path the picker has not ranked already, in order. */
  function DedupeAgainstPicker(refs: seq<Ref>, ranked: Option<seq<string>>): seq<Ref> {
    if ranked.None? then refs else Filter(refs, (r: Ref) => r.id !in ranked.value)
  }

  // ----- Truncation loops. -----

  predicate Fits(section: string, fixedTokens: nat, budget: int) {
    fixedTokens + EstimateTokens(section) <= budget
  }

  /** `kept` is the longest suffix that fits, or nothing. */
  ghost predicate ReasoningCut(entries: seq<Reasoning>, kept: seq<Reasoning>, fixedTokens: nat, budget: int) {
    exists k :: 0 <= k <= |entries| && kept == entries[k..]
      && (k < |entries| ==> Fits(ReasoningSection(kept), fixedTokens, budget))
      && forall j :: 0 <= j < k ==> !Fits(ReasoningSection(entries[j..]), fixedTokens, budget)
  }

  method TruncateReasoning(entries: seq<Reasoning>, fixedTokens: nat, budget: int) returns (kept: seq<Reasoning>)
    ensures ReasoningCut(entries, kept, fixedTokens, budget)
  {
    hide Fits, ReasoningSection;
    kept := entries;
    ghost var k := 0;
    while kept != []
      invariant 0 <= k <= |entries| && kept == entries[k..]
      invariant forall j :: 0 <= j < k ==> !Fits(ReasoningSection(entries[j..]), fixedTokens, budget)
      decreases |kept|
    {
      if Fits(ReasoningSection(kept), fixedTokens, budget) { break; }
      kept, k := kept[1..], k + 1;
    }
  }

  /** Project rows go first, from the end; same-spec rows only when no project row is left. */
  ghost predicate HistoryCut(same: seq<HistoryRow>, project: seq<HistoryRow>, a: nat, b: nat, fixedTokens: nat, budget: int) {
    && a <= |same| && b <= |project|
    && (a < |same| ==> b == 0)
    && (Fits(HistorySection(same[..a], project[..b]), fixedTokens, budget) || (a == 0 && b == 0))
    && (forall m :: b < m <= |project| ==> !Fits(HistorySection(same, project[..m]), fixedTokens, budget))
    && (forall m :: a < m <= |same| ==> !Fits(HistorySection(same[..m], []), fixedTokens, budget))
  }

  method TruncateHistory(same: seq<HistoryRow>, project: seq<HistoryRow>, fixedTokens: nat, budget: int)
    returns (keptSame: seq<HistoryRow>, keptProject: seq<HistoryRow>)
    ensures keptSame <= same && keptProject <= project
    ensures HistoryCut(same, project, |keptSame|, |keptProject|, fixedTokens, budget)
  {
    hide Fits, HistorySection;
    keptSame, keptProject := same, project;
    while !Fits(HistorySection(keptSame, keptProject), fixedTokens, budget) && keptProject != []
      invariant keptProject <= project && keptProject == project[..|keptProject|]
      invariant forall m :: |keptProject| < m <= |project| ==> !Fits(HistorySection(same, project[..m]), fixedTokens, budget)
      decreases |keptProject|
    {
      keptProject := keptProject[..|keptProject| - 1];
    }
    assert same[..|same|] == same;
    while !Fits(HistorySection(keptSame, keptProject), fixedTokens, budget) && keptSame != []
      invariant keptSame <= same && keptSame == same[..|keptSame|]
      invariant keptSame != same ==> keptProject == []
      invariant Fits(HistorySection(keptSame, keptProject), fixedTokens, budget) || keptProject == []
      invariant forall m :: |keptSame| < m <= |same| ==> !Fits(HistorySection(same[..m], []), fixedTokens, budget)
      decreases |keptSame|
    {
      keptSame := keptSame[..|keptSame| - 1];
    }
  }

  function Score(r: Ref): real { if r.score.Some? then r.score.value else 0.0 }

  /** `sorted(..., reverse=True)`: best first, ties in the given order. */
  predicate BetterOrEqual(a: Ref, b: Ref) { Score(a) >= Score(b) }

  /** Worst file goes first; delegation refs only when no file is left. */
  ghost predicate RagCut(d: seq<Ref>, f: seq<Ref>, a: nat, b: nat, fixedTokens: nat, budget: int) {
    && a <= |d| && b <= |f|
    && (a < |d| ==> b == 0)
    && (Fits(RagSections(d[..a], f[..b]), fixedTokens, budget) || (a == 0 && b == 0))
    && (forall m :: b < m <= |f| ==> !Fits(RagSections(d, f[..m]), fixedTokens, budget))
    && (forall m :: a < m <= |d| ==> !Fits(RagSections(d[..m], []), fixedTokens, budget))
  }

  method TruncateRag(delegation: seq<Ref>, files: seq<Ref>, fixedTokens: nat, budget: int)
    returns (dRefs: seq<Ref>, fRefs: seq<Ref>)
    ensures var d, f := StableSort(delegation, BetterOrEqual), StableSort(files, BetterOrEqual);
            dRefs <= d && fRefs <= f && RagCut(d, f, |dRefs|, |fRefs|, fixedTokens, budget)
  {
    hide StableSort;
    dRefs, fRefs := DropRefs(StableSort(delegation, BetterOrEqual), StableSort(files, BetterOrEqual), fixedTokens, budget);
  }

  /** The loop of `_truncate_rag_to_budget`, on sorted lists. */
  method DropRefs(d: seq<Ref>, f: seq<Ref>, fixedTokens: nat, budget: int) returns (dRefs: seq<Ref>, fRefs: seq<Ref>)
    ensures dRefs <= d && fRefs <= f && RagCut(d, f, |dRefs|, |fRefs|, fixedTokens, budget)
  {
    hide Fits, RagSections;
    dRefs, fRefs := d, f;
    ghost var a: nat, b: nat := |d|, |f|;
    while dRefs != [] || fRefs != []
      invariant a <= |d| && b <= |f| && dRefs == d[..a] && fRefs == f[..b]
      invariant a < |d| ==> b == 0
      invariant forall m :: b < m <= |f| ==> !Fits(RagSections(d, f[..m]), fixedTokens, budget)
      invariant forall m :: a < m <= |d| ==> !Fits(RagSections(d[..m], []), fixedTokens, budget)
      decreases a + b
    {
      if Fits(RagSections(dRefs, fRefs), fixedTokens, budget) { break; }
      assert a == |d| ==> dRefs == d;
      assert b == 0 ==> fRefs == [];
      if fRefs != [] {
        fRefs, b := fRefs[..|fRefs| - 1], b - 1;
      } else {
        dRefs, a := dRefs[..|dRefs| - 1], a - 1;
      }
    }
  }

  // ----- The prompt. -----

  function DelegationRefs(refs: seq<Ref>, h: History): seq<Ref> {
    DedupeAgainstHistory(Filter(refs, (r: Ref) => r.kind.DelegationRef?), h)
  }

  function FileRefs(refs: seq<Ref>, ranked: Option<seq<string>>): seq<Ref> {
    DedupeAgainstPicker(Filter(refs, (r: Ref) => r.kind.WorkspaceFileRef?), ranked)
  }

  function WithReasoning(fixedText: string, reasoning: seq<Reasoning>): string {
    var text := ReasoningSection(reasoning);
    fixedText + (if text == "" then "" else "\n\n" + text)
  }

  ghost predicate ReasoningPart(fixedText: string, given: seq<Reasoning>, budget: Option<int>, kept: seq<Reasoning>) {
    if budget.None? || given == [] then kept == given
    else ReasoningCut(given, kept, EstimateTokens(fixedText), budget.value)
  }

  ghost predicate HistoryPart(text: string, h: History, budget: Option<int>, same: seq<HistoryRow>, project: seq<HistoryRow>) {
    if budget.None? || (h.sameSpec == [] && h.projectRecent == []) then same == h.sameSpec && project == h.projectRecent
    else
      && same <= h.sameSpec && project <= h.projectRecent
      && HistoryCut(h.sameSpec, h.projectRecent, |same|, |project|, EstimateTokens(text), budget.value)
  }

  ghost predicate RagPart(tokens: nat, delegation: seq<Ref>, files: seq<Ref>, budget: Option<int>, dRefs: seq<Ref>, fRefs: seq<Ref>) {
    if budget.None? || (delegation == [] && files == []) then dRefs == delegation && fRefs == files
    else
      var d, f := StableSort(delegation, BetterOrEqual), StableSort(files, BetterOrEqual);
      dRefs <= d && fRefs <= f && RagCut(d, f, |dRefs|, |fRefs|, tokens, budget.value)
  }

  /** Tokens of what is in before references are added. */
  function TokensSoFar(fixedText: string, reasoning: seq<Reasoning>, same: seq<HistoryRow>, project: seq<HistoryRow>): nat {
    EstimateTokens(fixedText) + EstimateTokens(HistorySection(same, project)) + EstimateTokens(ReasoningSection(reasoning))
  }

  /** The three truncations, each against what is already in. */
  ghost predicate Cut(f: Fixed, h: History, ranked: Option<seq<string>>, refs: seq<Ref>, budget: Option<int>,
                      reasoning: seq<Reasoning>, same: seq<HistoryRow>, project: seq<HistoryRow>, dRefs: seq<Ref>, fRefs: seq<Ref>) {
    var fixedText := FixedText(f);
    && ReasoningPart(fixedText, h.priorReasoning, budget, reasoning)
    && HistoryPart(WithReasoning(fixedText, reasoning), h, budget, same, project)
    && RagPart(TokensSoFar(fixedText, reasoning, same, project), DelegationRefs(refs, h), FileRefs(refs, ranked), budget, dRefs, fRefs)
  }

  method KeepReasoning(fixedText: string, given: seq<Reasoning>, budget: Option<int>) returns (kept: seq<Reasoning>)
    ensures ReasoningPart(fixedText, given, budget, kept)
  {
    hide ReasoningCut;
    kept := given;
    if budget.Some? && kept != [] {
      kept := TruncateReasoning(kept, EstimateTokens(fixedText), budget.value);
    }
  }

  method KeepHistory(text: string, h: History, budget: Option<int>) returns (same: seq<HistoryRow>, project: seq<HistoryRow>)
    ensures HistoryPart(text, h, budget, same, project)
  {
    hide HistoryCut;
    same, project := h.sameSpec, h.projectRecent;
    if budget.Some? && !(same == [] && project == []) {
      same, project := TruncateHistory(same, project, EstimateTokens(text), budget.value);
    }
  }

  method KeepRefs(tokens: nat, delegation: seq<Ref>, files: seq<Ref>, budget: Option<int>) returns (dRefs: seq<Ref>, fRefs: seq<Ref>)
    ensures RagPart(tokens, delegation, files, budget, dRefs, fRefs)
  {
    hide RagCut, StableSort;
    dRefs, fRefs := delegation, files;
    if budget.Some? && (delegation != [] || files != []) {
      dRefs, fRefs := TruncateRag(delegation, files, tokens, budget.value);
    }
  }

  /** `build_builder_llm_prompt`; the kept pieces are handed out beside the prompt. */
  method BuildPrompt(f: Fixed, history: History, ranked: Option<seq<string>>, refs: seq<Ref>, budget: Option<int>)
    returns (prompt: string, reasoning: seq<Reasoning>, same: seq<HistoryRow>, project: seq<HistoryRow>,
             dRefs: seq<Ref>, fRefs: seq<Ref>)
    ensures prompt == Assemble(f, reasoning, same, project, dRefs, fRefs)
    ensures Cut(f, history, ranked, refs, budget, reasoning, same, project, dRefs, fRefs)
    ensures budget.Some? && EstimateTokens(FixedText(f)) <= budget.value ==> EstimateTokens(prompt) <= budget.value + 4
    ensures budget.Some? && EstimateTokens(FixedText(f)) > budget.value ==> prompt == FixedText(f)
  {
    hide ReasoningPart, HistoryPart, RagPart, Assemble, FixedText, EstimateTokens, WithReasoning, TokensSoFar;
    hide DelegationRefs, FileRefs;
    var delegation, files := DelegationRefs(refs, history), FileRefs(refs, ranked);
    var fixedText := FixedText(f);
    reasoning := KeepReasoning(fixedText, history.priorReasoning, budget);
    same, project := KeepHistory(WithReasoning(fixedText, reasoning), history, budget);
    dRefs, fRefs := KeepRefs(TokensSoFar(fixedText, reasoning, same, project), delegation, files, budget);
    prompt := Assemble(f, reasoning, same, project, dRefs, fRefs);
    if budget.Some? {
      if EstimateTokens(fixedText) <= budget.value {
        WithinBudgetPlusFour(f, history, ranked, refs, budget.value, reasoning, same, project, dRefs, fRefs);
      } else {
        OnlyFixedSections(f, history, ranked, refs, budget.value, reasoning, same, project, dRefs, fRefs);
      }
    }
  }

  // ----- Which references are kept. -----

  /** The kept ones are a best part of the given ones, best first, and equal ones in the given order. */
  ghost predicate BestKept(given: seq<Ref>, kept: seq<Ref>) {
    && multiset(kept) <= multiset(given)
    && (forall i, j :: 0 <= i < j < |kept| ==> Score(kept[i]) >= Score(kept[j]))
    && (forall x, y :: x in kept && y in multiset(given) - multiset(kept) ==> Score(x) >= Score(y))
    && (forall v: real :: Scored(kept, v) <= Scored(given, v))
  }

  function Scored(refs: seq<Ref>, v: real): seq<Ref> { Filter(refs, (r: Ref) => Score(r) == v) }

  lemma {:induction false} BetterTotal()
    ensures TotalPreorder(BetterOrEqual)
  {}

  /** What survives of a prefix is a prefix of what survives. */
  lemma {:induction false} ScoredPrefix(kept: seq<Ref>, all: seq<Ref>, v: real)
    requires kept <= all
    ensures Scored(kept, v) <= Scored(all, v)
  {
    var p := (r: Ref) => Score(r) == v;
    assert all == kept + all[|kept|..];
    FilterAppend(kept, all[|kept|..], p);
  }

  lemma {:induction false} PrefixSorted(all: seq<Ref>, kept: seq<Ref>)
    requires kept <= all && SortedBy(all, BetterOrEqual)
    ensures forall i, j :: 0 <= i < j < |kept| ==> Score(kept[i]) >= Score(kept[j])
  {
    forall i, j | 0 <= i < j < |kept| ensures Score(kept[i]) >= Score(kept[j]) {
      assert BetterOrEqual(all[i], all[j]);
    }
  }

  lemma {:induction false} PrefixIsBest(given: seq<Ref>, kept: seq<Ref>)
    requires kept <= StableSort(given, BetterOrEqual)
    ensures BestKept(given, kept)
  {
    var all := StableSort(given, BetterOrEqual);
    BetterTotal();
    SortSorts(given, BetterOrEqual);
    TiesKept(given, kept);
    hide StableSort, Scored, SortedBy, BetterOrEqual;
    PrefixSorted(all, kept);
    Dropped(given, all, kept);
    forall x, y | x in kept && y in multiset(given) - multiset(kept) ensures Score(x) >= Score(y) {
      Ordered(all, kept, all[|kept|..], x, y);
    }
  }

  lemma {:induction false} Dropped(given: seq<Ref>, all: seq<Ref>, kept: seq<Ref>)
    requires multiset(all) == multiset(given) && kept <= all
    ensures all == kept + all[|kept|..] && multiset(kept) <= multiset(given)
    ensures forall y :: y in multiset(given) - multiset(kept) ==> y in all[|kept|..]
  {
    assert all == kept + all[|kept|..];
    assert multiset(given) == multiset(kept) + multiset(all[|kept|..]);
  }

  lemma {:induction false} TiesKept(given: seq<Ref>, kept: seq<Ref>)
    requires kept <= StableSort(given, BetterOrEqual)
    ensures forall v: real :: Scored(kept, v) <= Scored(given, v)
  {
    forall v: real ensures Scored(kept, v) <= Scored(given, v) {
      ScoredPrefix(kept, StableSort(given, BetterOrEqual), v);
      SortStable(given, BetterOrEqual, (r: Ref) => Score(r) == v);
    }
  }

  lemma {:induction false} Ordered(all: seq<Ref>, kept: seq<Ref>, dropped: seq<Ref>, x: Ref, y: Ref)
    requires all == kept + dropped && SortedBy(all, BetterOrEqual) && x in kept && y in dropped
    ensures Score(x) >= Score(y)
  {
    var i :| 0 <= i < |kept| && kept[i] == x;
    var j :| 0 <= j < |dropped| && dropped[j] == y;
    assert all[i] == x && all[|kept| + j] == y;
    assert BetterOrEqual(all[i], all[|kept| + j]);
  }

  /** An absent score counts as zero. */
  lemma {:induction false} ScoreMeans(r: Ref)
    ensures r.score.None? ==> Score(r) == 0.0
    ensures r.score.Some? ==> Score(r) == r.score.value
  {}

  /**
   * Under a budget no dropped reference of a list outscores a kept one, the kept ones come best first, ties in the given
   * order; a delegation reference is dropped only when no file reference is left.
   */
  lemma {:induction false} BestRefsKept(tokens: nat, delegation: seq<Ref>, files: seq<Ref>, budget: int, dRefs: seq<Ref>, fRefs: seq<Ref>)
    requires RagPart(tokens, delegation, files, Some(budget), dRefs, fRefs)
    ensures BestKept(delegation, dRefs) && BestKept(files, fRefs)
    ensures |dRefs| < |delegation| ==> fRefs == []
  {
    BetterTotal();
    SortSorts(delegation, BetterOrEqual);
    SortSorts(files, BetterOrEqual);
    hide StableSort;
    if delegation == [] && files == [] { assert StableSort(delegation, BetterOrEqual) == [] == StableSort(files, BetterOrEqual); }
    PrefixIsBest(delegation, dRefs);
    PrefixIsBest(files, fRefs);
  }

  /**
   * The references offered: those to delegations that the history does not show already, and those to files that the
   * picker has not ranked, each in the given order.
   */
  lemma {:induction false} RefsOffered(refs: seq<Ref>, h: History, ranked: Option<seq<string>>)
    ensures forall r :: r in DelegationRefs(refs, h) <==>
              && r in refs && r.kind == DelegationRef
              && (r.id == "" || forall row :: row in h.sameSpec || row in h.projectRecent ==> row.id != r.id)
    ensures forall r :: r in FileRefs(refs, ranked) <==>
              r in refs && r.kind == WorkspaceFileRef && (ranked.Some? ==> r.id !in ranked.value)
  {
    var rows := h.sameSpec + h.projectRecent;
    forall r: Ref
      ensures (forall k :: 0 <= k < |rows| ==> rows[k].id != r.id)
         <==> forall row :: row in h.sameSpec || row in h.projectRecent ==> row.id != r.id
    {
      assert forall row :: row in rows <==> row in h.sameSpec || row in h.projectRecent;
      assert forall k :: 0 <= k < |rows| ==> rows[k] in rows;
    }
  }

  // ----- What the prompt says. -----

  /** A part further down, after a blank line. */
  function Below(part: string): string { if part == "" then "" else "\n\n" + part }

  function Parts(parts: seq<string>): string {
    if parts == [] then "" else Below(parts[0]) + Parts(parts[1..])
  }

  function Lines(lines: seq<string>): string {
    if lines == [] then "" else "\n" + lines[0] + Lines(lines[1..])
  }

  function Section(heading: string, lines: seq<string>): string {
    if lines == [] then "" else "\n\n" + heading + Lines(lines)
  }

  lemma {:induction false} JoinLines(head: string, lines: seq<string>)
    ensures Join("\n", [head] + lines) == head + Lines(lines)
    decreases lines
  {
    assert ([head] + lines)[1..] == lines;
    if lines != [] {
      assert [lines[0]] + lines[1..] == lines;
      JoinLines(lines[0], lines[1..]);
    }
  }

  lemma {:induction false} JoinParts(head: string, parts: seq<string>)
    ensures Join("\n\n", [head] + Filter(parts, NotEmpty)) == head + Parts(parts)
    decreases parts
  {
    if parts == [] {
      assert [head] + [] == [head];
    } else if parts[0] == "" {
      hide *;
      JoinParts(head, parts[1..]);
      BlankFirst(parts);
    } else {
      hide *;
      JoinParts(parts[0], parts[1..]);
      FilterFirst(parts);
      PartsFirst(parts);
      JoinNext(head, [parts[0]] + Filter(parts[1..], NotEmpty));
      Regroup(head, parts[0], Parts(parts[1..]));
    }
  }

  lemma {:induction false} JoinNext(head: string, rest: seq<string>)
    requires rest != []
    ensures Join("\n\n", [head] + rest) == head + "\n\n" + Join("\n\n", rest)
  {
    assert ([head] + rest)[1..] == rest;
  }

  lemma {:induction false} Regroup(head: string, part: string, rest: string)
    ensures head + "\n\n" + (part + rest) == head + ("\n\n" + part + rest)
  {}

  lemma {:induction false} BlankFirst(parts: seq<string>)
    requires parts != [] && parts[0] == ""
    ensures Filter(parts, NotEmpty) == Filter(parts[1..], NotEmpty) && Parts(parts) == Parts(parts[1..])
  {}

  lemma {:induction false} FilterFirst(parts: seq<string>)
    requires parts != [] && parts[0] != ""
    ensures Filter(parts, NotEmpty) == [parts[0]] + Filter(parts[1..], NotEmpty)
  {}

  lemma {:induction false} PartsFirst(parts: seq<string>)
    requires parts != [] && parts[0] != ""
    ensures Parts(parts) == "\n\n" + parts[0] + Parts(parts[1..])
  {}

  lemma {:induction false} ParagraphsText(head: string, parts: seq<string>)
    requires head != ""
    ensures Paragraphs([head] + parts) == head + Parts(parts)
  {
    assert ([head] + parts)[1..] == parts;
    JoinParts(head, parts);
  }

  lemma {:induction false} RefsText(d: seq<Ref>, fs: seq<Ref>)
    ensures Below(RagSections(d, fs))
         == Section("## Relevant prior work", Map(d, (r: Ref) => r.line))
            + Section("## Related files (by summary)", Map(fs, (r: Ref) => r.line))
  {
    RefSectionText("## Relevant prior work", d);
    RefSectionText("## Related files (by summary)", fs);
    hide *;
    var x, y := RefSection("## Relevant prior work", d), RefSection("## Related files (by summary)", fs);
    TwoParagraphs(x, y);
    RagIs(d, fs);
  }

  lemma {:induction false} RagIs(d: seq<Ref>, fs: seq<Ref>)
    ensures RagSections(d, fs)
         == Paragraphs([RefSection("## Relevant prior work", d), RefSection("## Related files (by summary)", fs)])
  {}

  lemma {:induction false} RefSectionText(title: string, refs: seq<Ref>)
    requires title != ""
    ensures Below(RefSection(title, refs)) == Section(title, Map(refs, (r: Ref) => r.line))
  {
    JoinLines(title, Map(refs, (r: Ref) => r.line));
  }

  lemma {:induction false} TwoParagraphs(x: string, y: string)
    ensures Below(Paragraphs([x, y])) == Below(x) + Below(y)
  {
    assert [x] + [y] == [x, y];
    OnePart(y);
    hide Parts, Join, Filter;
    if x != "" {
      hide Paragraphs;
      ParagraphsText(x, [y]);
      assert "\n\n" + (x + Below(y)) == "\n\n" + x + Below(y);
    } else {
      BlankFirst([x, y]);
      assert [x, y][1..] == [y];
      assert "" + Below(y) == Below(y);
    }
  }

  lemma {:induction false} OnePart(a: string)
    ensures Parts([a]) == Below(a) && Paragraphs([a]) == a
  {
    assert [a][1..] == [] && Parts([a]) == Below(a) + "";
    assert Filter([a], NotEmpty) == if a == "" then [] else [a];
  }

  function Rows(heading: string, rows: seq<HistoryRow>): string {
    if rows == [] then "" else "\n" + heading + Lines(Map(rows, (r: HistoryRow) => r.line))
  }

  lemma {:induction false} HistoryText(same: seq<HistoryRow>, project: seq<HistoryRow>)
    requires same != [] || project != []
    ensures HistorySection(same, project)
         == "## Prior delegations" + (Rows("Same spec (most recent first):", same) + Rows("\nProject-wide (recent):", project))
  {
    var a := if same == [] then [] else ["Same spec (most recent first):"] + Map(same, (r: HistoryRow) => r.line);
    var b := if project == [] then [] else ["\nProject-wide (recent):"] + Map(project, (r: HistoryRow) => r.line);
    HeadedLines("Same spec (most recent first):", Map(same, (r: HistoryRow) => r.line));
    HeadedLines("\nProject-wide (recent):", Map(project, (r: HistoryRow) => r.line));
    assert ["## Prior delegations"] + a + b == ["## Prior delegations"] + (a + b);
    JoinLines("## Prior delegations", a + b);
    hide Lines, Join;
    LinesAppend(a, b);
  }

  lemma {:induction false} HeadedLines(heading: string, lines: seq<string>)
    ensures Lines([heading] + lines) == "\n" + heading + Lines(lines) && Lines([]) == ""
  {
    assert ([heading] + lines)[1..] == lines;
  }

  lemma {:induction false} LinesAppend(xs: seq<string>, ys: seq<string>)
    ensures Lines(xs + ys) == Lines(xs) + Lines(ys)
  {
    if xs == [] {
      assert xs + ys == ys;
    } else {
      assert (xs + ys)[1..] == xs[1..] + ys;
      LinesAppend(xs[1..], ys);
    }
  }

  lemma {:induction false} ReasoningText(entries: seq<Reasoning>)
    ensures Below(ReasoningSection(entries))
         == Section("## Prior reasoning", Map(Filter(entries, (r: Reasoning) => r.summary != ""), ReasoningLine))
    ensures forall r: Reasoning ::
              ReasoningLine(r) == "- **" + (if |r.id| <= 8 then r.id else r.id[..8]) + "\U{2026}**: " + r.summary
  {
    assert forall r: Reasoning :: r.id[..|r.id|] == r.id;
    JoinLines("## Prior reasoning", Map(Filter(entries, (r: Reasoning) => r.summary != ""), ReasoningLine));
  }

  /** The whole text, section by section in order, each present exactly if it has something to say. */
  lemma {:induction false} PromptText(f: Fixed, reasoning: seq<Reasoning>, same: seq<HistoryRow>, project: seq<HistoryRow>,
                                      dRefs: seq<Ref>, fRefs: seq<Ref>)
    ensures Assemble(f, reasoning, same, project, dRefs, fRefs)
         == "## Mechanical brief\n" + Strip(f.mechanicalBrief)
            + Parts([f.picker, f.suggested, ReasoningSection(reasoning), HistorySection(same, project), RagSections(dRefs, fRefs),
                     f.transcript, f.planner])
  {
    var r, h, g := ReasoningSection(reasoning), HistorySection(same, project), RagSections(dRefs, fRefs);
    hide ReasoningSection, HistorySection, RagSections, Strip, Paragraphs, Parts;
    var parts := [f.picker, f.suggested, r, h, g, f.transcript, f.planner];
    assert [Brief(f), f.picker, f.suggested, r, h, g, f.transcript, f.planner] == [Brief(f)] + parts;
    ParagraphsText(Brief(f), parts);
  }

  // ----- How long the prompt can get. -----

  /** Characters of the non-empty parts, with two for each separator. */
  function Weight(parts: seq<string>): nat {
    if parts == [] then 0 else (if parts[0] == "" then 0 else |parts[0]| + 2) + Weight(parts[1..])
  }

  lemma {:induction false} JoinLength(parts: seq<string>)
    requires forall i :: 0 <= i < |parts| ==> parts[i] != ""
    ensures |Join("\n\n", parts)| == if parts == [] then 0 else Weight(parts) - 2
  {
    if |parts| > 1 {
      JoinLength(parts[1..]);
    } else if |parts| == 1 {
      assert Weight(parts[1..]) == 0;
    }
  }

  lemma {:induction false} WeightFilter(parts: seq<string>)
    ensures Weight(Filter(parts, NotEmpty)) == Weight(parts)
  {
    if parts != [] {
      WeightFilter(parts[1..]);
      var rest := Filter(parts[1..], NotEmpty);
      assert parts[0] != "" ==> ([parts[0]] + rest)[1..] == rest;
    }
  }

  lemma {:induction false} ParagraphsLength(parts: seq<string>)
    ensures |Paragraphs(parts)| == if Weight(parts) == 0 then 0 else Weight(parts) - 2
  {
    var kept := Filter(parts, NotEmpty);
    WeightFilter(parts);
    assert forall i :: 0 <= i < |kept| ==> kept[i] in kept;
    JoinLength(kept);
  }

  function Extra(s: string): nat { if s == "" then 0 else |s| + 2 }

  lemma {:induction false} Weight5(a: string, b: string, c: string, d: string, e: string)
    ensures Weight([a, b, c, d, e]) == Extra(a) + Extra(b) + Extra(c) + Extra(d) + Extra(e)
  {
    assert [a, b, c, d, e][1..] == [b, c, d, e] && [b, c, d, e][1..] == [c, d, e];
    assert [c, d, e][1..] == [d, e] && [d, e][1..] == [e] && [e][1..] == [];
    assert Weight([c, d, e]) == Extra(c) + Weight([d, e]) && Weight([d, e]) == Extra(d) + Weight([e]);
    assert Weight([b, c, d, e]) == Extra(b) + Weight([c, d, e]);
  }

  lemma {:induction false} Weight8(a: string, b: string, c: string, d: string, e: string, f: string, g: string, h: string)
    ensures Weight([a, b, c, d, e, f, g, h]) == Extra(a) + Extra(b) + Extra(c) + Weight([d, e, f, g, h])
  {
    assert [a, b, c, d, e, f, g, h][1..] == [b, c, d, e, f, g, h];
    assert [b, c, d, e, f, g, h][1..] == [c, d, e, f, g, h] && [c, d, e, f, g, h][1..] == [d, e, f, g, h];
    assert Weight([b, c, d, e, f, g, h]) == Extra(b) + Weight([c, d, e, f, g, h]);
    assert Weight([c, d, e, f, g, h]) == Extra(c) + Weight([d, e, f, g, h]);
  }

  /** The optional sections add their own length and one separator each. */
  lemma {:induction false} AssembleLength(f: Fixed, reasoning: seq<Reasoning>, same: seq<HistoryRow>, project: seq<HistoryRow>,
                                          dRefs: seq<Ref>, fRefs: seq<Ref>)
    ensures |Assemble(f, reasoning, same, project, dRefs, fRefs)|
         == |FixedText(f)| + Extra(ReasoningSection(reasoning)) + Extra(HistorySection(same, project)) + Extra(RagSections(dRefs, fRefs))
    ensures FixedText(f) != ""
  {
    var r, h, g := ReasoningSection(reasoning), HistorySection(same, project), RagSections(dRefs, fRefs);
    ParagraphsLength([Brief(f), f.picker, f.suggested, r, h, g, f.transcript, f.planner]);
    ParagraphsLength([Brief(f), f.picker, f.suggested, f.transcript, f.planner]);
    Weight8(Brief(f), f.picker, f.suggested, r, h, g, f.transcript, f.planner);
    Weight5(r, h, g, f.transcript, f.planner);
    Weight5(Brief(f), f.picker, f.suggested, f.transcript, f.planner);
  }

  lemma {:induction false} TokenSlack(s: string)
    ensures s != "" ==> 4 * EstimateTokens(s) <= |s| + 3 && |s| <= 4 * EstimateTokens(s) + 3
    ensures s == "" <==> EstimateTokens(s) == 0
  {}

  /** Either a section fits beside what is in, or it was emptied. */
  lemma {:induction false} SectionsFit(f: Fixed, h: History, ranked: Option<seq<string>>, refs: seq<Ref>, budget: int,
                                       reasoning: seq<Reasoning>, same: seq<HistoryRow>, project: seq<HistoryRow>,
                                       dRefs: seq<Ref>, fRefs: seq<Ref>)
    requires Cut(f, h, ranked, refs, Some(budget), reasoning, same, project, dRefs, fRefs)
    ensures var t := EstimateTokens(FixedText(f));
            && (ReasoningSection(reasoning) == "" || t + EstimateTokens(ReasoningSection(reasoning)) <= budget)
            && (HistorySection(same, project) == ""
                || EstimateTokens(WithReasoning(FixedText(f), reasoning)) + EstimateTokens(HistorySection(same, project)) <= budget)
            && (RagSections(dRefs, fRefs) == ""
                || TokensSoFar(FixedText(f), reasoning, same, project) + EstimateTokens(RagSections(dRefs, fRefs)) <= budget)
  {
    hide EstimateTokens, FixedText, WithReasoning, TokensSoFar, DelegationRefs, FileRefs, StableSort;
    EmptySections();
    if h.sameSpec != [] || h.projectRecent != [] {
      assert h.sameSpec[..|same|] == same && h.projectRecent[..|project|] == project;
    }
    var d, fs := StableSort(DelegationRefs(refs, h), BetterOrEqual), StableSort(FileRefs(refs, ranked), BetterOrEqual);
    if !(DelegationRefs(refs, h) == [] && FileRefs(refs, ranked) == []) {
      assert d[..|dRefs|] == dRefs && fs[..|fRefs|] == fRefs;
    }
  }

  lemma {:induction false} EmptySections()
    ensures ReasoningSection([]) == "" && HistorySection([], []) == "" && RagSections([], []) == ""
  {
    var none: seq<Ref> := [];
    assert Filter(["", ""], NotEmpty) == Filter([""], NotEmpty) == [] by {
      assert ["", ""][1..] == [""];
    }
  }

  /**
   * The flooring in each section's estimate and the separators cost at most four tokens in all:
   * if the fixed sections fit, the prompt is within budget + 4.
   */
  lemma {:induction false} WithinBudgetPlusFour(f: Fixed, h: History, ranked: Option<seq<string>>, refs: seq<Ref>, budget: int,
                                                reasoning: seq<Reasoning>, same: seq<HistoryRow>, project: seq<HistoryRow>,
                                                dRefs: seq<Ref>, fRefs: seq<Ref>)
    requires Cut(f, h, ranked, refs, Some(budget), reasoning, same, project, dRefs, fRefs)
    requires EstimateTokens(FixedText(f)) <= budget
    ensures EstimateTokens(Assemble(f, reasoning, same, project, dRefs, fRefs)) <= budget + 4
  {
    var r, hs, g := ReasoningSection(reasoning), HistorySection(same, project), RagSections(dRefs, fRefs);
    SectionsFit(f, h, ranked, refs, budget, reasoning, same, project, dRefs, fRefs);
    AssembleLength(f, reasoning, same, project, dRefs, fRefs);
    hide ReasoningSection, HistorySection, RagSections, FixedText, Assemble, EstimateTokens, Cut;
    var x := FixedText(f);
    TokenSlack(x);
    TokenSlack(r);
    TokenSlack(hs);
    TokenSlack(g);
    TokenSlack(WithReasoning(x, reasoning));
    TokenSlack(Assemble(f, reasoning, same, project, dRefs, fRefs));
    assert |WithReasoning(x, reasoning)| == |x| + Extra(r);
  }

  /** If the fixed sections alone are over budget, nothing else gets in. */
  lemma {:induction false} OnlyFixedSections(f: Fixed, h: History, ranked: Option<seq<string>>, refs: seq<Ref>, budget: int,
                                             reasoning: seq<Reasoning>, same: seq<HistoryRow>, project: seq<HistoryRow>,
                                             dRefs: seq<Ref>, fRefs: seq<Ref>)
    requires Cut(f, h, ranked, refs, Some(budget), reasoning, same, project, dRefs, fRefs)
    requires EstimateTokens(FixedText(f)) > budget
    ensures Assemble(f, reasoning, same, project, dRefs, fRefs) == FixedText(f)
  {
    hide ReasoningSection, HistorySection, RagSections, FixedText, EstimateTokens, Cut, Paragraphs;
    var r, hs, g := ReasoningSection(reasoning), HistorySection(same, project), RagSections(dRefs, fRefs);
    SectionsFit(f, h, ranked, refs, budget, reasoning, same, project, dRefs, fRefs);
    assert r == "";
    assert WithReasoning(FixedText(f), reasoning) == FixedText(f) + "" == FixedText(f);
    assert hs == "" && g == "";
    FixedIs(f);
    DropEmpty(Brief(f), f.picker, f.suggested, f.transcript, f.planner);
  }

  lemma {:induction false} FixedIs(f: Fixed)
    ensures FixedText(f) == Paragraphs([Brief(f), f.picker, f.suggested, f.transcript, f.planner])
  {}

  lemma {:induction false} DropEmpty(a: string, b: string, c: string, d: string, e: string)
    ensures Paragraphs([a, b, c, "", "", "", d, e]) == Paragraphs([a, b, c, d, e])
  {
    var head, none, tail := [a, b, c], ["", "", ""], [d, e];
    assert [a, b, c, "", "", "", d, e] == head + (none + tail) && [a, b, c, d, e] == head + tail;
    FilterAppend(head, none + tail, NotEmpty);
    FilterAppend(none, tail, NotEmpty);
    FilterAppend(head, tail, NotEmpty);
    FilterBlanks();
    assert [] + Filter(tail, NotEmpty) == Filter(tail, NotEmpty);
    assert Filter(head + (none + tail), NotEmpty) == Filter(head + tail, NotEmpty);
  }

  lemma {:induction false} FilterBlanks()
    ensures Filter(["", "", ""], NotEmpty) == []
  {
    assert ["", "", ""][1..] == ["", ""] && ["", ""][1..] == [""] && [""][1..] == [];
    assert Filter([""], NotEmpty) == [] && Filter(["", ""], NotEmpty) == [];
  }

  // ----- The slack of four tokens is reached. -----

  lemma {:induction false} TwoLines(a: string, b: string)
    ensures Join("\n", [a] + [b]) == a + "\n" + b
  {
    assert ([a] + [b])[1..] == [b];
  }

  lemma {:induction false} WitnessReasoning()
    ensures |ReasoningSection([Reasoning("", "xyz")])| == 31
  {
    var r := Reasoning("", "xyz");
    assert Filter([r], (r: Reasoning) => r.summary != "") == [r];
    assert Map([r], ReasoningLine) == [ReasoningLine(r)] && |ReasoningLine(r)| == 12;
    TwoLines("## Prior reasoning", ReasoningLine(r));
  }

  lemma {:induction false} WitnessLengths()
    ensures |FixedText(Fixed("abc", "", "", "", ""))| == 23
    ensures |ReasoningSection([Reasoning("", "xyz")])| == 31
    ensures |HistorySection([HistoryRow("", "row")], [])| == 55
    ensures |RagSections([Ref(DelegationRef, "a", None, "line")], [])| == 27
  {
    var f := Fixed("abc", "", "", "", "");
    TrimmedStrip("abc");
    ParagraphsLength([Brief(f), "", "", "", ""]);
    Weight5(Brief(f), "", "", "", "");
    WitnessReasoning();
    var h := HistoryRow("", "row");
    assert Map([h], (r: HistoryRow) => r.line) == ["row"];
    var parts := ["## Prior delegations"] + (["Same spec (most recent first):"] + ["row"]);
    assert parts[1..] == ["Same spec (most recent first):"] + ["row"];
    TwoLines("Same spec (most recent first):", "row");
    assert HistorySection([h], []) == Join("\n", parts) == "## Prior delegations" + "\n" + ("Same spec (most recent first):" + "\n" + "row") by {
      assert ["## Prior delegations"] + (["Same spec (most recent first):"] + ["row"]) + [] == parts;
    }
    var d := Ref(DelegationRef, "a", None, "line");
    assert Map([d], (r: Ref) => r.line) == ["line"];
    TwoLines("## Relevant prior work", "line");
    var rag := RefSection("## Relevant prior work", [d]);
    assert Weight([rag, ""]) == Extra(rag) by { assert [rag, ""][1..] == [""] && [""][1..] == []; }
    ParagraphsLength([rag, ""]);
  }

  /** A single item that fits is kept by each truncation. */
  lemma {:induction false} KeptWhole(reasoning: seq<Reasoning>, same: seq<HistoryRow>, refs: seq<Ref>, fixedText: string,
                                     text: string, tokens: nat, budget: int)
    requires |reasoning| == |same| == |refs| == 1
    requires Fits(ReasoningSection(reasoning), EstimateTokens(fixedText), budget)
    requires Fits(HistorySection(same, []), EstimateTokens(text), budget)
    requires Fits(RagSections(refs, []), tokens, budget)
    ensures ReasoningPart(fixedText, reasoning, Some(budget), reasoning)
    ensures HistoryPart(text, History(same, [], reasoning), Some(budget), same, [])
    ensures RagPart(tokens, refs, [], Some(budget), refs, [])
  {
    hide ReasoningSection, HistorySection, RagSections, Fits;
    assert reasoning[0..] == reasoning && same[..1] == same && refs[..1] == refs;
    var none: seq<HistoryRow> := [];
    assert none[..0] == none;
    assert StableSort(refs, BetterOrEqual) == refs by { assert refs[1..] == []; }
  }

  /** Four tokens over budget do happen: here nothing was cut, and every section was floored and separated. */
  lemma {:induction false} SlackIsReached()
    ensures var f := Fixed("abc", "", "", "", "");
            var reasoning, same := [Reasoning("", "xyz")], [HistoryRow("", "row")];
            var refs := [Ref(DelegationRef, "a", None, "line")];
            && Cut(f, History(same, [], reasoning), None, refs, Some(31), reasoning, same, [], refs, [])
            && EstimateTokens(FixedText(f)) <= 31
            && EstimateTokens(Assemble(f, reasoning, same, [], refs, [])) == 31 + 4
  {
    var f := Fixed("abc", "", "", "", "");
    var reasoning, same := [Reasoning("", "xyz")], [HistoryRow("", "row")];
    var refs := [Ref(DelegationRef, "a", None, "line")];
    WitnessLengths();
    AssembleLength(f, reasoning, same, [], refs, []);
    WitnessRefs();
    hide FixedText, ReasoningSection, HistorySection, RagSections, Assemble, StableSort, Filter;
    hide DelegationRefs, FileRefs, ReasoningPart, HistoryPart, RagPart;
    var x := FixedText(f);
    assert |WithReasoning(x, reasoning)| == 56;
    KeptWhole(reasoning, same, refs, x, WithReasoning(x, reasoning), TokensSoFar(x, reasoning, same, []), 31);
  }

  lemma {:induction false} WitnessRefs()
    ensures var refs := [Ref(DelegationRef, "a", None, "line")];
            && DelegationRefs(refs, History([HistoryRow("", "row")], [], [Reasoning("", "xyz")])) == refs
            && FileRefs(refs, None) == []
  {}
}
