# A verified model of the delegation server's core

The server compiles context for an executor, drives an executor through supervised turns and records what happened. This
project models the algorithmic and stateful cores of that work in Dafny and proves, for all inputs, runs and
interruption points, what the code promises about them. `dafny verify dfyconfig.toml` checks everything.

## What is modelled

| files | part of the system |
|---|---|
| Compare, ComparePairing | pairing of proxy and backend trace events: two phases over mutable index lists, rows, summary |
| Lifecycle, ExecutorTurns | one delegation from the definition of `_close_lifecycle_once` to the `finally` block, with the supervisor agent it drives, the retry loop and the executor's stall retry |
| Picker, ContextCompiler, Budget, Excerpts, BuilderPrompt | from the spec contract to the prompt and the package of the first turn |
| EditableFiles | the target files and what each step of each turn opens for editing |
| Plan, Answers, ClarityRounds | the plan section of a brief, the clarity resolver's reply, the cap on clarity rounds |
| ProgressBridge | the queue between a delegation and the host, as interleaved atomic steps |
| Gc | expiry of traces and of shared context-package blobs |
| ViewEvents | the timeline of the viewer |
| Sequences, Text, Paths, Package | shared data: sequences and stable sorting, the parts of Python's `str` in use, sorted path lists, the context package |

Code that updates state is a method or a class; its contract ties the result to a specification function or
predicate, and the lemmas are about that specification. A crash is a nondeterministic exit from the `try` block
that may occur between any two events. What comes from outside (model calls, the executor, files, clocks,
pattern matches) is an arbitrary input.

## What the proofs found

Each point is proved for all inputs with the exact condition under which it happens; most also have a concrete input.

- One step per turn and a stall retry every other turn would give T + ⌈T/2⌉ executor steps for T supervisor turns. The
  code can exceed this natural bound exactly when T is even and the first turn's stall retry raised: the exception skips
  the assignment of `stall_auto_retried` (server/mcp_server.py:3122-3133). One step more is the most that can happen.
- A delegation leaves two records exactly when it is interrupted after the normal record's line is in the log and before
  the next line notes it (server/mcp_server.py:4368-4369), and the append in the `finally` block succeeds.
- With a context package the first turn may edit exactly the spec's edit files. A rerun does not use the package again: it
  opens the target files (server/mcp_server.py:3684-3690), which the spec's read files and stall requests may have joined.
  So all turns open exactly the edit files, whatever the executor does, if and only if there is one turn at most, or the target files are the edit
  files and stall retries are off. With edit a.py, read b.py and target a.py every rerun may edit b.py.
- An agent whose interrupted resume left `loop` in progress spoils at most the next delegation: its trace is well
  bracketed if and only if it is not interrupted where preloop has just ended, before loop starts or, behind a gate that
  closed it, before the envelope ends.
- `_merge_ranges` starts from the first range as given but then walks the sorted list without its first element.
  It keeps the union exactly when the given list starts with a range of least start. Its only caller does that.
- A blob whose deletion failed is retried by a later run exactly when the trace deletions of all delegations
  referring to it failed too. Once a referring delegation's trace is gone, the blob is never collected again.
- Budgeting leaves a package larger than it was exactly when it does not fit with any number of read files excerpted and
  then cut to their heads, and the path section for the files dropped then, up to the first drop that fits, outweighs in
  whole tokens the read text removed.
- An excerpt is larger than its file exactly when its header and two line feeds, and the footer where the head is shown,
  outweigh the bytes left out.
- The builder prompt exceeds its budget by at most four estimated tokens when the fixed sections fit. Four is
  reached.
- A bridge worker leaves an accepted message behind through either exit: through the timeout exactly when one is put
  after its last look at the empty queue, through the sentinel exactly when one is put behind the sentinel. A notifier that
  passed its check before `close` can do either.
- Spec matching by suffix lets another spec use up a spec's clarity rounds exactly when its path matches. While no other
  spec of the session matches, a round passes unasked exactly after the spec's own rounds are used up.
- A merged plan is cut out again unchanged exactly when a brief stands below it and the plan has no "---" line of
  its own.
- In the viewer's final order a step's divider stands below a send of the step exactly when the line that opened the step
  was logged later than that call was received.

## Model

| member | source | states |
|---|---|---|
| Compare.IndexByKey | core/cli/compare.py:212-225 | the index holds, for every key with a call index and no other, all events of that key in trace order |
| Compare.PairKey | core/cli/compare.py:230-237 | one key's loop appends exactly the first-come-first-served rows, and every `remove` finds its element |
| Compare.SortedKeys | core/cli/compare.py:51-54 | the keys in order of step and call, each once: an absent step comes behind every present one, likewise an absent call within a step, present ones go by value |
| Compare.PairGroup | core/cli/compare.py:227-237 | one key more is paired, the events of all other keys stay as they were |
| Compare.PhaseOne | core/cli/compare.py:227-237 | after phase one the unmatched lists hold, in order, exactly the events without a call index |
| Compare.Choose | core/cli/compare.py:253-268 | the two scans give the earliest unused compatible backend, else the earliest unused one, else none |
| Compare.ChooseAll | core/cli/compare.py:250-273 | one step's proxies choose in turn; exactly the chosen backends leave the unmatched list |
| Compare.PairStep | core/cli/compare.py:247-280 | after a step both sides of its group are used up and all other groups untouched |
| Compare.IndexByStep | core/cli/compare.py:239-244 | the unmatched events of each step, in order |
| Compare.SortedSteps | core/cli/compare.py:246 | the steps by value, the absent one behind all others, each once |
| Compare.PairStepGroup | core/cli/compare.py:246-280 | one step more is paired, the events of all other groups stay as they were |
| Compare.PhaseTwo | core/cli/compare.py:239-280 | phase two ends with both unmatched lists empty and every event's group paired |
| Compare.BuildRows | core/cli/compare.py:282-293 | one row per pairing, in the same order |
| Compare.Count | core/cli/compare.py:305-311 | how many rows have a status |
| Compare.PairDualCapture | core/cli/compare.py:203-311 | the whole run: rows sorted by step and call with absent keys last, each group paired as specified, the summary counting the rows by status |
| Compare.CallsInOrder | core/cli/compare.py:295-302 | in every payload rows go by step and then by call, those without a step last, and within a step those without a call |
| ComparePairing.EachEventOnce | core/cli/compare.py:203-311 | conservation: every proxy and every backend index occurs in exactly one row, and no other index occurs |
| ComparePairing.RowsStayInGroup | core/cli/compare.py:227-280 | both sides of a row carry the row's own step and call |
| ComparePairing.MaximalPerGroup | core/cli/compare.py:227-280 | every group has min(#proxy, #backend) two-sided rows, in both phases |
| ComparePairing.ZipIsFifo | core/cli/compare.py:230-237 | in a keyed group the t-th row joins the t-th backend and the t-th proxy |
| ComparePairing.StepwiseBestChoice | core/cli/compare.py:250-273 | an incompatible pair is made only when no compatible unused backend was left at that turn, and the choice is the earliest possible |
| ComparePairing.StatusMeans | core/cli/compare.py:138-165 | what each status says about the two events: one side missing, compatible and healthy, or differing |
| ComparePairing.CompatibleMeans | core/cli/compare.py:57-62 | model names are compatible if and only if one is missing or ends with the other |
| ComparePairing.DiffsMean | core/cli/compare.py:138-165 | a two-sided row names a model difference, and a status difference, if and only if its events have one; it counts as differing if and only if it names any |
| ComparePairing.SidesComplete | core/cli/compare.py:282-293 | as many rows with a proxy side as proxies, as many with a backend side as backends |
| ComparePairing.SummaryAddsUp | core/cli/compare.py:305-311 | the four status counts add up to the rows; two-sided plus one-sided gives back the proxies and the backends |
| ComparePairing.PairingDetermined | core/cli/compare.py:203-311 | the specification has one solution: any two call lists meeting it are equal |
| ExecutorTurns.BoundedExecutorLoop | server/mcp_server.py:423-550 | exactly one step runs, on the files given, unless the time is up or recording it raises; the result is the step's |
| ExecutorTurns.RunWithStallRetry | server/mcp_server.py:685-734 | a second loop runs if and only if retries are on and unused and the first step asks for files that are no targets; what the turn counts, raises and adds to the targets follows exactly from the two attempts |
| ExecutorTurns.NoConsecutiveRetries | server/mcp_server.py:685-734 | two turns in a row run a stall retry only if the first turn's retry raised |
| ExecutorTurns.CallBound | server/mcp_server.py:3619-3812 | over T turns at most T + ⌈T/2⌉ steps, plus one if the first turn's retry raised and T is even |
| ExecutorTurns.AlternateCalls | server/mcp_server.py:3619-3812 | a run of any length that reaches the larger bound |
| ExecutorTurns.BoundHoldsExactly | server/mcp_server.py:3619-3812 | T + ⌈T/2⌉ holds for every run with a given first turn if and only if its retry did not raise or T is odd |
| Lifecycle.SupervisorAgent.BeginDelegation | core/engine/supervisor_agent.py:345-399 | an open envelope keeps its phase table, a closed or unstarted one is cleared; turn counter and close flag are reset |
| Lifecycle.SupervisorAgent.EmitLifecycleStart | core/engine/supervisor_agent.py:1151-1164 | marks the envelope as started |
| Lifecycle.SupervisorAgent.Begin | core/engine/supervisor_agent.py:670-683 | the loop start is emitted once per delegation |
| Lifecycle.SupervisorAgent.BeginTurn | core/engine/supervisor_agent.py:685-689 | turns are numbered without gaps |
| Lifecycle.SupervisorAgent.CompleteTurn | core/engine/supervisor_agent.py:695-723 | a turn's end comes before the decision about it, which is remembered; an interruption between leaves the turn undecided |
| Lifecycle.SupervisorAgent.EmitLifecyclePhaseStart | core/engine/supervisor_agent.py:1166-1186 | table and trace move together, and neither moves once the envelope is closed |
| Lifecycle.SupervisorAgent.EmitLifecyclePhaseEnd | core/engine/supervisor_agent.py:1188-1208 | likewise for the end of a phase |
| Lifecycle.SupervisorAgent.EmitLifecycleEnd | core/engine/supervisor_agent.py:1210-1237 | the end is emitted by the first call only |
| Lifecycle.SupervisorAgent.Finish | core/engine/supervisor_agent.py:729-751 | escalates exactly when the last decision was to escalate or to rerun without turns left |
| Lifecycle.CloseLifecycleOnce | server/mcp_server.py:2171-2210 | for a given phase, interruptible between any two events, it keeps trace and table in step; uninterrupted it ends the open phase and the envelope once, and not again; interrupted after its first event it leaves the phase ended and the envelope open |
| Lifecycle.CloseInFinally | server/mcp_server.py:2186-2210 | without a phase it ends the one put in the table last, whatever the trace says |
| Lifecycle.OpenEnvelope | server/mcp_server.py:2118-2161 | an agent in any state opens a fresh envelope with preloop open, on the table it kept |
| Lifecycle.StartLoop | server/mcp_server.py:2740-2763 | resetting the agent in mid-envelope leaves the loop phase open and in the table |
| Lifecycle.StartTurns | server/mcp_server.py:2748-2763 | the agent is reset for the loop, which writes its start and that of turn one |
| Lifecycle.Rerun | server/mcp_server.py:3670-3709 | one turn more: with a context package it follows from its attempts and opens the targets so far, without one nothing runs |
| Lifecycle.RetryLoop | server/mcp_server.py:3599-3827 | terminates after at most `max_turns` turns; a turn is followed by another if and only if it was decided to be rerun with turns left, and escalates if and only if the last decision was not `done`; the targets grow exactly by stall retries and each rerun opens them |
| Lifecycle.PreloopGate | server/mcp_server.py:2526-2726 | a gate that closes early leaves one ended, blocked phase; a resolved clarification goes on; preloop is ended with the envelope still open exactly when interrupted after two points behind a closing gate |
| Lifecycle.LoopPhase | server/mcp_server.py:2740-3827 | the loop phase ends exactly once whatever the executor did |
| Lifecycle.PostloopPhase | server/mcp_server.py:3863-4145 | a run closed early skips postloop, any other ends it once |
| Lifecycle.RunToAppend | server/mcp_server.py:2427-4368 | the run up to the record: uninterrupted it ends one or three phases; it stops where preloop has just ended exactly at one interruption point, which the gate determines |
| Lifecycle.DelegateToAgent | server/mcp_server.py:2171-4521 | uninterrupted, or with nothing but preloop in progress in the agent's table, the trace is well bracketed: one start, one end, phases a prefix of preloop/loop/postloop, each ended once; with loop in progress as well it is if and only if the run is not interrupted where preloop has just ended, and there any table keeps it so if and only if nothing but preloop is in progress in it; two records if and only if interrupted behind the line of the first and the second is written, otherwise one if the last append succeeds; an early gate writes no turn and ends with its own outcome; otherwise the supervisor's log is that of its decisions, with as many turn starts as turns, and the loop phase is escalated if and only if the last decision was not `done`; every turn follows from its attempts and the flag it starts from, and its steps open the files they should |
| Lifecycle.RerunsAsDecided | server/mcp_server.py:3652-3666 | in the log of a loop that ended, what follows a decision for turn t is the start of turn t + 1 if and only if it was `rerun_aider` and t < `max_turns`; as many turns start as the executor was given |
| Lifecycle.StartsOnlyAsDecided | server/mcp_server.py:3652-3666 | in every log, interrupted ones included, a turn start behind a decision is the next turn's and follows such a decision |
| Lifecycle.TwoRecordsExactly | server/mcp_server.py:4368-4521 | the records as a function of the interruption point and the two appends |
| Lifecycle.CloseInterrupted | server/mcp_server.py:4436-4521 | what the closing call of the `finally` block makes of the trace, whatever the table the run started on |
| Lifecycle.ResumePaused | server/mcp_server.py:1736-1810 | a resume replaces the cached agent by one with nothing in progress, or with loop in progress and nothing else if it is interrupted while its loop is open |
| Lifecycle.ReviewDelegation | core/engine/supervisor_agent.py:345-399 | a review on a cached agent leaves the table of the next envelope as it was |
| Lifecycle.Operate | server/mcp_server.py:1635-1810 | one delegation, review or resume on the cached agent: the state it leaves, and the delegation's trace is well bracketed if and only if the agent's loop was closed or the run is not interrupted where preloop has just ended |
| Lifecycle.Operations | server/mcp_server.py:1635-1810 | over any sequence of delegations, reviews and resumes of a project, a delegation is well bracketed if and only if no interrupted resume came just before it or it is not interrupted where preloop has just ended |
| Lifecycle.AgreeingClose | server/mcp_server.py:4436-4521 | closing in `finally` completes every partial envelope whose table agrees with it |
| Lifecycle.CrashCloseExactly | server/mcp_server.py:4436-4521 | it does so if and only if table and trace agree on the phase in progress |
| Lifecycle.CrashedTrace | server/mcp_server.py:4436-4521 | closing in `finally` completes every run that tracks its table, except where preloop has just ended: there it does if and only if the table held nothing else in progress |
| Lifecycle.StaleTableBreaks | server/mcp_server.py:2186-2210 | whatever the table at the start and the status of preloop, closing right after its end is well bracketed if and only if nothing but preloop was in progress in it |
| Lifecycle.StaleLoopBreaksBracketing | server/mcp_server.py:1738-1758 | the agent left by an interrupted resume yields a phase end without a start |
| Excerpts.MergeRanges | core/context/excerpts.py:38-47 | merged ranges are ordered with an uncovered line between neighbours, and have the union of the given ranges if and only if the first of these starts first |
| Excerpts.RenderRanges | core/context/excerpts.py:59-66 | the output is the covered lines with one blank at each gap and nothing blank at the end |
| Excerpts.SymbolWindows | core/context/excerpts.py:50-66 | the same of the lines within `context` of a symbol line |
| Excerpts.WindowsFilter | core/context/excerpts.py:50-66 | the windows refine a filter: their non-empty rows are the non-empty lines within `context` of a symbol line, in order and once each |
| Excerpts.WindowBytes | core/context/excerpts.py:50-66 | shown and left out together are the file's lines, to the byte |
| Excerpts.RawCovers | core/context/excerpts.py:51-57 | the raw windows cover exactly the lines near a symbol, and start first |
| Excerpts.BuildFileExcerpt | core/context/excerpts.py:69-117 | which text a file yields: itself up to the threshold, else header and symbol windows, or head and footer |
| Excerpts.ExcerptSays | core/context/excerpts.py:98-117 | an excerpt names its file and shows the symbol windows, or without any the first eighty lines and the file's size |
| Excerpts.ExcerptGrowsExactly | core/context/excerpts.py:98-117 | an excerpt is larger than its file if and only if header, two line feeds and footer outweigh the bytes left out |
| Excerpts.OneDefinitionGrows | core/context/excerpts.py:98-117 | a one-line file that grows under every path |
| Gc.ReadLog | core/cli/maintenance.py:230-248 | the two dictionaries say what the log says: the last parseable time and all hashes of each delegation |
| Gc.MarkTraces | core/cli/maintenance.py:250-280 | the prunable traces are the expired ones without a training sidecar; pinned ones are counted as blocked |
| Gc.MarkBlobs | core/cli/maintenance.py:282-297 | the prunable blobs are those no delegation without a prunable trace refers to |
| Gc.Sweep | core/cli/maintenance.py:330-346 | exactly the files whose deletion does not fail go, in order, and their bytes are counted |
| Gc.Collect | core/cli/maintenance.py:224-346 | the report predicts the deletions per layer and counts them and the pinned traces exactly, dry or not |
| Gc.TargetsAre | core/cli/maintenance.py:250-297 | over all sessions a file is a target if and only if it is a prunable trace or a blob that is not live |
| Gc.BlobsSafe | core/cli/maintenance.py:282-346 | a deleted blob is referred to only by delegations with an expired, unpinned trace, also when some deletes fail |
| Gc.TrainingSafe | core/cli/maintenance.py:269-274 | a trace with a training sidecar is never deleted |
| Gc.LaterCutoffPrunesMore | core/cli/maintenance.py:250-297 | a later cutoff has at least the targets of an earlier one |
| Gc.FreesWhatItPredicts | core/cli/maintenance.py:326-346 | when no delete fails, exactly the predicted files and bytes go |
| Gc.SecondRunOnlyRetries | core/cli/maintenance.py:224-346 | a second run at the same cutoff targets only files whose delete failed |
| Gc.SecondRunPrunesNothing | core/cli/maintenance.py:224-346 | after a run without failures, a second one at the same cutoff has no target |
| Gc.RetriedExactly | core/cli/maintenance.py:282-346 | a blob whose delete failed is a target of some later run if and only if the trace deletes of all its delegations failed too |
| Budget.RunStage | core/context/budget.py:122-223 | one degradation loop stops at the first touched entry that brings the estimate within budget, and notes every entry it touched |
| Budget.ApplyContextBudget | core/context/budget.py:91-246 | a package within budget comes back unchanged, any other goes through the three stages in order |
| Budget.BudgetDegrades | core/context/budget.py:121-227 | entry count, order and paths stay, entries outside the read tiers are untouched, read entries only move down |
| Budget.FullFilesGoFirst | core/context/budget.py:121-194 | no excerpt is cut or dropped while a full read file is left |
| Budget.HeadsGoBeforePointers | core/context/budget.py:168-223 | no payload is dropped before every excerpt was cut to its head |
| Budget.OverLimitExplained | core/context/budget.py:196-239 | still over budget: no read payload is left, or only the appended pointer list is to blame |
| Budget.NothingDroppedInVain | core/context/budget.py:196-223 | before every drop, the first included, the package was over budget; entries behind the last drop keep what they had |
| Budget.EntryHolds | core/context/budget.py:121-212 | what every entry holds in the end, stage by stage: the excerpt's text, size and path, or nothing if unreadable; the first forty lines and a notice; no payload but the size as it was |
| Budget.ExcerptShown | core/context/budget.py:129-155 | an excerpted entry that no later stage touched shows its file's excerpt |
| Budget.NotesSay | core/context/budget.py:157-219 | every truncation note names an entry the stage handled, the stage and the bytes gone from it |
| Budget.BriefSays | core/context/budget.py:221-223 | the brief is as it was or lists, below a heading, exactly the paths of the entries whose text was dropped |
| Budget.GrowsExactly | core/context/budget.py:107-233 | the estimate grows if and only if the package given meets a condition on its own entries: it fits at no point of the first two stages, and the path section for the drops up to the first fit outweighs, in whole tokens, the read text removed |
| Budget.BudgetingCanGrow | core/context/budget.py:196-233 | a package that every run with budget 1 leaves larger |
| BuilderPrompt.TruncateReasoning | core/context/builder_prompt.py:101-114 | keeps the longest suffix that fits, or nothing |
| BuilderPrompt.TruncateHistory | core/context/builder_prompt.py:237-258 | project rows go before any same-spec row; the first fitting point of that chain, all earlier ones rejected |
| BuilderPrompt.TruncateRag | core/context/builder_prompt.py:199-217 | both lists keep score-order prefixes, files all go before any delegation reference, restoring the last dropped item would not fit |
| BuilderPrompt.BestRefsKept | core/context/builder_prompt.py:199-217 | under a budget no dropped reference of a list has a higher score than a kept one, an absent score being zero; kept ones come in descending score, ties in the given order |
| BuilderPrompt.ScoreMeans | core/context/builder_prompt.py:206-208 | an absent score counts as zero |
| BuilderPrompt.RefsOffered | core/context/builder_prompt.py:117-151 | offered are exactly the delegation references the history does not show and the file references the picker has not ranked |
| BuilderPrompt.DropRefs | core/context/builder_prompt.py:209-217 | the drop chain on sorted references stops at its first fitting point |
| BuilderPrompt.KeepReasoning | core/context/builder_prompt.py:287-293 | reasoning is cut only under a budget, against the fixed sections |
| BuilderPrompt.KeepHistory | core/context/builder_prompt.py:295-306 | history is cut only under a budget, against what is already in |
| BuilderPrompt.KeepRefs | core/context/builder_prompt.py:312-322 | references are cut only under a budget, against what is already in |
| BuilderPrompt.BuildPrompt | core/context/builder_prompt.py:261-335 | the prompt, each section cut against what is already in, and its size against the budget |
| BuilderPrompt.PromptText | core/context/builder_prompt.py:273-335 | the brief under its heading, then picker, suggestions, reasoning, history, references, transcript and planner in this order, each below a blank line if it is not empty |
| BuilderPrompt.HistoryText | core/context/builder_prompt.py:74-84 | same-spec rows, then project rows, a line each under their headings |
| BuilderPrompt.RefsText | core/context/builder_prompt.py:165-196 | delegation references, then file references, a line each under their headings |
| BuilderPrompt.ReasoningText | core/context/builder_prompt.py:87-98 | a line for each entry that has a summary |
| BuilderPrompt.AssembleLength | core/context/builder_prompt.py:273-335 | each optional section adds its own length and one separator |
| BuilderPrompt.SectionsFit | core/context/builder_prompt.py:286-323 | every kept section was checked against all that precedes it |
| BuilderPrompt.WithinBudgetPlusFour | core/context/builder_prompt.py:273-335 | if the fixed sections fit, the prompt is at most four estimated tokens over, for all inputs |
| BuilderPrompt.OnlyFixedSections | core/context/builder_prompt.py:273-335 | if they do not fit, nothing else gets in |
| BuilderPrompt.SlackIsReached | core/context/summary.py:30-34 | a concrete prompt exactly four tokens over |
| Picker.ExtractSymbolQueries | core/context/file_picker.py:85-125 | the first twenty distinct valid symbols, backtick contents before definitions |
| Picker.QueryMeans | core/context/file_picker.py:94-107 | every query has at least three characters, is an identifier and no stopword |
| Picker.QueryComesFrom | core/context/file_picker.py:109-123 | and stands in a definition, or between backticks where no file name stands |
| Picker.ExtensionMeans | core/context/file_picker.py:114-115 | a backtick content is a file name if and only if it ends with one of the six extensions |
| Picker.QueryIs | core/context/file_picker.py:94-107 | and every such candidate is among the queries |
| Picker.AddQueries | core/context/file_picker.py:96-123 | adding candidates until the cap gives the first distinct valid ones |
| Picker.HintPaths | core/context/file_picker.py:233-239 | the sorted hints outside the contract |
| Picker.ScanHits | core/context/file_picker.py:272-278 | leaving the inner loop at the cap misses nothing that would still fit |
| Picker.ScanSymbols | core/context/file_picker.py:264-278 | the capped scan finds exactly the first fresh hits, in scan order, that still fit beside the retrieved paths |
| Picker.Rank | core/context/file_picker.py:299-309 | the ranking lists every path once, by first list and by first place in it |
| Picker.WorkspaceRagPaths | core/context/file_picker.py:249-257 | the retrieved paths outside the contract, each once, in order |
| Picker.AddSources | core/context/file_picker.py:241-247 | later sources do not displace earlier ones unless they overwrite |
| Picker.Sources | core/context/file_picker.py:241-278 | every path's source: retrieval before the spec's edit and read files, then hints, then the scan |
| Picker.EditDirs | core/context/file_picker.py:201-207 | the directories of the edit files other than the root |
| Picker.ExtraReads | core/context/file_picker.py:293-297 | in strict mode retrieved paths that are no hints join the read files |
| Picker.PickCandidateFiles | core/context/file_picker.py:210-321 | edit and read paths together are the ranked paths and the keys of the source map; each source is the right one; suggestions are the scan's finds beside edit files, none in strict mode |
| Picker.EditsLead | core/context/file_picker.py:299-309 | the ranking starts with the sorted edit files |
| Picker.DiscoveriesBounded | core/context/file_picker.py:264-282 | discoveries are new, distinct, outside the contract, at most max(cap, retrieved), and each retrieved or a hit of some symbol; below the cap no hit of any symbol is missed |
| Package.SlashesMean | core/context/excerpts.py:120-126 | in the name of a materialized excerpt every slash turns into two underscores and nothing else changes |
| ContextCompiler.ContractTiers | core/context/assemble.py:148-176 | exactly the contract's paths have a tier, edit-full exactly for the edit files |
| ContextCompiler.AddDiscovered | core/context/assemble.py:177-183 | discoveries join as read context and change no tier |
| ContextCompiler.Assemble | core/context/assemble.py:120-265 | entries are the sorted contract and discovered paths as the workspace holds them, each in its tier, then the repo map; the edit-full ones are the contract's edit files; one note for each excerpt |
| ContextCompiler.EntryShows | core/context/assemble.py:191-240 | what each assembled entry holds: edit files whole whatever their size, other files whole or, over the limit, their excerpt; nothing of a missing file |
| ContextCompiler.ApplyCapabilities | core/context/capability_adjust.py:22-91 | adjusting to the backend changes full read entries only, with one warning each that says whether the file could be read |
| ContextCompiler.AdjustedMeans | core/context/capability_adjust.py:41-75 | a full read file that can be read turns into its excerpt, and nothing else changes |
| ContextCompiler.WarnedAbout | core/context/capability_adjust.py:55-77 | the warnings are one for each full read file, with the reason if it could not be read |
| ContextCompiler.AppendReadPaths | server/mcp_server.py:631-662 | appends a read entry with the file's text for each path the package does not have, and nothing else |
| ContextCompiler.Fnames | core/engine/aider_engine.py:482 | the sorted edit-full paths |
| ContextCompiler.AllPathsKept | core/engine/aider_engine.py:415-484 | no contract, discovered or requested path is lost between assembly and translation |
| ContextCompiler.Compile | core/engine/aider_engine.py:415-484 | the translated package, which the first turn runs with, opens for editing exactly the spec's edit files, sorted: no discovered, hinted, mapped or requested path |
| EditableFiles.MergeSpecRead | core/specs/read_deps_merge.py:22-47 | the sorted normalized targets, joined if enabled by the read files that are no placeholders; the merged ones are those not named already |
| EditableFiles.EffectiveTargets | server/mcp_server.py:2262-2285 | the target files before the first turn: as given without contract paths, else merged |
| EditableFiles.RerunOpensTargets | server/mcp_server.py:3684-3709 | in every run a rerun's steps open at least the first targets for editing, and exactly these without stall retries |
| EditableFiles.OpensOnlyExactly | server/mcp_server.py:3106-3827 | over all runs possible from the inputs, every step opens exactly a given set if and only if the first turn does, and there is no rerun or the targets are that set and stall retries are off |
| EditableFiles.EditableExactly | server/mcp_server.py:2262-3827 | all steps open exactly the spec's edit files if and only if there is one turn at most, or the target files are the edit files and stall retries are off |
| EditableFiles.TargetsAreEditsExactly | core/specs/read_deps_merge.py:31-47 | for a spec that does not read what it edits, they are if and only if the host named exactly the edit files and no read file was merged in |
| EditableFiles.RerunEditsReadFile | server/mcp_server.py:3684-3690 | a spec that reads b.py, and every rerun of it may edit b.py |
| ProgressBridge.EveryRunKeeps | server/mcp_server.py:202-283 | every interleaving of notifiers, closer and worker keeps conservation, sentinel position and throttle |
| ProgressBridge.DeliveredInOrder | server/mcp_server.py:232-275 | attempted, in hand and queued messages together are the accepted ones, in order and once each |
| ProgressBridge.SentinelDrains | server/mcp_server.py:241-283 | a worker that left through the sentinel has attempted exactly what was accepted before it |
| ProgressBridge.UnforcedKeepDistance | server/mcp_server.py:232-239 | an unforced message is accepted at least the throttle interval after the acceptance before it |
| ProgressBridge.HeartbeatsAreDue | server/mcp_server.py:244-259 | a heartbeat is sent only when due, behind an empty `get` and while not stopped |
| ProgressBridge.TimeoutLosesExactly | server/mcp_server.py:243-263 | a worker that left through the timeout has attempted exactly what was put before its last empty `get`: all accepted messages if and only if none was put from then to the end of the run |
| ProgressBridge.SentinelLosesExactly | server/mcp_server.py:260-282 | a worker that left through the sentinel has attempted all accepted messages if and only if none was put behind the sentinel |
| ProgressBridge.SentinelCanLose | server/mcp_server.py:277-282 | a run in which the sentinel exit leaves an accepted message in the queue |
| ProgressBridge.TimeoutCanLose | server/mcp_server.py:244-248 | a run in which the timeout exit leaves an accepted message undelivered |
| ProgressBridge.Bridge.constructor | server/mcp_server.py:205-218 | a new bridge is in the initial state |
| ProgressBridge.Bridge.Check | server/mcp_server.py:232-238 | the guard of `notify` is the model's step |
| ProgressBridge.Bridge.Put | server/mcp_server.py:239 | so is the put |
| ProgressBridge.Bridge.Get | server/mcp_server.py:243-264 | so is the worker's get, empty or not |
| ProgressBridge.Bridge.RaiseFlag | server/mcp_server.py:277-280 | so is the first half of `close` |
| ProgressBridge.Bridge.PutSentinel | server/mcp_server.py:281-282 | so is the second half |
| ClarityRounds.CountBlockedRounds | server/mcp_server.py:1011-1037 | the number of log records that block this spec |
| ClarityRounds.CheckMeans | core/context/helper_llm_pipeline.py:482-575 | every field of a check: from the third round on it passes unasked, before only the model's questions block, and a failed call passes unrun |
| ClarityRounds.SameSpecMeans | server/mcp_server.py:1087-1090 | two paths name one spec if and only if they are equal or one is the end of the other from a slash on |
| ClarityRounds.NormalizeMeans | server/mcp_server.py:1080-1084 | white space around a path, one leading `./` and the kind of slash do not matter |
| ClarityRounds.OwnIsCounted | server/mcp_server.py:1054-1093 | a spec's own blocked records are among those counted, given the matching recognises its path |
| ClarityRounds.AtMostCap | core/context/helper_llm_pipeline.py:482-496 | over every sequence of delegations a spec is blocked at most CLARITY_ROUND_CAP times |
| ClarityRounds.NextRoundPasses | core/context/helper_llm_pipeline.py:482-496 | the round after that passes without a model call |
| ClarityRounds.StoppedExactly | server/mcp_server.py:1080-1093 | an unclear request sent again and again is stopped at the cap if and only if the matching recognises its path |
| ClarityRounds.CountIsOwnExactly | server/mcp_server.py:1054-1093 | over every session the count is the number of the spec's own blocked rounds if and only if every blocked record that matches is about it |
| ClarityRounds.PassesExactlyAfterOwnRounds | server/mcp_server.py:2441-2475 | while no other spec sent in the session matches, a round passes unasked if and only if the spec's own rounds are used up |
| ClarityRounds.OthersUseUpRoundsExactly | server/mcp_server.py:1080-1093 | unclear requests about another spec use up the rounds of one never asked about if and only if its path matches |
| ClarityRounds.NamesakeUsesUpRounds | server/mcp_server.py:1087-1093 | a spec that was never asked about passes because of a namesake |
| Plan.ExtractUndoesMerge | core/engine/aider_engine.py:192-202 | merging a plan and cutting it out gives it back if and only if a brief stands below and no rule inside the plan |
| Plan.WithoutUndoesMerge | core/engine/aider_engine.py:205-212 | what is left then is the rule and the trimmed brief, under the same condition |
| Plan.ExtractRenamesLegacy | core/engine/aider_engine.py:198-202 | a legacy plan comes back under the present heading with its other lines |
| Plan.NothingLost | core/engine/aider_engine.py:174-212 | for every brief, section and remainder make up the brief: only white space changes |
| Plan.SectionRangeExactly | core/engine/aider_engine.py:174-189 | the section runs from the first heading of either kind to the first rule behind it, or to the end; there is none only without a heading |
| Plan.MergeTrimmed | core/context/helper_llm_pipeline.py:100-102 | what trimming leaves of a merged brief, with and without a brief below |
| Answers.ParseAnswersBlock | core/engine/clarity_resolution.py:57-73 | answer i is the text of the last line numbered i, up to the largest number and the expected count |
| Answers.ParseLineExactly | core/engine/clarity_resolution.py:54-69 | a line is numbered if and only if it is white space, digits, '.' or ')', white space and a rest; it says the value of the digits and the trimmed rest |
| Answers.HeadingExactly | core/engine/clarity_resolution.py:52-53 | the heading found at a place is the longest match of the pattern there, and none is found only if the pattern does not match |
| Answers.LetterMeans | core/engine/clarity_resolution.py:52-53 | letters match in either case, and the long s as an s |
| Answers.Resolve | core/engine/clarity_resolution.py:130-295 | resolved if and only if an answers heading before any escalate heading is followed by a non-blank answer to every question; then one answer each, in order; otherwise the reason |
| Answers.EscalateLeads | core/engine/clarity_resolution.py:241-270 | a reply that begins with an escalate heading is never resolved |
| Answers.ReasonMeans | core/engine/clarity_resolution.py:272-277 | the reason is the first line below the escalate heading, trimmed, and no more than 300 characters of it |
| Answers.FoundFirst | core/engine/clarity_resolution.py:52-53 | the heading found is the first that matches |
| Answers.LeadingHeading | core/engine/clarity_resolution.py:52-53 | a reply that begins with the answers heading has it found at the start, ending before the line feed |
| Answers.ParseUndoesLine | core/engine/clarity_resolution.py:54-69 | a line "i. text" parses to i and text |
| Answers.ParseUndoesNumbering | core/engine/clarity_resolution.py:57-73 | answers written as numbered lines in any order are read back in question order |
| Answers.RequestedFormResolves | core/engine/clarity_resolution.py:243-270 | a reply in the requested form, its lines in any order, meets the condition for being resolved with those answers |
| Answers.SplitUndoesJoin | core/engine/clarity_resolution.py:64 | splitting gives back joined lines |
| ViewEvents.EmitLine | core/cli/delegation_view_enrich.py:591-861 | the rows of one line; a divider exactly when its step is new |
| ViewEvents.OpenStep | core/cli/delegation_view_enrich.py:773-805 | a step gets a divider the first time it is seen, and none later |
| ViewEvents.EmitEvents | core/cli/delegation_view_enrich.py:533-1745 | one send row per step-indexed proxy call, one receive row per backend call, one divider per step and before its sends, each row showing its own line, in file order |
| ViewEvents.LineHasRow | core/cli/delegation_view_enrich.py:533-861 | every call, prompt, index and shown line has a row of its kind with its step and time, a send the time the call was received |
| ViewEvents.RowHasLine | core/cli/delegation_view_enrich.py:533-861 | and every row of a line is of a kind the line gives, with its step and time |
| ViewEvents.StepHasDivider | core/cli/delegation_view_enrich.py:773-805 | every action, and every call with a step, has a divider of its step, which is that of the first such line of the step, with the time it was logged |
| ViewEvents.RecordHasRows | core/cli/delegation_view_enrich.py:491-1745 | the record opens and closes the rows; the executor's closing row is there if and only if a line shows that it ran |
| ViewEvents.RanMeans | core/cli/delegation_view_enrich.py:591-861 | such lines are the final prompt, an action, a call with a step on either side, and a tool call |
| ViewEvents.RepositionHandoff | core/cli/delegation_view_enrich.py:440-458 | moves the first handoff directly above the first send, exactly when it is misplaced |
| ViewEvents.InsertIndexHeader | core/cli/delegation_view_enrich.py:461-488 | one header directly above the first index row, if there is one |
| ViewEvents.TimelineHolds | core/cli/delegation_view_enrich.py:1745-1748 | the final rows are the emitted ones in the order of time and emission but for that handoff, which precedes the first send exactly when it is earlier in that order or the send is stamped and the stamps differ |
| ViewEvents.BuildViewEvents | core/cli/delegation_view_enrich.py:491-1753 | the whole view, numbered from 0 without gaps |
| ViewEvents.DividerAboveSend | core/cli/delegation_view_enrich.py:773-822 | emitted above all sends of its step, a divider precedes one in the view if and only if the first line that opened the step was not logged after that call was received |
| ViewEvents.ImplicitDividerAbove | core/cli/delegation_view_enrich.py:790-822 | so where a call opens its own step, if and only if the call was not logged after it was received |
| ViewEvents.DividerBelowItsSend | core/cli/delegation_view_enrich.py:790-822 | a trace whose every view shows the divider below its send |

## Left out

- Model calls, the executor, git, ripgrep, review passes and the workspace index are inputs with arbitrary results.
- Rendering of single rows and lines (history rows, references, event summaries and details, prompt wording) is an
  input or left out; the view keeps kind, step, line, timestamp and order of a row.
- Compare.BuildRows: has the pairing, status and differing fields of a row; latency, usage and thinking fields and the
  decoding of indices given as strings are left out.
- Compare.PairDualCapture: has rows and summary; the gaps, notes and thinking flags of the payload are left out.
- Lifecycle: a failure inside the emission of one event or inside the `finally` block, and the stretch between
  arming the interrupted record and the definition of `_close_lifecycle_once` (server/mcp_server.py:2034-2171),
  where the closing call has no function to call.
- Lifecycle.SupervisorAgent.BeginDelegation: has the fields of the envelope and the turn counter only; project state,
  clarification and callbacks of the agent are not modelled.
- Lifecycle.SupervisorAgent.Begin: loading the project state and its event are left out.
- Lifecycle.ResumePaused: says what a resume leaves of the agent; the resumed trace, which continues that of the paused
  delegation, is left out.
- ExecutorTurns.RunWithStallRetry: leaves out the package and the merged read list it returns beside the targets; it does
  not say that the retry sees the appended files, because the step closure holds the package it was given before.
- Lifecycle.DelegateToAgent: on a table with postloop in progress, or loop behind an unfinished preloop, only the point
  where preloop has just ended is decided; Lifecycle.Operate shows that no operation leaves such a table.
- EditableFiles: path normalization and the test for placeholder paths are arbitrary functions; what the executor's
  coder does with a file it may edit is left out.
- Gc: policy and time-to-live parsing, totals over all files, and the layers that are never pruned.
- Gc.Collect: file sizes do not change between the scan and the deletion.
- Excerpts.SymbolWindows: which lines are symbol lines is a predicate of the line.
- ContextCompiler.Assemble: metadata lists (hint, missing and untracked paths) and git status are left out.
- ContextCompiler.ApplyCapabilities: the copy of the warnings in the metadata is left out.
- BuilderPrompt.BuildPrompt: parsing of the model's reply is left out.
- Picker.ExtractSymbolQueries: the matches of its two patterns are inputs.
- Picker.PickCandidateFiles: path normalization and parent directories are arbitrary functions, the hits of each
  symbol an arbitrary map; the file system scan is left out.
- ProgressBridge.Bridge.Check: the check in `notify` and its update of the last time are one atomic step, although
  two notifying threads could interleave between them; message sanitizing is left out.
- ClarityRounds.AtMostCap: one log, one delegation at a time; writers racing on a session log are left out, and so is
  the count over a whole workspace.
- Plan: an absent brief is the empty one.
- Answers.ParseLine: takes the ASCII digits only, and numbers of any length.
- Answers.Resolve: the text is the one left after leaked tool calls were removed, and failures before any text came back
  are one case with a reason.
- ViewEvents.EmitLine: lines of other types show at most one row each, of a kind of their own.
- ViewEvents.InsertIndexHeader: the count and the description in the header are left out.
- Configuration, argument parsing, printing, the HTTP viewer and setup.
