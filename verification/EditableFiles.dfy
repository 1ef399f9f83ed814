/**
 * Which files the executor may edit, over all turns of a delegation: core/specs/read_deps_merge.py, the target files the
 * server derives from it, and the steps of server/mcp_server.py that open them.
 */
module EditableFiles {
  import opened Sequences
  import opened Sorting
  import opened Paths
  import opened ContextCompiler
  import opened ExecutorTurns

  // ----- The target files. -----

  function Normalized(paths: seq<string>, norm: string -> string): set<string> {
    set p | p in paths :: norm(p)
  }

  /** The read files of a spec that can join the targets. */
  function Readable(filesRead: seq<string>, norm: string -> string, placeholder: string -> bool): set<string> {
    set p | p in filesRead && !placeholder(p) :: norm(p)
  }

  datatype ReadDeps = ReadDeps(effective: seq<string>, autoMerged: seq<string>)

  /** `merge_spec_read_into_target`. */
  method MergeSpecRead(filesRead: seq<string>, targetFiles: seq<string>, enabled: bool, norm: string -> string,
                       placeholder: string -> bool)
    returns (deps: ReadDeps)
    ensures IsSorted(deps.effective, Normalized(targetFiles, norm) + if enabled then Readable(filesRead, norm, placeholder) else {})
    ensures SortedBy(deps.autoMerged, StrLe)
    ensures Elements(deps.autoMerged)
         == if enabled then Readable(filesRead, norm, placeholder) - Normalized(targetFiles, norm) else {}
  {
    hide StrLe;
    var normalized := Normalized(targetFiles, norm);
    if !enabled {
      var effective := SortedSet(normalized);
      return ReadDeps(effective, []);
    }
    var missing := Map(Filter(filesRead, p => !placeholder(p) && norm(p) !in normalized), norm);
    var autoMerged := StableSort(missing, StrLe);
    StrLePreorder();
    SortSorts(missing, StrLe);
    MissingReads(filesRead, normalized, norm, placeholder);
    assert Elements(autoMerged) == Elements(missing);
    var effective := SortedSet(normalized + Elements(autoMerged));
    assert normalized + Elements(autoMerged) == normalized + Readable(filesRead, norm, placeholder);
    deps := ReadDeps(effective, autoMerged);
  }

  lemma {:induction false} MissingReads(filesRead: seq<string>, targets: set<string>, norm: string -> string, placeholder: string -> bool)
    ensures Elements(Map(Filter(filesRead, p => !placeholder(p) && norm(p) !in targets), norm))
         == Readable(filesRead, norm, placeholder) - targets
  {
    var kept := Filter(filesRead, p => !placeholder(p) && norm(p) !in targets);
    forall x | x in Map(kept, norm) ensures x in Readable(filesRead, norm, placeholder) - targets {
      var i :| 0 <= i < |kept| && Map(kept, norm)[i] == x;
      assert kept[i] in kept && norm(kept[i]) == x;
    }
    forall x | x in Readable(filesRead, norm, placeholder) - targets ensures x in Map(kept, norm) {
      var p :| p in filesRead && !placeholder(p) && norm(p) == x;
      assert p in kept;
      var i :| 0 <= i < |kept| && kept[i] == p;
      assert Map(kept, norm)[i] == x;
    }
  }

  /** `effective_target_files` before the first turn. */
  function TargetsOf(c: Contract, targetFiles: seq<string>, autoMerge: bool, norm: string -> string, placeholder: string -> bool): FileSet {
    if c.NoContract? || c.p.allPaths == [] then Elements(targetFiles)
    else
      Normalized(targetFiles, norm) + if c.FromSpec? && autoMerge then Readable(c.p.filesRead, norm, placeholder) else {}
  }

  method EffectiveTargets(c: Contract, targetFiles: seq<string>, autoMerge: bool, norm: string -> string, placeholder: string -> bool)
    returns (targets: seq<string>)
    ensures Elements(targets) == TargetsOf(c, targetFiles, autoMerge, norm, placeholder)
  {
    targets := targetFiles;
    if !c.NoContract? && c.p.allPaths != [] {
      var deps := MergeSpecRead(c.p.filesRead, targetFiles, c.FromSpec? && autoMerge, norm, placeholder);
      targets := deps.effective;
    }
  }

  // ----- What the steps of one delegation open. -----

  /** Everything that can happen in one delegation. */
  ghost predicate Delegation(ts: seq<Turn>, e: Edits, usePkg: bool, fnames: FileSet, targets0: FileSet, retryEnabled: bool,
                             maxTurns: int) {
    Run(ts) && |ts| <= Max(1, maxTurns) && EditsOf(ts, e, usePkg, fnames, targets0, retryEnabled)
  }

  /** Every step opens exactly the files in `edit`. */
  ghost predicate OpensOnly(e: Edits, edit: FileSet) {
    forall i :: 0 <= i < |e.edited| ==> forall f :: f in e.edited[i] ==> f == edit
  }

  ghost predicate AlwaysOpensOnly(edit: FileSet, usePkg: bool, fnames: FileSet, targets0: FileSet, retryEnabled: bool, maxTurns: int) {
    forall ts, e :: Delegation(ts, e, usePkg, fnames, targets0, retryEnabled, maxTurns) ==> OpensOnly(e, edit)
  }

  /** The target files only grow, and without stall retries not at all. */
  lemma {:induction false} TargetsGrow(ts: seq<Turn>, e: Edits, usePkg: bool, fnames: FileSet, targets0: FileSet,
                                       retryEnabled: bool, i: nat)
    requires EditsOf(ts, e, usePkg, fnames, targets0, retryEnabled) && i <= |ts|
    ensures targets0 <= e.targets[i]
    ensures !retryEnabled ==> e.targets[i] == targets0
  {
    if i > 0 { TargetsGrow(ts, e, usePkg, fnames, targets0, retryEnabled, i - 1); }
  }

  lemma {:induction false} TurnOpens(ts: seq<Turn>, e: Edits, usePkg: bool, fnames: FileSet, targets0: FileSet,
                                     retryEnabled: bool, i: nat, f: FileSet)
    requires EditsOf(ts, e, usePkg, fnames, targets0, retryEnabled) && i < |ts| && f in e.edited[i]
    ensures f == (if i == 0 && usePkg then fnames else e.targets[i]) && (i == 0 || usePkg)
  {
    assert TurnEdits(ts[i], e.targets[i], e.targets[i + 1], e.edited[i], if i == 0 && usePkg then fnames else e.targets[i], retryEnabled);
  }

  /** A rerun opens all target files for editing, whatever the contract says; its package is not used again. */
  lemma {:induction false} RerunOpensTargets(ts: seq<Turn>, e: Edits, usePkg: bool, fnames: FileSet, targets0: FileSet,
                                             retryEnabled: bool, i: nat, f: FileSet)
    requires EditsOf(ts, e, usePkg, fnames, targets0, retryEnabled) && 0 < i < |ts| && f in e.edited[i]
    ensures targets0 <= f && (!retryEnabled ==> f == targets0)
  {
    TargetsGrow(ts, e, usePkg, fnames, targets0, retryEnabled, i);
    TurnOpens(ts, e, usePkg, fnames, targets0, retryEnabled, i, f);
  }

  /** One step. */
  function Single(opens: FileSet, targets0: FileSet): Edits { Edits([targets0, targets0], [[opens]]) }

  lemma {:induction false} SingleRuns(usePkg: bool, fnames: FileSet, targets0: FileSet, retryEnabled: bool, maxTurns: int)
    ensures var opens := if usePkg then fnames else targets0;
            && Delegation([Turn(1, false, false)], Single(opens, targets0), usePkg, fnames, targets0, retryEnabled, maxTurns)
            && (forall edit :: OpensOnly(Single(opens, targets0), edit) ==> opens == edit)
  {
    SingleTurn(Turn(1, false, false));
    var opens := if usePkg then fnames else targets0;
    var e := Single(opens, targets0);
    forall edit | OpensOnly(e, edit) ensures opens == edit {
      assert opens in e.edited[0];
    }
  }

  /** A turn and one rerun, which opens `after`; the first turn retried if that is more than the targets before. */
  function Pair(fnames: FileSet, targets0: FileSet, after: FileSet): Edits {
    Edits([targets0, after, after], [if after == targets0 then [fnames] else [fnames, fnames], [after]])
  }

  lemma {:induction false} PairRuns(fnames: FileSet, targets0: FileSet, after: FileSet, retryEnabled: bool, maxTurns: int)
    requires maxTurns > 1 && targets0 <= after && (after == targets0 || retryEnabled)
    ensures exists ts :: |ts| == 2 && Delegation(ts, Pair(fnames, targets0, after), true, fnames, targets0, retryEnabled, maxTurns)
    ensures forall edit :: OpensOnly(Pair(fnames, targets0, after), edit) ==> after == edit
  {
    var first := if after == targets0 then Turn(1, false, false) else Turn(2, true, false);
    SingleTurn(first);
    RunExtend([first], Turn(1, false, false));
    var ts := [first] + [Turn(1, false, false)];
    assert Delegation(ts, Pair(fnames, targets0, after), true, fnames, targets0, retryEnabled, maxTurns) by { hide Run; }
    forall edit | OpensOnly(Pair(fnames, targets0, after), edit) ensures after == edit {
      assert after in Pair(fnames, targets0, after).edited[1];
    }
  }

  /** There is a path outside any finite set: one longer than all of its paths. */
  lemma {:induction false} FreshPath(s: FileSet) returns (p: string)
    ensures forall q :: q in s ==> |q| < |p|
  {
    if s == {} {
      p := "a";
    } else {
      var q :| q in s;
      var p' := FreshPath(s - {q});
      p := p' + q + "a";
      forall r | r in s ensures |r| < |p| { assert r == q || r in s - {q}; }
    }
  }

  /**
   * Known before the call: all steps open exactly `edit` exactly if the first turn does and either there is no rerun, or
   * the target files are `edit` and no stall retry can add to them.
   */
  lemma {:induction false} OpensOnlyExactly(edit: FileSet, usePkg: bool, fnames: FileSet, targets0: FileSet, retryEnabled: bool,
                                            maxTurns: int)
    ensures AlwaysOpensOnly(edit, usePkg, fnames, targets0, retryEnabled, maxTurns) <==>
              && (if usePkg then fnames else targets0) == edit
              && (!usePkg || maxTurns <= 1 || (targets0 == edit && !retryEnabled))
  {
    hide Run;
    if AlwaysOpensOnly(edit, usePkg, fnames, targets0, retryEnabled, maxTurns) {
      SingleRuns(usePkg, fnames, targets0, retryEnabled, maxTurns);
      if usePkg && maxTurns > 1 {
        PairRuns(fnames, targets0, targets0, retryEnabled, maxTurns);
        if retryEnabled {
          var p := FreshPath(targets0);
          PairRuns(fnames, targets0, targets0 + {p}, retryEnabled, maxTurns);
        }
      }
    } else {
      var ts, e :| Delegation(ts, e, usePkg, fnames, targets0, retryEnabled, maxTurns) && !OpensOnly(e, edit);
      var i, f :| 0 <= i < |e.edited| && f in e.edited[i] && f != edit;
      TurnOpens(ts, e, usePkg, fnames, targets0, retryEnabled, i, f);
      if i > 0 { RerunOpensTargets(ts, e, usePkg, fnames, targets0, retryEnabled, i, f); }
    }
  }

  /** What `OpensOnlyExactly` asks of the inputs of a delegation with a spec and its context package. */
  predicate TargetsAreEdits(c: Contract, targetFiles: seq<string>, autoMerge: bool, norm: string -> string, placeholder: string -> bool) {
    TargetsOf(c, targetFiles, autoMerge, norm, placeholder) == EditSet(c)
  }

  /** The package of the first turn opens the spec's edit files; all turns do exactly under this condition on the inputs. */
  lemma {:induction false} EditableExactly(c: Contract, names: seq<string>, targetFiles: seq<string>, autoMerge: bool,
                                           norm: string -> string, placeholder: string -> bool, retryEnabled: bool, maxTurns: int)
    requires !c.NoContract? && IsSorted(names, Elements(c.p.filesEdit))
    ensures AlwaysOpensOnly(EditSet(c), true, Elements(names), TargetsOf(c, targetFiles, autoMerge, norm, placeholder), retryEnabled,
                            maxTurns) <==>
              maxTurns <= 1 || (TargetsAreEdits(c, targetFiles, autoMerge, norm, placeholder) && !retryEnabled)
  {
    hide AlwaysOpensOnly, TargetsOf;
    assert Elements(names) == EditSet(c);
    OpensOnlyExactly(EditSet(c), true, Elements(names), TargetsOf(c, targetFiles, autoMerge, norm, placeholder), retryEnabled, maxTurns);
  }

  /**
   * For a spec that does not read what it edits, the target files are its edit files exactly if the host named these
   * and no read file was merged in.
   */
  lemma {:induction false} TargetsAreEditsExactly(c: Contract, targetFiles: seq<string>, autoMerge: bool, norm: string -> string,
                                                  placeholder: string -> bool)
    requires !c.NoContract? && c.p.allPaths != [] && Readable(c.p.filesRead, norm, placeholder) !! EditSet(c)
    ensures TargetsAreEdits(c, targetFiles, autoMerge, norm, placeholder) <==>
              && Normalized(targetFiles, norm) == EditSet(c)
              && (!(c.FromSpec? && autoMerge) || forall p :: p in c.p.filesRead ==> placeholder(p))
  {
    var readable := Readable(c.p.filesRead, norm, placeholder);
    forall p | p in c.p.filesRead && !placeholder(p) ensures norm(p) in readable {}
    if forall p :: p in c.p.filesRead ==> placeholder(p) { assert readable == {}; }
    if readable != {} {
      var x :| x in readable;
      assert x in TargetsOf(c, [], true, norm, placeholder) || !c.FromSpec?;
    }
  }

  /** A spec that edits a.py and reads b.py. */
  function ReadingSpec(): Contract { FromSpec(Policies(["a.py"], ["b.py"], [], ["a.py", "b.py"])) }

  /** With the host naming a.py and read files merged, every rerun of it may edit b.py, stall retries or not. */
  lemma {:induction false} RerunEditsReadFile(norm: string -> string, placeholder: string -> bool, fnames: FileSet,
                                              retryEnabled: bool, maxTurns: int)
    requires norm("a.py") == "a.py" && norm("b.py") == "b.py" && !placeholder("b.py") && maxTurns > 1
    ensures EditSet(ReadingSpec()) == {"a.py"} && ReadingSpec().p.filesRead == ["b.py"]
    ensures var targets := TargetsOf(ReadingSpec(), ["a.py"], true, norm, placeholder);
            && targets == {"a.py", "b.py"}
            && (forall ts, e, f :: Delegation(ts, e, true, fnames, targets, retryEnabled, maxTurns) && |ts| > 1 && f in e.edited[1]
                  ==> "b.py" in f)
            && (exists ts, e :: Delegation(ts, e, true, fnames, targets, retryEnabled, maxTurns) && |ts| > 1 && e.edited[1] != [])
  {
    hide Run;
    var targets := TargetsOf(ReadingSpec(), ["a.py"], true, norm, placeholder);
    var c := ReadingSpec();
    assert c.p.filesEdit == ["a.py"] && c.p.filesRead == ["b.py"] && "b.py" in c.p.filesRead && "a.py" in ["a.py"];
    assert Readable(c.p.filesRead, norm, placeholder) == {"b.py"} && Normalized(["a.py"], norm) == {"a.py"};
    assert targets == {"a.py", "b.py"};
    forall ts, e, f | Delegation(ts, e, true, fnames, targets, retryEnabled, maxTurns) && |ts| > 1 && f in e.edited[1]
      ensures "b.py" in f
    {
      RerunOpensTargets(ts, e, true, fnames, targets, retryEnabled, 1, f);
    }
    PairRuns(fnames, targets, targets, retryEnabled, maxTurns);
    var ts :| |ts| == 2 && Delegation(ts, Pair(fnames, targets, targets), true, fnames, targets, retryEnabled, maxTurns);
    assert Pair(fnames, targets, targets).edited[1] == [targets];
  }
}
