/**
 * From the spec contract to the files the executor may edit: core/context/assemble.py, core/context/capability_adjust.py,
 * `_append_read_paths_to_context_package` (server/mcp_server.py) and `translate_context_package` (core/engine/aider_engine.py).
 */
module ContextCompiler {
  import opened Sequences
  import opened Sorting
  import opened Text
  import opened Package
  import opened Paths
  import opened Budget

  /** What the workspace holds at a path; `text` is None when the file is not readable as UTF-8. */
  datatype File = Missing | File(size: int, text: Option<string>)

  /** The file contract of a spec. */
  datatype Policies = Policies(filesEdit: seq<string>, filesRead: seq<string>, filesDelete: seq<string>, allPaths: seq<string>)

  /** `load_delegation_policies` builds `all_paths` as the sorted union of the three lists. */
  ghost predicate ValidPolicies(p: Policies) {
    IsSorted(p.allPaths, Elements(p.filesEdit) + Elements(p.filesRead) + Elements(p.filesDelete))
  }

  function Elements(xs: seq<string>): set<string> { set x | x in xs }

  /** Where the contract comes from: a spec file, policies without a spec, or neither. */
  datatype Contract = FromSpec(p: Policies) | FromPolicies(p: Policies) | NoContract

  function EditSet(c: Contract): set<string> {
    if c.NoContract? then {} else Elements(c.p.filesEdit)
  }

  function ContractPaths(c: Contract, hints: set<string>): set<string> {
    match c
    case FromSpec(p) => Elements(p.allPaths)
    case FromPolicies(p) => Elements(p.allPaths) + hints
    case NoContract => hints
  }

  // ----- Edit-full entries. -----

  /** Paths of the edit-full entries, in order. */
  function EditPaths(es: seq<Entry>): seq<string> {
    if es == [] then []
    else
      var n := |es| - 1;
      EditPaths(es[..n]) + (if es[n].tier.EditFull? then [es[n].path] else [])
  }

  lemma {:induction false} EditPathsAppend(xs: seq<Entry>, ys: seq<Entry>)
    ensures EditPaths(xs + ys) == EditPaths(xs) + EditPaths(ys)
  {
    if ys == [] {
      assert xs + ys == xs;
    } else {
      var n := |ys| - 1;
      assert (xs + ys)[..|xs| + n] == xs + ys[..n];
      EditPathsAppend(xs, ys[..n]);
    }
  }

  lemma {:induction false} NoEditPaths(es: seq<Entry>)
    requires forall i :: 0 <= i < |es| ==> !es[i].tier.EditFull?
    ensures EditPaths(es) == []
  {
    if es != [] { NoEditPaths(es[..|es| - 1]); }
  }

  /** Entry by entry, both edit-full with one path or both not. */
  ghost predicate SameEdits(a: seq<Entry>, b: seq<Entry>) {
    |a| == |b| && forall i :: 0 <= i < |a| ==>
      (a[i].tier.EditFull? || b[i].tier.EditFull? ==> a[i] == b[i])
  }

  lemma {:induction false} SameEditPaths(a: seq<Entry>, b: seq<Entry>)
    requires SameEdits(a, b)
    ensures EditPaths(a) == EditPaths(b)
  {
    if a != [] { SameEditPaths(a[..|a| - 1], b[..|b| - 1]); }
  }

  // ----- Assembly. -----

  function TierForPath(path: string, edit: set<string>): Tier {
    if path in edit then EditFull else ReadFull
  }

  /** One path's entry. */
  function MakeEntry(path: string, tier: Tier, file: File, excerpt: string -> Option<Excerpt>, maxFullBytes: int): Entry {
    if file.Missing? then Entry(path, tier, None, None, None)
    else
      var whole := Entry(path, tier, if file.text.Some? then Some(ByteLength(file.text.value)) else None, file.text, None);
      if tier.EditFull? then whole
      else if tier.ReadFull? then
        if file.size > maxFullBytes && excerpt(path).Some? && !excerpt(path).value.fullSmall then
          var x := excerpt(path).value;
          Entry(path, ReadExcerpt, Some(x.excerptBytes), Some(x.text), Some(ExcerptRel(path)))
        else whole
      else Entry(path, tier, None, None, None)
  }

  /** The tier map filled from the contract. */
  method ContractTiers(paths: seq<string>, edit: set<string>) returns (tiers: map<string, Tier>)
    ensures tiers.Keys == Elements(paths)
    ensures forall p :: p in paths ==> tiers[p] == TierForPath(p, edit)
  {
    tiers := map[];
    for n := 0 to |paths|
      invariant tiers.Keys == Elements(paths[..n])
      invariant forall p :: p in tiers ==> tiers[p] == TierForPath(p, edit)
    {
      assert paths[..n + 1] == paths[..n] + [paths[n]];
      tiers := tiers[paths[n] := TierForPath(paths[n], edit)];
    }
    assert paths[..|paths|] == paths;
  }

  /** Discovered paths join as read context unless the contract already has them. */
  method AddDiscovered(tiers0: map<string, Tier>, discovered: seq<string>) returns (tiers: map<string, Tier>)
    ensures tiers.Keys == tiers0.Keys + Elements(discovered)
    ensures forall p :: p in tiers ==> tiers[p] == if p in tiers0 then tiers0[p] else ReadFull
  {
    tiers := tiers0;
    for n := 0 to |discovered|
      invariant tiers.Keys == tiers0.Keys + Elements(discovered[..n])
      invariant forall p :: p in tiers ==> tiers[p] == if p in tiers0 then tiers0[p] else ReadFull
    {
      assert discovered[..n + 1] == discovered[..n] + [discovered[n]];
      if discovered[n] !in tiers0 { tiers := tiers[discovered[n] := ReadFull]; }
    }
    assert discovered[..|discovered|] == discovered;
  }

  ghost predicate AllMapOnly(es: seq<Entry>) {
    forall i :: 0 <= i < |es| ==> es[i].tier.MapOnly?
  }

  /** The paths an assembled package is about, each with its tier. */
  ghost predicate Assembled(pkg: Package, c: Contract, hints: set<string>, discovered: seq<string>, repoMap: seq<Entry>) {
    var all := ContractPaths(c, hints) + Elements(discovered);
    && (exists paths :: IsSorted(paths, all) && PathsOf(pkg.entries) == paths + PathsOf(repoMap))
    && IsSorted(EditPaths(pkg.entries), EditSet(c) * ContractPaths(c, hints))
  }

  /** The first entries are what the workspace holds at these paths, each in its tier. */
  ghost predicate Materialized(es: seq<Entry>, paths: seq<string>, edits: set<string>, ws: string -> File,
                               excerpt: string -> Option<Excerpt>, maxFullBytes: int) {
    && |paths| <= |es|
    && forall i :: 0 <= i < |paths| ==>
         es[i] == MakeEntry(paths[i], TierForPath(paths[i], edits), ws(paths[i]), excerpt, maxFullBytes)
  }

  /** One note for each of the first n entries that shows an excerpt instead of the file, with the bytes left out. */
  ghost predicate Noted(truncations: seq<Truncation>, es: seq<Entry>, n: nat, excerpt: string -> Option<Excerpt>) {
    && n <= |es|
    && forall t :: t in truncations <==> exists i :: 0 <= i < n && NoteOf(es[i], excerpt, t)
  }

  predicate NoteOf(e: Entry, excerpt: string -> Option<Excerpt>, t: Truncation) {
    && e.tier.ReadExcerpt? && excerpt(e.path).Some? && t.path == e.path && t.reason == "read_full_max_bytes"
    && t.bytesDropped == excerpt(e.path).value.fullBytes - excerpt(e.path).value.excerptBytes
  }

  lemma {:induction false} NotedMore(truncations: seq<Truncation>, es: seq<Entry>, e: Entry, more: seq<Truncation>,
                                     excerpt: string -> Option<Excerpt>)
    requires Noted(truncations, es, |es|, excerpt) && forall t :: t in more <==> NoteOf(e, excerpt, t)
    ensures Noted(truncations + more, es + [e], |es| + 1, excerpt)
  {
    var after := es + [e];
    hide NoteOf;
    forall t ensures t in truncations + more <==> exists i :: 0 <= i < |es| + 1 && NoteOf(after[i], excerpt, t) {
      if t in truncations {
        var i :| 0 <= i < |es| && NoteOf(es[i], excerpt, t);
        assert after[i] == es[i];
      }
      if t in more { assert after[|es|] == e; }
    }
  }

  lemma {:induction false} NotedBehind(truncations: seq<Truncation>, es: seq<Entry>, rest: seq<Entry>, excerpt: string -> Option<Excerpt>)
    requires Noted(truncations, es, |es|, excerpt)
    ensures Noted(truncations, es + rest, |es|, excerpt)
  {
    assert forall i :: 0 <= i < |es| ==> (es + rest)[i] == es[i];
  }

  /** `assemble_context`; the brief is an input. */
  method Assemble(ws: string -> File, excerpt: string -> Option<Excerpt>, maxFullBytes: int, c: Contract, hints: set<string>,
                  discovered: seq<string>, repoMap: seq<Entry>, brief: string)
    returns (pkg: Package)
    requires AllMapOnly(repoMap)
    ensures Assembled(pkg, c, hints, discovered, repoMap)
    ensures pkg.brief == brief && !pkg.overLimit && |repoMap| <= |pkg.entries| && repoMap == pkg.entries[|pkg.entries| - |repoMap|..]
    ensures exists paths :: IsSorted(paths, ContractPaths(c, hints) + Elements(discovered))
              && Materialized(pkg.entries, paths, EditSet(c) * ContractPaths(c, hints), ws, excerpt, maxFullBytes)
              && Noted(pkg.truncations, pkg.entries, |paths|, excerpt)
  {
    hide IsSorted, MakeEntry, EditPaths, Assembled, Among, PathsOf, Noted, NoteOf;
    var contract := SortedSet(ContractPaths(c, hints));
    SortedMembers(contract, ContractPaths(c, hints));
    var tiers := ContractTiers(contract, EditSet(c));
    tiers := AddDiscovered(tiers, discovered);
    var paths := SortedSet(tiers.Keys);
    SortedMembers(paths, tiers.Keys);
    var entries: seq<Entry>, truncations := [], [];
    ghost var edits := EditSet(c) * ContractPaths(c, hints);
    NothingYet(edits, paths);
    NothingNoted(excerpt);
    for n := 0 to |paths|
      invariant |entries| == n && forall i :: 0 <= i < n ==> entries[i].path == paths[i]
      invariant IsSorted(EditPaths(entries), Among(edits, paths, n))
      invariant forall i :: 0 <= i < n ==>
                  entries[i] == MakeEntry(paths[i], TierForPath(paths[i], edits), ws(paths[i]), excerpt, maxFullBytes)
      invariant Noted(truncations, entries, n, excerpt)
    {
      var path := paths[n];
      assert path in paths;
      var tier := tiers[path];
      assert tier == TierForPath(path, edits);
      MakeEntryKeeps(path, tier, ws(path), excerpt, maxFullBytes);
      var entry := MakeEntry(path, tier, ws(path), excerpt, maxFullBytes);
      OneNote(entry, tier, excerpt);
      ghost var before := truncations;
      if entry.tier != tier {
        truncations := truncations + [Truncation("read_full_max_bytes", path,
                                                 excerpt(path).value.fullBytes - excerpt(path).value.excerptBytes)];
      }
      NotedMore(before, entries, entry, truncations[|before|..], excerpt);
      assert truncations == before + truncations[|before|..];
      ExtendSorted(EditPaths(entries), edits, paths, n, tiers.Keys);
      EditPathsAppend(entries, [entry]);
      EditPathsOne(entry);
      entries := entries + [entry];
    }
    AllAmong(edits, paths);
    pkg := Package(brief, entries + repoMap, truncations, false);
    assert Elements(contract) == ContractPaths(c, hints);
    assert tiers.Keys == ContractPaths(c, hints) + Elements(discovered);
    AssembledFrom(pkg, c, hints, discovered, repoMap, entries, paths);
    assert Materialized(pkg.entries, paths, edits, ws, excerpt, maxFullBytes);
    NotedBehind(truncations, entries, repoMap, excerpt);
  }

  lemma {:induction false} NothingNoted(excerpt: string -> Option<Excerpt>)
    ensures Noted([], [], 0, excerpt)
  {}

  lemma {:induction false} OneNote(e: Entry, tier: Tier, excerpt: string -> Option<Excerpt>)
    requires e.tier != tier ==> e.tier.ReadExcerpt? && excerpt(e.path).Some?
    requires e.tier == tier ==> !e.tier.ReadExcerpt?
    ensures e.tier == tier ==> forall t :: !NoteOf(e, excerpt, t)
    ensures e.tier != tier ==>
              var x := excerpt(e.path).value;
              forall t :: NoteOf(e, excerpt, t) <==> t == Truncation("read_full_max_bytes", e.path, x.fullBytes - x.excerptBytes)
  {}

  /**
   * What an assembled entry holds: an edit file whole whatever its size; any other file whole unless it is over the limit
   * and can be excerpted, then its excerpt; nothing of a file that is missing or not text.
   */
  lemma {:induction false} EntryShows(es: seq<Entry>, paths: seq<string>, edits: set<string>, ws: string -> File,
                                      excerpt: string -> Option<Excerpt>, maxFullBytes: int, i: nat)
    requires Materialized(es, paths, edits, ws, excerpt, maxFullBytes) && i < |paths|
    ensures es[i].path == paths[i]
    ensures var (e, x) := (es[i], excerpt(paths[i]));
            match ws(paths[i])
            case Missing =>
              e.tier == (if paths[i] in edits then EditFull else ReadFull) && e.bytes == None && e.payload == None && e.excerptPath == None
            case File(size, text) =>
              if paths[i] !in edits && size > maxFullBytes && x.Some? && !x.value.fullSmall then
                && e.tier == ReadExcerpt && e.payload == Some(x.value.text) && e.bytes == Some(x.value.excerptBytes)
                && e.excerptPath == Some(".mcp-coder/context/excerpts/" + Slashes(paths[i]) + ".excerpt.txt")
              else
                && e.tier == (if paths[i] in edits then EditFull else ReadFull) && e.payload == text && e.excerptPath == None
                && e.bytes == if text.Some? then Some(ByteLength(text.value)) else None
  {}

  lemma {:induction false} AssembledFrom(pkg: Package, c: Contract, hints: set<string>, discovered: seq<string>, repoMap: seq<Entry>,
                                         entries: seq<Entry>, paths: seq<string>)
    requires AllMapOnly(repoMap) && pkg.entries == entries + repoMap
    requires IsSorted(paths, ContractPaths(c, hints) + Elements(discovered))
    requires |entries| == |paths| && forall i :: 0 <= i < |paths| ==> entries[i].path == paths[i]
    requires IsSorted(EditPaths(entries), EditSet(c) * ContractPaths(c, hints))
    ensures Assembled(pkg, c, hints, discovered, repoMap)
  {
    hide IsSorted;
    EditPathsAppend(entries, repoMap);
    NoEditPaths(repoMap);
    assert EditPaths(entries) + [] == EditPaths(entries);
    assert PathsOf(pkg.entries) == paths + PathsOf(repoMap);
  }

  /** Those of `s` among the first n paths. */
  ghost function Among(s: set<string>, paths: seq<string>, n: nat): set<string>
    requires n <= |paths|
  {
    set p | p in s && p in paths[..n]
  }

  lemma {:induction false} NothingYet(s: set<string>, paths: seq<string>)
    ensures IsSorted(EditPaths([]), Among(s, paths, 0))
  {}

  lemma {:induction false} AllAmong(s: set<string>, paths: seq<string>)
    requires forall p :: p in s ==> p in paths
    ensures Among(s, paths, |paths|) == s
  {
    assert paths[..|paths|] == paths;
  }

  lemma {:induction false} SortedMembers(xs: seq<string>, s: set<string>)
    requires IsSorted(xs, s)
    ensures NoDup(xs) && forall x :: x in xs <==> x in s
  {}

  lemma {:induction false} EditPathsOne(e: Entry)
    ensures EditPaths([e]) == if e.tier.EditFull? then [e.path] else []
  {
    assert [e][..0] == [];
  }

  lemma {:induction false} MakeEntryKeeps(path: string, tier: Tier, file: File, excerpt: string -> Option<Excerpt>, maxFullBytes: int)
    ensures var e := MakeEntry(path, tier, file, excerpt, maxFullBytes);
            && e.path == path && (e.tier.EditFull? <==> tier.EditFull?)
            && (e.tier != tier ==> e.tier.ReadExcerpt? && excerpt(path).Some?)
  {}

  lemma {:induction false} ExtendSorted(xs: seq<string>, s: set<string>, paths: seq<string>, n: nat, all: set<string>)
    requires n < |paths| && IsSorted(paths, all)
    requires IsSorted(xs, Among(s, paths, n))
    ensures IsSorted(if paths[n] in s then xs + [paths[n]] else xs + [], Among(s, paths, n + 1))
  {
    hide StrLe;
    assert paths[..n + 1] == paths[..n] + [paths[n]];
    assert xs + [] == xs;
    forall i | 0 <= i < |xs| ensures xs[i] != paths[n] && StrLe(xs[i], paths[n]) {
      assert xs[i] in xs;
      var j :| 0 <= j < n && paths[j] == xs[i];
    }
  }

  // ----- Adjustment to the backend. -----

  function Adjusted(e: Entry, excerpt: string -> Option<Excerpt>): Entry {
    if e.tier.ReadFull? && excerpt(e.path).Some? then
      var x := excerpt(e.path).value;
      Entry(e.path, ReadExcerpt, Some(x.excerptBytes), Some(x.text), Some(ExcerptRel(e.path)))
    else e
  }

  /** `apply_backend_capabilities`. */
  method ApplyCapabilities(pkg: Package, supportsReadOnly: bool, excerpt: string -> Option<Excerpt>)
    returns (r: Package, warnings: seq<string>)
    ensures if supportsReadOnly then r == pkg && warnings == []
            else r == pkg.(entries := Map(pkg.entries, (e: Entry) => Adjusted(e, excerpt)))
    ensures SameEdits(pkg.entries, r.entries) && PathsOf(r.entries) == PathsOf(pkg.entries)
    ensures !supportsReadOnly ==> warnings == Warnings(pkg.entries, |pkg.entries|, excerpt)
  {
    hide Filter, Adjusted, Map;
    AdjustedKeeps(pkg.entries, excerpt);
    warnings := [];
    if supportsReadOnly { return pkg, []; }
    var entries: seq<Entry> := [];
    for n := 0 to |pkg.entries|
      invariant entries == AdjustedPrefix(pkg.entries, n, excerpt)
      invariant warnings == Warnings(pkg.entries, n, excerpt)
    {
      var e := pkg.entries[n];
      AdjustStep(pkg.entries, n, excerpt);
      if !e.tier.ReadFull? {
        entries := entries + [e];
        continue;
      }
      match excerpt(e.path)
      case None =>
        entries := entries + [e];
        warnings := warnings + ["capability_degraded:read_only_not_supported:" + e.path + ":file_unreadable"];
      case Some(x) =>
        entries := entries + [Entry(e.path, ReadExcerpt, Some(x.excerptBytes), Some(x.text), Some(ExcerptRel(e.path)))];
        warnings := warnings + ["capability_degraded:read_only_not_supported:" + e.path];
    }
    AdjustEnd(pkg.entries, excerpt);
    if warnings == [] {
      return pkg, [];
    }
    r := pkg.(entries := entries);
  }

  function AdjustedPrefix(es: seq<Entry>, n: nat, excerpt: string -> Option<Excerpt>): seq<Entry>
    requires n <= |es|
  {
    if n == 0 then [] else AdjustedPrefix(es, n - 1, excerpt) + [Adjusted(es[n - 1], excerpt)]
  }

  function Warning(e: Entry, excerpt: string -> Option<Excerpt>): string {
    var text := "capability_degraded:read_only_not_supported:" + e.path;
    if excerpt(e.path).Some? then text else text + ":file_unreadable"
  }

  /** One warning for each full read entry, in order; it says whether the file could be read. */
  function Warnings(es: seq<Entry>, n: nat, excerpt: string -> Option<Excerpt>): seq<string>
    requires n <= |es|
  {
    if n == 0 then [] else Warnings(es, n - 1, excerpt) + if es[n - 1].tier.ReadFull? then [Warning(es[n - 1], excerpt)] else []
  }

  /**
   * For a backend without read-only files a full read file that can be read turns into its excerpt, and one that cannot
   * stays; both are warned about. Nothing else changes.
   */
  lemma {:induction false} AdjustedMeans(e: Entry, excerpt: string -> Option<Excerpt>)
    ensures e.tier != ReadFull || excerpt(e.path).None? ==> Adjusted(e, excerpt) == e
    ensures e.tier == ReadFull && excerpt(e.path).Some? ==>
              var (e', x) := (Adjusted(e, excerpt), excerpt(e.path).value);
              && e'.path == e.path && e'.tier == ReadExcerpt && e'.payload == Some(x.text) && e'.bytes == Some(x.excerptBytes)
              && e'.excerptPath == Some(".mcp-coder/context/excerpts/" + Slashes(e.path) + ".excerpt.txt")
  {}

  /** One warning for each full read file, in order, with the reason if it could not be read. */
  lemma {:induction false} WarnedAbout(es: seq<Entry>, n: nat, excerpt: string -> Option<Excerpt>, w: string)
    requires n <= |es|
    ensures w in Warnings(es, n, excerpt) <==>
              exists i :: 0 <= i < n && es[i].tier == ReadFull
                && w == "capability_degraded:read_only_not_supported:" + es[i].path
                        + if excerpt(es[i].path).None? then ":file_unreadable" else ""
  {
    if n > 0 {
      WarnedAbout(es, n - 1, excerpt, w);
      assert Warning(es[n - 1], excerpt) == "capability_degraded:read_only_not_supported:" + es[n - 1].path
                                            + if excerpt(es[n - 1].path).None? then ":file_unreadable" else "";
    }
  }

  lemma {:induction false} AdjustStep(es: seq<Entry>, n: nat, excerpt: string -> Option<Excerpt>)
    requires n < |es|
    ensures AdjustedPrefix(es, n + 1, excerpt) == AdjustedPrefix(es, n, excerpt) + [Adjusted(es[n], excerpt)]
    ensures Adjusted(es[n], excerpt)
         == if es[n].tier.ReadFull? && excerpt(es[n].path).Some?
            then Entry(es[n].path, ReadExcerpt, Some(excerpt(es[n].path).value.excerptBytes), Some(excerpt(es[n].path).value.text),
                       Some(ExcerptRel(es[n].path)))
            else es[n]
  {}

  lemma {:induction false} AdjustedAt(es: seq<Entry>, n: nat, excerpt: string -> Option<Excerpt>)
    requires n <= |es|
    ensures |AdjustedPrefix(es, n, excerpt)| == n
    ensures forall i :: 0 <= i < n ==> AdjustedPrefix(es, n, excerpt)[i] == Adjusted(es[i], excerpt)
    ensures Warnings(es, n, excerpt) == [] ==> forall i :: 0 <= i < n ==> !es[i].tier.ReadFull?
  {
    if n > 0 { AdjustedAt(es, n - 1, excerpt); }
  }

  lemma {:induction false} AdjustEnd(es: seq<Entry>, excerpt: string -> Option<Excerpt>)
    ensures AdjustedPrefix(es, |es|, excerpt) == Map(es, (e: Entry) => Adjusted(e, excerpt))
    ensures Warnings(es, |es|, excerpt) == [] ==> Map(es, (e: Entry) => Adjusted(e, excerpt)) == es
  {
    AdjustedAt(es, |es|, excerpt);
  }

  lemma {:induction false} AdjustedKeeps(es: seq<Entry>, excerpt: string -> Option<Excerpt>)
    ensures var after := Map(es, (e: Entry) => Adjusted(e, excerpt));
            SameEdits(es, after) && PathsOf(after) == PathsOf(es)
    ensures SameEdits(es, es)
  {
    var after := Map(es, (e: Entry) => Adjusted(e, excerpt));
    assert forall i :: 0 <= i < |es| ==> PathsOf(after)[i] == PathsOf(es)[i];
  }

  lemma {:induction false} BudgetedDegrades(pkg: Package, r: Package, excerpt: string -> Option<Excerpt>, budget: int)
    requires Budgeted(pkg, r, excerpt, budget)
    ensures Degrades(pkg.entries, r.entries)
  {
    hide Degrades, Staged, Estimate;
    if Estimate(pkg.brief, pkg.entries) <= budget {
      DegradesSelf(pkg.entries);
    } else {
      var k1: nat, k2: nat, k3: nat :| Staged(pkg, r, k1, k2, k3, excerpt, budget);
      BudgetDegrades(pkg, r, k1, k2, k3, excerpt, budget);
    }
  }

  lemma {:induction false} BudgetSameEdits(a: seq<Entry>, b: seq<Entry>)
    requires Degrades(a, b)
    ensures SameEdits(a, b)
  {}

  // ----- Paths a stalled executor asked for. -----

  predicate HasPath(es: seq<Entry>, p: string) { exists i :: 0 <= i < |es| && es[i].path == p }

  lemma {:induction false} HasPathAppend(es: seq<Entry>, e: Entry, p: string)
    ensures HasPath(es + [e], p) <==> HasPath(es, p) || e.path == p
  {
    if HasPath(es, p) {
      var i :| 0 <= i < |es| && es[i].path == p;
      assert (es + [e])[i].path == p;
    }
    assert (es + [e])[|es|] == e;
  }

  /** New read-full entries for paths the package does not have. */
  ghost predicate AppendsReads(before: seq<Entry>, after: seq<Entry>, paths: seq<string>) {
    && |before| <= |after| && after[..|before|] == before
    && (forall i :: |before| <= i < |after| ==> after[i].tier.ReadFull? && after[i].path in paths)
    && (forall i, j :: 0 <= i < j < |after| && |before| <= j ==> after[i].path != after[j].path)
    && (forall p :: p in paths ==> HasPath(after, p))
  }

  /** `read` gives a file's text with undecodable bytes replaced, None when there is no file to read. */
  function ReadEntry(path: string, read: string -> Option<string>): Entry {
    Entry(path, ReadFull, if read(path).Some? then Some(ByteLength(read(path).value)) else None, read(path), None)
  }

  /** `_append_read_paths_to_context_package`. */
  method AppendReadPaths(pkg: Package, paths: seq<string>, read: string -> Option<string>) returns (r: Package)
    ensures r == pkg.(entries := r.entries) && AppendsReads(pkg.entries, r.entries, paths)
    ensures forall i :: |pkg.entries| <= i < |r.entries| ==> r.entries[i] == ReadEntry(r.entries[i].path, read)
  {
    hide HasPath;
    var existing := ExistingPaths(pkg.entries);
    var entries := pkg.entries;
    for n := 0 to |paths|
      invariant forall p :: p in existing <==> HasPath(entries, p)
      invariant AppendsReads(pkg.entries, entries, paths[..n])
      invariant forall i :: |pkg.entries| <= i < |entries| ==> entries[i] == ReadEntry(entries[i].path, read)
    {
      var path := paths[n];
      assert paths[..n + 1] == paths[..n] + [path];
      if path in existing { continue; }
      var payload := read(path);
      var entry := Entry(path, ReadFull, if payload.Some? then Some(ByteLength(payload.value)) else None, payload, None);
      forall p ensures HasPath(entries + [entry], p) <==> HasPath(entries, p) || entry.path == p {
        HasPathAppend(entries, entry, p);
      }
      NotYetThere(entries, path);
      entries := entries + [entry];
      existing := existing + {path};
    }
    assert paths[..|paths|] == paths;
    r := pkg.(entries := entries);
  }

  lemma {:induction false} NotYetThere(es: seq<Entry>, p: string)
    requires !HasPath(es, p)
    ensures forall i :: 0 <= i < |es| ==> es[i].path != p
  {}

  method ExistingPaths(es: seq<Entry>) returns (existing: set<string>)
    ensures forall p :: p in existing <==> HasPath(es, p)
  {
    existing := {};
    for n := 0 to |es|
      invariant forall p :: p in existing <==> exists i :: 0 <= i < n && es[i].path == p
    {
      existing := existing + {es[n].path};
    }
  }

  // ----- Translation. -----

  /** The `fnames` of `translate_context_package`. */
  method Fnames(pkg: Package) returns (fnames: seq<string>)
    ensures fnames == StableSort(EditPaths(pkg.entries), StrLe)
  {
    var edits := [];
    for n := 0 to |pkg.entries|
      invariant edits == EditPaths(pkg.entries[..n])
    {
      assert pkg.entries[..n + 1][..n] == pkg.entries[..n];
      if pkg.entries[n].tier.EditFull? { edits := edits + [pkg.entries[n].path]; }
    }
    assert pkg.entries[..|pkg.entries|] == pkg.entries;
    fnames := StableSort(edits, StrLe);
  }

  /**
   * The whole pipeline. The builder and planner passes only replace the brief.
   * The translated package, which the first turn runs with, opens the contract's edit files for editing, all of them
   * and nothing else. Reruns do not use it: see EditableFiles.
   */
  method Compile(ws: string -> File, excerpt: string -> Option<Excerpt>, maxFullBytes: int, c: Contract, hints: set<string>,
                 discovered: seq<string>, repoMap: seq<Entry>, brief: string, planned: string, supportsReadOnly: bool,
                 budget: Option<int>, requested: seq<string>, read: string -> Option<string>)
    returns (pkg: Package, fnames: seq<string>)
    requires AllMapOnly(repoMap)
    ensures IsSorted(fnames, EditSet(c) * ContractPaths(c, hints))
    ensures !c.NoContract? && ValidPolicies(c.p) ==> IsSorted(fnames, Elements(c.p.filesEdit))
    ensures c.NoContract? ==> fnames == []
    ensures forall p :: (p in discovered || p in requested || p in hints) && p !in EditSet(c) ==> p !in fnames
    ensures forall p :: p in ContractPaths(c, hints) || p in discovered || p in requested
              ==> HasPath(pkg.entries, p)
  {
    hide StrLe, Degrades, SameEdits, EditPaths, AppendsReads, Budgeted, PathsOf;
    var start := Assemble(ws, excerpt, maxFullBytes, c, hints, discovered, repoMap, brief);
    pkg := start.(brief := planned);
    var warnings;
    pkg, warnings := ApplyCapabilities(pkg, supportsReadOnly, excerpt);
    SameEditPaths(start.entries, pkg.entries);
    var before := pkg;
    if budget.Some? {
      pkg := ApplyContextBudget(pkg, budget.value, excerpt);
      BudgetedDegrades(before, pkg, excerpt, budget.value);
    } else {
      DegradesSelf(before.entries);
    }
    BudgetSameEdits(before.entries, pkg.entries);
    SameEditPaths(before.entries, pkg.entries);
    DegradesPaths(before.entries, pkg.entries);
    var budgeted := pkg;
    pkg := AppendReadPaths(pkg, requested, read);
    AppendedEdits(budgeted.entries, pkg.entries, requested);
    AllPathsKept(start, c, hints, discovered, repoMap, budgeted.entries, pkg.entries, requested);
    fnames := Fnames(pkg);
    SortedAgain(EditPaths(pkg.entries), EditSet(c) * ContractPaths(c, hints));
    EditsInContract(c, hints);
    HeadIn(fnames);
  }

  lemma {:induction false} EditsInContract(c: Contract, hints: set<string>)
    ensures !c.NoContract? && ValidPolicies(c.p) ==> EditSet(c) * ContractPaths(c, hints) == Elements(c.p.filesEdit)
  {}

  lemma {:induction false} DegradesSelf(es: seq<Entry>)
    ensures Degrades(es, es)
  {}

  lemma {:induction false} DegradesPaths(a: seq<Entry>, b: seq<Entry>)
    requires Degrades(a, b)
    ensures PathsOf(a) == PathsOf(b)
  {}

  lemma {:induction false} AppendedEdits(a: seq<Entry>, b: seq<Entry>, paths: seq<string>)
    requires AppendsReads(a, b, paths)
    ensures EditPaths(b) == EditPaths(a)
  {
    assert b == a + b[|a|..];
    NoEditPaths(b[|a|..]);
    EditPathsAppend(a, b[|a|..]);
  }

  lemma {:induction false} SortedAgain(xs: seq<string>, s: set<string>)
    requires IsSorted(xs, s)
    ensures IsSorted(StableSort(xs, StrLe), s)
  {
    hide StrLe;
    StrLePreorder();
    SortSorts(xs, StrLe);
    SortNoDup(xs, StrLe);
  }

  lemma {:induction false} AllPathsKept(start: Package, c: Contract, hints: set<string>, discovered: seq<string>, repoMap: seq<Entry>,
                                        mid: seq<Entry>, last: seq<Entry>, requested: seq<string>)
    requires Assembled(start, c, hints, discovered, repoMap)
    requires PathsOf(mid) == PathsOf(start.entries) && AppendsReads(mid, last, requested)
    ensures forall p :: p in ContractPaths(c, hints) || p in discovered || p in requested
              ==> HasPath(last, p)
  {
    var paths :| IsSorted(paths, ContractPaths(c, hints) + Elements(discovered))
                 && PathsOf(start.entries) == paths + PathsOf(repoMap);
    forall p | p in ContractPaths(c, hints) || p in discovered ensures HasPath(last, p) {
      assert p in paths;
      var i :| 0 <= i < |paths| && paths[i] == p;
      assert PathsOf(mid)[i] == p;
      assert last[..|mid|][i] == mid[i] && last[i].path == p;
    }
  }
}
