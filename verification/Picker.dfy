/** Ranking candidate files: `pick_candidate_files` of core/context/file_picker.py. */
module Picker {
  import opened Sequences
  import opened Sorting
  import opened Text
  import opened Paths
  import opened ContextCompiler

  // ---------------------------------------------------------------- lists without repetitions

  /** The first occurrences, in order. */
  function Dedup(xs: seq<string>): (r: seq<string>)
    ensures NoDup(r)
    ensures forall x :: x in r <==> x in xs
  {
    if xs == [] then []
    else
      var n := |xs| - 1;
      assert xs == xs[..n] + [xs[n]];
      if xs[n] in xs[..n] then Dedup(xs[..n]) else Dedup(xs[..n]) + [xs[n]]
  }

  lemma {:induction false} DedupPrefix(xs: seq<string>, ys: seq<string>)
    ensures Dedup(xs) <= Dedup(xs + ys)
    decreases |ys|
  {
    if ys == [] {
      assert xs + ys == xs;
    } else {
      var n := |ys| - 1;
      assert (xs + ys)[..|xs + ys| - 1] == xs + ys[..n];
      DedupPrefix(xs, ys[..n]);
    }
  }

  lemma {:induction false} DedupStep(xs: seq<string>, x: string)
    ensures Dedup(xs + [x]) == if x in Dedup(xs) then Dedup(xs) else Dedup(xs) + [x]
  {
    assert (xs + [x])[..|xs|] == xs;
  }

  lemma {:induction false} DedupCount(xs: seq<string>)
    requires NoDup(xs)
    ensures |Elements(xs)| == |xs|
  {
    if xs != [] {
      var n := |xs| - 1;
      DedupCount(xs[..n]);
      assert Elements(xs) == Elements(xs[..n]) + {xs[n]};
      assert xs[n] !in xs[..n];
    }
  }

  function Take(xs: seq<string>, n: nat): (r: seq<string>)
    ensures r <= xs && |r| == Min(n, |xs|)
  {
    if |xs| <= n then xs else xs[..n]
  }

  // ---------------------------------------------------------------- data

  datatype Source = SpecEdit | SpecRead | Hint | WorkspaceRag | SymbolScan

  datatype Candidates = Candidates(
    ranked: seq<string>,
    edit: seq<string>,
    read: seq<string>,
    discovered: seq<string>,
    suggested: seq<string>,
    sources: map<string, Source>)

  /** What is searched: the spec's contract, planner hints, workspace retrieval, and the hits of each symbol. */
  datatype Request = Request(
    policies: Policies,
    discover: bool,
    targets: seq<string>,
    rag: seq<string>,
    symbols: seq<string>,
    hits: map<string, seq<string>>,
    cap: nat)
  {
    function Hits(symbol: string): seq<string> { if symbol in hits then hits[symbol] else [] }
  }

  /** Non-empty normalized paths outside the contract. */
  function Outside(paths: seq<string>, contract: set<string>, normalize: string -> string): seq<string> {
    Filter(Map(paths, normalize), p => p != "" && p !in contract)
  }

  /** The hits of the symbols, in scan order. */
  function AllHits(q: Request, n: nat): seq<string>
    requires n <= |q.symbols|
  {
    if n == 0 then [] else AllHits(q, n - 1) + q.Hits(q.symbols[n - 1])
  }

  /** The hits that are not known yet, each once, in scan order. */
  function Unseen(hits: seq<string>, known: set<string>): seq<string> {
    Dedup(Filter(hits, p => p !in known))
  }

  /** The hits are those of the symbols, of each all that are given. */
  lemma {:induction false} HitsMean(q: Request, n: nat)
    requires n <= |q.symbols|
    ensures forall p :: p in AllHits(q, n) <==> exists i :: 0 <= i < n && q.symbols[i] in q.hits && p in q.hits[q.symbols[i]]
  {
    if n > 0 { HitsMean(q, n - 1); }
  }

  // ---------------------------------------------------------------- symbol queries

  const MAX_SYMBOL_QUERIES := 20
  const MIN_SYMBOL_LENGTH := 3
  const STOPWORDS := {
    "the", "and", "for", "not", "with", "this", "that", "from", "into", "are", "was", "were", "has", "have", "had", "but",
    "all", "any", "test", "tests", "file", "files", "path", "paths", "spec", "task", "code", "data", "list", "dict", "str",
    "int", "bool", "none", "true", "false", "def", "class", "import", "return", "self", "new", "old", "use", "uses", "via",
    "per", "see", "etc", "may"
  }
  const EXTENSIONS := [".py", ".md", ".yaml", ".yml", ".json", ".toml"]

  predicate IsLetter(c: char) { 'a' <= c <= 'z' || 'A' <= c <= 'Z' || c == '_' }

  predicate IsIdentifier(s: string) {
    s != "" && IsLetter(s[0]) && forall c :: c in s ==> IsLetter(c) || '0' <= c <= '9' || c == '.'
  }

  function Lower(s: string): string {
    if s == "" then ""
    else [if 'A' <= s[0] <= 'Z' then s[0] - 'A' + 'a' else s[0]] + Lower(s[1..])
  }

  function DropParens(s: string): string {
    if s != "" && s[|s| - 1] in {'(', ')'} then DropParens(s[..|s| - 1]) else s
  }

  predicate IsQuery(sym: string) {
    |sym| >= MIN_SYMBOL_LENGTH && IsIdentifier(sym) && Lower(sym) !in STOPWORDS
  }

  predicate HasExtension(s: string) {
    exists k :: 0 <= k < |EXTENSIONS| && |EXTENSIONS[k]| <= |s| && s[|s| - |EXTENSIONS[k]|..] == EXTENSIONS[k]
  }

  /** The candidates among backtick contents: not file names, without call parentheses. */
  function Backticked(matches: seq<string>): seq<string> {
    Filter(Map(matches, (m: string) => DropParens(Strip(m))), s => !HasExtension(s))
  }

  /** The queries of a list of candidates, each once, in order. */
  function Queries(candidates: seq<string>): seq<string> {
    Dedup(Filter(Map(candidates, Strip), IsQuery))
  }

  lemma {:induction false} QueriesStep(candidates: seq<string>, c: string)
    ensures Queries(candidates + [c])
         == if IsQuery(Strip(c)) && Strip(c) !in Queries(candidates) then Queries(candidates) + [Strip(c)] else Queries(candidates)
  {
    assert Map(candidates + [c], Strip) == Map(candidates, Strip) + [Strip(c)];
    FilterAppend(Map(candidates, Strip), [Strip(c)], IsQuery);
    assert [Strip(c)][1..] == [];
    var before := Filter(Map(candidates, Strip), IsQuery);
    if IsQuery(Strip(c)) { DedupStep(before, Strip(c)); } else { assert before + [] == before; }
  }

  lemma {:induction false} QueriesPrefix(candidates: seq<string>, more: seq<string>)
    ensures Queries(candidates) <= Queries(candidates + more)
  {
    hide IsQuery, Dedup, Filter, Map, Strip;
    assert Map(candidates + more, Strip) == Map(candidates, Strip) + Map(more, Strip);
    FilterAppend(Map(candidates, Strip), Map(more, Strip), IsQuery);
    DedupPrefix(Filter(Map(candidates, Strip), IsQuery), Filter(Map(more, Strip), IsQuery));
  }

  /** Adds candidates until the cap is reached. */
  method AddQueries(queries0: seq<string>, ghost done: seq<string>, candidates: seq<string>) returns (queries: seq<string>)
    requires queries0 == Take(Queries(done), MAX_SYMBOL_QUERIES)
    ensures queries == Take(Queries(done + candidates), MAX_SYMBOL_QUERIES)
  {
    hide Queries, IsQuery;
    queries := queries0;
    assert done + candidates[..0] == done;
    for i := 0 to |candidates|
      invariant queries == Take(Queries(done + candidates[..i]), MAX_SYMBOL_QUERIES)
    {
      ghost var before := done + candidates[..i];
      if |queries| >= MAX_SYMBOL_QUERIES {
        QueriesPrefix(before, candidates[i..]);
        assert before + candidates[i..] == done + candidates;
        return;
      }
      QueriesStep(before, candidates[i]);
      assert done + candidates[..i + 1] == before + [candidates[i]];
      var sym := Strip(candidates[i]);
      if IsQuery(sym) && sym !in queries {
        queries := queries + [sym];
      }
    }
    assert candidates[..|candidates|] == candidates;
  }

  /** `extract_symbol_queries`, from the matches of its two patterns: the first distinct queries. */
  method ExtractSymbolQueries(backticks: seq<string>, definitions: seq<string>) returns (queries: seq<string>)
    ensures queries == Take(Queries(Backticked(backticks) + definitions), MAX_SYMBOL_QUERIES)
    ensures NoDup(queries) && |queries| <= 20 && forall s :: s in queries ==> s in Queries(Backticked(backticks) + definitions)
    ensures |queries| < 20 ==> forall s :: s in Queries(Backticked(backticks) + definitions) ==> s in queries
  {
    hide IsQuery, Backticked, Queries;
    var candidates := Backticked(backticks);
    assert [] + candidates == candidates;
    QueriesValid([]);
    queries := AddQueries([], [], candidates);
    queries := AddQueries(queries, candidates, definitions);
    QueriesValid(candidates + definitions);
  }

  lemma {:induction false} LowerMeans(s: string)
    ensures |Lower(s)| == |s|
    ensures forall k :: 0 <= k < |s| ==> Lower(s)[k] == if 'A' <= s[k] <= 'Z' then s[k] - 'A' + 'a' else s[k]
  {
    if s != "" { LowerMeans(s[1..]); }
  }

  lemma {:induction false} ParensDropped(s: string)
    ensures DropParens(s) <= s && forall k :: |DropParens(s)| <= k < |s| ==> s[k] == '(' || s[k] == ')'
    ensures DropParens(s) != "" ==> DropParens(s)[|DropParens(s)| - 1] != '(' && DropParens(s)[|DropParens(s)| - 1] != ')'
  {
    if s != "" && s[|s| - 1] in {'(', ')'} { ParensDropped(s[..|s| - 1]); }
  }

  lemma {:induction false} ExtensionMeans(s: string)
    ensures HasExtension(s) <==> exists x, e :: s == x + e && e in [".py", ".md", ".yaml", ".yml", ".json", ".toml"]
  {
    if HasExtension(s) {
      var k :| 0 <= k < |EXTENSIONS| && |EXTENSIONS[k]| <= |s| && s[|s| - |EXTENSIONS[k]|..] == EXTENSIONS[k];
      assert s == s[..|s| - |EXTENSIONS[k]|] + EXTENSIONS[k];
    }
    forall x, e | s == x + e && e in EXTENSIONS ensures HasExtension(s) {
      var k :| 0 <= k < |EXTENSIONS| && EXTENSIONS[k] == e;
      assert s[|x|..] == e;
    }
  }

  /**
   * Every query is at least three characters long, begins with a letter or an underscore, has only these, digits and dots,
   * and is no stopword in any case.
   */
  lemma {:induction false} QueryMeans(candidates: seq<string>, query: string)
    requires query in Queries(candidates)
    ensures |query| >= 3 && Lower(query) !in STOPWORDS
    ensures 'a' <= query[0] <= 'z' || 'A' <= query[0] <= 'Z' || query[0] == '_'
    ensures forall k :: 0 <= k < |query| ==>
              'a' <= query[k] <= 'z' || 'A' <= query[k] <= 'Z' || query[k] == '_' || '0' <= query[k] <= '9' || query[k] == '.'
  {
    hide Strip, Lower, IsIdentifier;
    assert IsQuery(query);
    IdentifierMeans(query);
  }

  /** It stands between backticks, where file names are not taken, or in a definition. */
  lemma {:induction false} QueryComesFrom(backticks: seq<string>, definitions: seq<string>, query: string)
    requires query in Queries(Backticked(backticks) + definitions)
    ensures || (exists d :: d in definitions && query == Strip(d))
            || (exists b :: b in backticks && query == Strip(DropParens(Strip(b))) && !HasExtension(DropParens(Strip(b))))
  {
    hide Strip, DropParens, HasExtension, IsQuery, Backticked;
    var candidates := Backticked(backticks) + definitions;
    var i :| 0 <= i < |candidates| && Map(candidates, Strip)[i] == query;
    assert query == Strip(candidates[i]);
    hide Queries, Map, Filter;
    if i < |Backticked(backticks)| {
      var c := Backticked(backticks)[i];
      assert c == candidates[i] && c in Backticked(backticks);
      var b := BetweenBackticks(backticks, c);
    } else {
      assert definitions[i - |Backticked(backticks)|] in definitions;
    }
  }

  lemma {:induction false} BetweenBackticks(backticks: seq<string>, c: string) returns (b: string)
    requires c in Backticked(backticks)
    ensures b in backticks && c == DropParens(Strip(b)) && !HasExtension(c)
  {
    hide Strip, DropParens, HasExtension;
    var cs := Map(backticks, (m: string) => DropParens(Strip(m)));
    var k :| 0 <= k < |cs| && cs[k] == c;
    b := backticks[k];
  }

  lemma {:induction false} IdentifierMeans(s: string)
    requires IsIdentifier(s)
    ensures s != "" && ('a' <= s[0] <= 'z' || 'A' <= s[0] <= 'Z' || s[0] == '_')
    ensures forall k :: 0 <= k < |s| ==>
              'a' <= s[k] <= 'z' || 'A' <= s[k] <= 'Z' || s[k] == '_' || '0' <= s[k] <= '9' || s[k] == '.'
  {
    assert forall k :: 0 <= k < |s| ==> s[k] in s;
  }

  /** And every such candidate is a query. */
  lemma {:induction false} QueryIs(candidates: seq<string>, c: string)
    requires c in candidates && var s := Strip(c);
             && |s| >= 3 && Lower(s) !in STOPWORDS && ('a' <= s[0] <= 'z' || 'A' <= s[0] <= 'Z' || s[0] == '_')
             && forall k :: 0 <= k < |s| ==>
                  'a' <= s[k] <= 'z' || 'A' <= s[k] <= 'Z' || s[k] == '_' || '0' <= s[k] <= '9' || s[k] == '.'
    ensures Strip(c) in Queries(candidates)
  {
    hide Lower;
    var s := Strip(c);
    assert IsIdentifier(s) by { assert forall x :: x in s ==> exists k :: 0 <= k < |s| && s[k] == x; }
    hide Strip;
    var i :| 0 <= i < |candidates| && candidates[i] == c;
    assert Map(candidates, Strip)[i] == s;
    assert s in Map(candidates, Strip);
  }

  lemma {:induction false} QueriesValid(candidates: seq<string>)
    ensures NoDup(Queries(candidates)) && forall s :: s in Queries(candidates) ==> IsQuery(s)
    ensures candidates == [] ==> Queries(candidates) == []
  {
    hide IsQuery;
  }

  // ---------------------------------------------------------------- the symbol scan

  lemma {:induction false} UnseenStep(hits: seq<string>, hit: string, known: set<string>)
    ensures Unseen(hits + [hit], known)
         == if hit in known || hit in Unseen(hits, known) then Unseen(hits, known) else Unseen(hits, known) + [hit]
  {
    var before, after := Filter(hits, p => p !in known), Filter(hits + [hit], p => p !in known);
    FilterAppend(hits, [hit], p => p !in known);
    assert [hit][1..] == [];
    if hit in known {
      assert after == before + [] == before;
    } else {
      assert after == before + [hit];
      assert after[..|before|] == before;
    }
  }

  lemma {:induction false} UnseenPrefix(hits: seq<string>, more: seq<string>, known: set<string>)
    ensures Unseen(hits, known) <= Unseen(hits + more, known)
  {
    FilterAppend(hits, more, p => p !in known);
    DedupPrefix(Filter(hits, p => p !in known), Filter(more, p => p !in known));
  }

  /** The first `room` fresh hits. */
  ghost function Found(hits: seq<string>, known: set<string>, room: nat): set<string> {
    Elements(Take(Unseen(hits, known), room))
  }

  /** What one more hit changes, with `rag` already counted against the cap. */
  lemma {:induction false} FoundStep(hits: seq<string>, hit: string, known: set<string>, rag: seq<string>, cap: nat)
    requires NoDup(rag) && forall p :: p in rag ==> p in known
    ensures var room := Max(0, cap - |rag|);
            var found := Found(hits, known, room);
            if hit in known || hit in Elements(rag) + found then Found(hits + [hit], known, room) == found
            else |Elements(rag) + found| < cap ==> Found(hits + [hit], known, room) == found + {hit}
  {
    var room := Max(0, cap - |rag|);
    hide Unseen;
    UnseenStep(hits, hit, known);
    UnseenNew(hits, known);
    Counted(rag, Unseen(hits, known), room, known);
    var unseen := Unseen(hits, known);
    if hit !in known && hit !in Take(unseen, room) && |Elements(rag) + Found(hits, known, room)| < cap {
      assert |unseen| < room;
      assert Elements(unseen + [hit]) == Elements(unseen) + {hit};
    } else if hit !in known && hit in Take(unseen, room) {
      assert hit in unseen;
    }
  }

  /** Once the cap is reached, further hits change nothing. */
  lemma {:induction false} FoundFull(hits: seq<string>, more: seq<string>, known: set<string>, rag: seq<string>, cap: nat)
    requires NoDup(rag) && forall p :: p in rag ==> p in known
    requires |Elements(rag) + Found(hits, known, Max(0, cap - |rag|))| >= cap
    ensures Found(hits + more, known, Max(0, cap - |rag|)) == Found(hits, known, Max(0, cap - |rag|))
  {
    var room := Max(0, cap - |rag|);
    hide Unseen;
    UnseenNew(hits, known);
    UnseenPrefix(hits, more, known);
    Counted(rag, Unseen(hits, known), room, known);
    assert Take(Unseen(hits + more, known), room) == Take(Unseen(hits, known), room);
  }

  /** The hits of one symbol. */
  method ScanHits(hits: seq<string>, known: set<string>, cap: nat, discovered0: set<string>, found0: set<string>,
                  ghost before: seq<string>, ghost rag: seq<string>)
    returns (discovered: set<string>, found: set<string>)
    requires NoDup(rag) && forall p :: p in rag ==> p in known
    requires found0 == Found(before, known, Max(0, cap - |rag|)) && discovered0 == Elements(rag) + found0
    ensures found == Found(before + hits, known, Max(0, cap - |rag|)) && discovered == Elements(rag) + found
  {
    hide Found;
    ghost var room := Max(0, cap - |rag|);
    discovered, found := discovered0, found0;
    assert before + hits[..0] == before;
    for j := 0 to |hits|
      invariant found == Found(before + hits[..j], known, room)
      invariant discovered == Elements(rag) + found
    {
      var hit := hits[j];
      assert before + hits[..j + 1] == (before + hits[..j]) + [hit];
      FoundStep(before + hits[..j], hit, known, rag, cap);
      if hit in known || hit in discovered {
        continue;
      }
      if |discovered| >= cap {
        FoundFull(before + hits[..j], hits[j..], known, rag, cap);
        assert (before + hits[..j]) + hits[j..] == before + hits;
        return;
      }
      discovered := discovered + {hit};
      found := found + {hit};
    }
    assert before + hits[..|hits|] == before + hits;
  }

  /** The scan stops adding at the cap: it finds the first fresh hits that still fit. */
  method ScanSymbols(q: Request, rag: seq<string>, known: set<string>) returns (found: set<string>)
    requires NoDup(rag) && forall p :: p in rag ==> p in known
    ensures found == Found(AllHits(q, |q.symbols|), known, Max(0, q.cap - |rag|))
  {
    hide Found;
    ghost var room := Max(0, q.cap - |rag|);
    var discovered := Elements(rag);
    found := {};
    FoundNone(known, room);
    for i := 0 to |q.symbols|
      invariant found == Found(AllHits(q, i), known, room)
      invariant discovered == Elements(rag) + found
    {
      discovered, found := ScanHits(q.Hits(q.symbols[i]), known, q.cap, discovered, found, AllHits(q, i), rag);
    }
  }

  lemma {:induction false} FoundNone(known: set<string>, room: nat)
    ensures Found([], known, room) == {}
  {
    UnseenNone(known);
  }

  lemma {:induction false} UnseenNone(known: set<string>)
    ensures Unseen([], known) == []
  {}

  lemma {:induction false} UnseenNew(hits: seq<string>, known: set<string>)
    ensures NoDup(Unseen(hits, known))
    ensures forall p :: p in Unseen(hits, known) <==> p in hits && p !in known
  {}

  lemma {:induction false} Counted(rag: seq<string>, unseen: seq<string>, room: nat, known: set<string>)
    requires NoDup(rag) && NoDup(unseen)
    requires forall p :: p in rag ==> p in known
    requires forall p :: p in unseen ==> p !in known
    ensures |Elements(rag) + Elements(Take(unseen, room))| == |rag| + Min(room, |unseen|)
  {
    var taken := Take(unseen, room);
    DedupCount(rag);
    DedupCount(taken);
    forall p | p in Elements(rag) ensures p !in Elements(taken) {
      assert p in known;
    }
    assert Elements(rag) !! Elements(taken);
  }

  /** At most `cap` paths are discovered, retrieval included, unless retrieval alone exceeds it. */
  lemma {:induction false} DiscoveredCapped(hits: seq<string>, known: set<string>, rag: seq<string>, cap: nat)
    requires NoDup(rag) && forall p :: p in rag ==> p in known
    ensures var found := Found(hits, known, Max(0, cap - |rag|));
            && |Elements(rag) + found| <= Max(cap, |rag|)
            && found !! known && found <= Elements(hits)
            && (|Elements(rag) + found| >= cap || forall p :: p in hits ==> p in known || p in found)
  {
    var room := Max(0, cap - |rag|);
    var unseen := Unseen(hits, known);
    hide Unseen;
    UnseenNew(hits, known);
    Counted(rag, unseen, room, known);
    if |unseen| <= room {
      forall p | p in hits ensures p in known || p in Found(hits, known, room) {
        assert p in known || p in unseen;
      }
    }
  }

  // ---------------------------------------------------------------- ranking

  /** The first list that has `p`. */
  function Level(buckets: seq<seq<string>>, p: string): (k: nat)
    requires exists k :: 0 <= k < |buckets| && p in buckets[k]
    ensures k < |buckets| && p in buckets[k] && forall j :: 0 <= j < k ==> p !in buckets[j]
    decreases |buckets|
  {
    if p in buckets[0] then 0
    else
      assert exists k :: 0 <= k < |buckets[1..]| && p in buckets[1..][k] by {
        var k :| 0 <= k < |buckets| && p in buckets[k];
        assert buckets[1..][k - 1] == buckets[k];
      }
      var k := 1 + Level(buckets[1..], p);
      assert buckets[k] == buckets[1..][k - 1];
      assert forall j :: 0 < j < k ==> buckets[j] == buckets[1..][j - 1];
      k
  }

  ghost predicate InSome(buckets: seq<seq<string>>, p: string) {
    exists k :: 0 <= k < |buckets| && p in buckets[k]
  }

  /** By first list, then by first place in that list. */
  ghost predicate Ahead(buckets: seq<seq<string>>, a: string, b: string)
    requires InSome(buckets, a) && InSome(buckets, b)
  {
    var k := Level(buckets, a);
    k < Level(buckets, b) || (b in buckets[k] && k == Level(buckets, b) && IndexOf(buckets[k], a) < IndexOf(buckets[k], b))
  }

  /** `ranked` lists every path of the lists once, each list in order, earlier lists first. */
  ghost predicate RankedBy(ranked: seq<string>, buckets: seq<seq<string>>) {
    && NoDup(ranked)
    && (forall p :: p in ranked <==> InSome(buckets, p))
    && (forall i :: 0 <= i < |ranked| ==> InSome(buckets, ranked[i]))
    && (forall i, j :: 0 <= i < j < |ranked| ==> Ahead(buckets, ranked[i], ranked[j]))
  }

  /** What has been ranked when `n` entries of list `k` are done. */
  ghost predicate RankedSoFar(ranked: seq<string>, buckets: seq<seq<string>>, k: nat, n: nat)
    requires k < |buckets| && n <= |buckets[k]|
  {
    && NoDup(ranked)
    && (forall p :: p in ranked <==> InSome(buckets[..k], p) || p in buckets[k][..n])
    && (forall i :: 0 <= i < |ranked| ==> InSome(buckets, ranked[i]))
    && (forall i, j :: 0 <= i < j < |ranked| ==> Ahead(buckets, ranked[i], ranked[j]))
  }

  method Rank(buckets: seq<seq<string>>) returns (ranked: seq<string>)
    ensures RankedBy(ranked, buckets)
  {
    hide Ahead, InSome;
    ranked := [];
    RankNothing(buckets);
    for k := 0 to |buckets|
      invariant k < |buckets| ==> RankedSoFar(ranked, buckets, k, 0)
      invariant k == |buckets| ==> RankedBy(ranked, buckets)
    {
      var bucket := buckets[k];
      for n := 0 to |bucket|
        invariant RankedSoFar(ranked, buckets, k, n)
      {
        RankStep(ranked, buckets, k, n);
        if bucket[n] !in ranked {
          ranked := ranked + [bucket[n]];
        }
      }
      RankNext(ranked, buckets, k);
    }
  }

  lemma {:induction false} RankNothing(buckets: seq<seq<string>>)
    ensures buckets == [] ==> RankedBy([], buckets)
    ensures buckets != [] ==> RankedSoFar([], buckets, 0, 0)
  {}

  lemma {:induction false} RankNext(ranked: seq<string>, buckets: seq<seq<string>>, k: nat)
    requires k < |buckets| && RankedSoFar(ranked, buckets, k, |buckets[k]|)
    ensures if k + 1 < |buckets| then RankedSoFar(ranked, buckets, k + 1, 0) else RankedBy(ranked, buckets)
  {
    hide Ahead;
    forall p ensures InSome(buckets[..k + 1], p) <==> InSome(buckets[..k], p) || p in buckets[k] {
      if InSome(buckets[..k], p) {
        var j :| 0 <= j < k && p in buckets[..k][j];
        assert buckets[..k + 1][j] == buckets[..k][j];
      }
      if p in buckets[k] { assert buckets[..k + 1][k] == buckets[k]; }
      if InSome(buckets[..k + 1], p) {
        var j :| 0 <= j < k + 1 && p in buckets[..k + 1][j];
        if j < k { assert buckets[..k][j] == buckets[j]; }
      }
    }
    assert buckets[k][..|buckets[k]|] == buckets[k];
    if k + 1 == |buckets| { assert buckets[..k + 1] == buckets; }
  }

  lemma {:induction false} RankStep(ranked: seq<string>, buckets: seq<seq<string>>, k: nat, n: nat)
    requires k < |buckets| && n < |buckets[k]| && RankedSoFar(ranked, buckets, k, n)
    ensures RankedSoFar(if buckets[k][n] in ranked then ranked else ranked + [buckets[k][n]], buckets, k, n + 1)
  {
    var p := buckets[k][n];
    assert buckets[k][..n + 1] == buckets[k][..n] + [p];
    if p !in ranked {
      assert p in buckets[k];
      assert InSome(buckets, p);
      forall i | 0 <= i < |ranked| ensures Ahead(buckets, ranked[i], p) {
        NextIsBehind(ranked[i], buckets, k, n);
      }
    }
  }

  lemma {:induction false} NextIsBehind(a: string, buckets: seq<seq<string>>, k: nat, n: nat)
    requires k < |buckets| && n < |buckets[k]|
    requires InSome(buckets[..k], a) || a in buckets[k][..n]
    requires var p := buckets[k][n]; !InSome(buckets[..k], p) && p !in buckets[k][..n]
    ensures InSome(buckets, a) && InSome(buckets, buckets[k][n]) && Ahead(buckets, a, buckets[k][n])
  {
    var p := buckets[k][n];
    assert p in buckets[k];
    assert forall j :: 0 <= j < k ==> buckets[..k][j] == buckets[j];
    assert forall m :: 0 <= m < n ==> buckets[k][..n][m] == buckets[k][m];
    if a in buckets[k][..n] { assert a in buckets[k]; }
    assert InSome(buckets, a);
    assert Level(buckets, p) == k && IndexOf(buckets[k], p) == n;
    if Level(buckets, a) == k {
      assert !InSome(buckets[..k], a);
      assert IndexOf(buckets[k], a) < n;
    }
  }

  // ---------------------------------------------------------------- picking

  function ContractSet(q: Request): set<string> { Elements(q.policies.allPaths) }

  function EditFiles(q: Request): set<string> { Elements(q.policies.filesEdit) }

  /** Planner hints outside the contract. */
  ghost function Hints(q: Request, normalize: string -> string): set<string> {
    Elements(Outside(q.targets, ContractSet(q), normalize))
  }

  /** Retrieved paths outside the contract. */
  ghost function Rag(q: Request, normalize: string -> string): seq<string> {
    Dedup(Outside(q.rag, ContractSet(q) + EditFiles(q), normalize))
  }

  ghost function Known(q: Request, normalize: string -> string): set<string> {
    ContractSet(q) + Hints(q, normalize) + Elements(Rag(q, normalize))
  }

  /** Paths found by the symbol scan alone. */
  ghost function Symbols(q: Request, normalize: string -> string): set<string> {
    Found(AllHits(q, |q.symbols|), Known(q, normalize), Max(0, q.cap - |Rag(q, normalize)|))
  }

  /** In strict mode retrieved paths that are no hints rank with the spec's read files. */
  ghost function ReadFiles(q: Request, normalize: string -> string): set<string> {
    Elements(q.policies.filesRead) + if q.discover then {} else Elements(Rag(q, normalize)) - Hints(q, normalize)
  }

  /** Where a path came from. */
  ghost function SourceOf(q: Request, normalize: string -> string, p: string): Source {
    if p in Rag(q, normalize) then WorkspaceRag
    else if p in q.policies.filesEdit then SpecEdit
    else if p in q.policies.filesRead then SpecRead
    else if p in Hints(q, normalize) then Hint
    else SymbolScan
  }

  /** The five lists in the order in which they rank. */
  ghost predicate Buckets(q: Request, normalize: string -> string, b: seq<seq<string>>) {
    && |b| == 5
    && b[0] == StableSort(q.policies.filesEdit, StrLe)
    && IsSorted(b[1], ReadFiles(q, normalize) - EditFiles(q))
    && IsSorted(b[2], Hints(q, normalize))
    && b[3] == Rag(q, normalize)
    && IsSorted(b[4], Symbols(q, normalize))
  }

  method HintPaths(q: Request, normalize: string -> string) returns (hints: seq<string>)
    ensures IsSorted(hints, Hints(q, normalize))
  {
    hints := SortedSet(Elements(Outside(q.targets, ContractSet(q), normalize)));
  }

  lemma {:induction false} OutsideStep(paths: seq<string>, p: string, contract: set<string>, normalize: string -> string)
    ensures Outside(paths + [p], contract, normalize)
         == Outside(paths, contract, normalize) + if normalize(p) == "" || normalize(p) in contract then [] else [normalize(p)]
  {
    assert Map(paths + [p], normalize) == Map(paths, normalize) + [normalize(p)];
    FilterAppend(Map(paths, normalize), [normalize(p)], n => n != "" && n !in contract);
    assert [normalize(p)][1..] == [];
  }

  method WorkspaceRagPaths(paths: seq<string>, contract: set<string>, edit: set<string>, normalize: string -> string)
    returns (kept: seq<string>)
    ensures kept == Dedup(Outside(paths, contract + edit, normalize))
  {
    hide Dedup, Outside;
    kept := [];
    NoneOutside(contract + edit, normalize);
    for i := 0 to |paths|
      invariant kept == Dedup(Outside(paths[..i], contract + edit, normalize))
    {
      assert paths[..i + 1] == paths[..i] + [paths[i]];
      OutsideStep(paths[..i], paths[i], contract + edit, normalize);
      var before := Outside(paths[..i], contract + edit, normalize);
      assert before + [] == before;
      var norm := normalize(paths[i]);
      if norm == "" || norm in contract || norm in edit {
        continue;
      }
      DedupStep(before, norm);
      if norm !in kept {
        kept := kept + [norm];
      }
    }
    assert paths[..|paths|] == paths;
  }

  lemma {:induction false} NoneOutside(contract: set<string>, normalize: string -> string)
    ensures Dedup(Outside([], contract, normalize)) == []
  {}

  /** `setdefault` for each path, or assignment when `over`. */
  method AddSources(m: map<string, Source>, paths: seq<string>, source: Source, over: bool) returns (r: map<string, Source>)
    ensures r.Keys == m.Keys + Elements(paths)
    ensures forall p :: p in r ==> r[p] == if p in paths && (over || p !in m) then source else m[p]
  {
    r := m;
    for i := 0 to |paths|
      invariant r.Keys == m.Keys + Elements(paths[..i])
      invariant forall p :: p in r ==> r[p] == if p in paths[..i] && (over || p !in m) then source else m[p]
    {
      assert paths[..i + 1] == paths[..i] + [paths[i]];
      if over || paths[i] !in r {
        r := r[paths[i] := source];
      }
    }
    assert paths[..|paths|] == paths;
  }

  method EditDirs(files: seq<string>, parent: string -> string) returns (dirs: set<string>)
    ensures forall d :: d in dirs <==> d != "" && d != "." && exists i :: 0 <= i < |files| && parent(files[i]) == d
  {
    dirs := {};
    for n := 0 to |files|
      invariant forall d :: d in dirs <==> d != "" && d != "." && exists i :: 0 <= i < n && parent(files[i]) == d
    {
      var d := parent(files[n]);
      if d != "" && d != "." { dirs := dirs + {d}; }
    }
  }

  /** `p` lies in the directory of a file the spec lets the executor edit, other than the root. */
  ghost predicate NearEdits(q: Request, parent: string -> string, p: string) {
    parent(p) != "" && parent(p) != "." && exists i :: 0 <= i < |q.policies.filesEdit| && parent(q.policies.filesEdit[i]) == parent(p)
  }

  /** `path_sources`, filled source by source. */
  method Sources(edit: seq<string>, read: seq<string>, hints: seq<string>, rag: seq<string>, symbols: seq<string>)
    returns (m: map<string, Source>)
    ensures m.Keys == Elements(edit) + Elements(read) + Elements(hints) + Elements(rag) + Elements(symbols)
    ensures forall p :: p in m ==> m[p] == if p in rag then WorkspaceRag else if p in edit then SpecEdit
                                           else if p in read then SpecRead else if p in hints then Hint else SymbolScan
  {
    m := AddSources(map[], edit, SpecEdit, true);
    m := AddSources(m, read, SpecRead, false);
    m := AddSources(m, hints, Hint, false);
    m := AddSources(m, rag, WorkspaceRag, true);
    m := AddSources(m, symbols, SymbolScan, false);
  }

  lemma {:induction false} SortedElements(xs: seq<string>, s: set<string>)
    requires IsSorted(xs, s)
    ensures Elements(xs) == s
  {}

  lemma {:induction false} RankedElements(ranked: seq<string>, b: seq<seq<string>>)
    requires |b| == 5 && RankedBy(ranked, b)
    ensures Elements(ranked) == Elements(b[0]) + Elements(b[1]) + Elements(b[2]) + Elements(b[3]) + Elements(b[4])
  {
    hide Ahead, NoDup;
    forall p ensures p in ranked <==> p in b[0] || p in b[1] || p in b[2] || p in b[3] || p in b[4] {
      assert p in ranked <==> InSome(b, p);
    }
  }

  method Collect(q: Request, normalize: string -> string) returns (hints: seq<string>, rag: seq<string>, symbols: seq<string>)
    ensures IsSorted(hints, Hints(q, normalize)) && Elements(hints) == Hints(q, normalize)
    ensures rag == Rag(q, normalize)
    ensures IsSorted(symbols, Symbols(q, normalize)) && Elements(symbols) == Symbols(q, normalize)
  {
    hide IsSorted, Rag, Hints, Found, Symbols;
    var contract := Elements(q.policies.allPaths);
    hints := HintPaths(q, normalize);
    SortedElements(hints, Hints(q, normalize));
    rag := WorkspaceRagPaths(q.rag, contract, Elements(q.policies.filesEdit), normalize);
    RagIs(q, normalize);
    var found := ScanSymbols(q, rag, contract + Elements(hints) + Elements(rag));
    SymbolsAre(q, normalize);
    symbols := SortedSet(found);
    SortedElements(symbols, found);
  }

  method RankAll(q: Request, normalize: string -> string, edit: seq<string>, read: seq<string>,
                 hints: seq<string>, rag: seq<string>, symbols: seq<string>)
    returns (ranked: seq<string>)
    requires edit == StableSort(q.policies.filesEdit, StrLe) && Elements(read) == ReadFiles(q, normalize)
    requires IsSorted(hints, Hints(q, normalize)) && rag == Rag(q, normalize) && IsSorted(symbols, Symbols(q, normalize))
    ensures Ranking(q, normalize, ranked, rag + symbols)
    ensures Elements(ranked) == Elements(edit) + Elements(read) + Elements(hints) + Elements(rag) + Elements(symbols)
  {
    hide StrLe, StableSort, IsSorted, RankedBy, Rag, Hints, Symbols;
    SortElements(q.policies.filesEdit);
    var readOnly := SortedSet(Elements(read) - EditFiles(q));
    SortedElements(readOnly, Elements(read) - EditFiles(q));
    ranked := Rank([edit, readOnly, hints, rag, symbols]);
    RankedElements(ranked, [edit, readOnly, hints, rag, symbols]);
    assert Buckets(q, normalize, [edit, readOnly, hints, rag, symbols]);
  }

  method ReadPaths(read: seq<string>, hints: seq<string>, rag: seq<string>, symbols: seq<string>) returns (all: seq<string>)
    ensures IsSorted(all, Elements(read) + Elements(hints) + Elements(rag + symbols))
    ensures Elements(all) == Elements(read) + Elements(hints) + Elements(rag) + Elements(symbols)
  {
    hide IsSorted;
    assert Elements(rag + symbols) == Elements(rag) + Elements(symbols);
    ghost var union := Elements(read) + Elements(hints) + Elements(rag + symbols);
    all := SortedSet(Elements(read) + Elements(hints) + Elements(rag + symbols) + Elements(rag));
    assert Elements(read) + Elements(hints) + Elements(rag + symbols) + Elements(rag) == union;
    SortedElements(all, union);
  }

  /** The ranked and the discovered paths of a request. */
  ghost predicate Ranking(q: Request, normalize: string -> string, ranked: seq<string>, discovered: seq<string>) {
    exists buckets :: Buckets(q, normalize, buckets) && RankedBy(ranked, buckets) && discovered == buckets[3] + buckets[4]
  }

  method PickCandidateFiles(q: Request, normalize: string -> string, parent: string -> string) returns (r: Candidates)
    ensures Ranking(q, normalize, r.ranked, r.discovered)
    ensures r.edit == StableSort(q.policies.filesEdit, StrLe)
    ensures IsSorted(r.read, ReadFiles(q, normalize) + Hints(q, normalize) + Elements(r.discovered))
    ensures IsSorted(r.suggested, if q.discover then Suggested(q, normalize, parent) else {})
    ensures r.sources.Keys == Elements(r.ranked) == Elements(r.edit) + Elements(r.read)
    ensures forall p :: p in r.sources ==> r.sources[p] == SourceOf(q, normalize, p)
  {
    hide StrLe, StableSort, IsSorted, Rag, Hints, Symbols, Ranking, SourceOf, Suggested;
    var read := q.policies.filesRead;
    var hints, rag, symbols := Collect(q, normalize);
    var sources := Sources(q.policies.filesEdit, read, hints, rag, symbols);
    var discovered := rag + symbols;
    var suggested: seq<string> := [];
    if q.discover {
      var dirs := EditDirs(q.policies.filesEdit, parent);
      SuggestedAre(q, normalize, parent, rag, symbols, dirs);
      suggested := SortedSet(set p | p in discovered && p !in rag && parent(p) in dirs);
    } else {
      read := ExtraReads(read, rag, hints);
      NothingSorted();
    }
    var edit := StableSort(q.policies.filesEdit, StrLe);
    SortElements(q.policies.filesEdit);
    var ranked := RankAll(q, normalize, edit, read, hints, rag, symbols);
    var allReads := ReadPaths(read, hints, rag, symbols);
    SourcesAre(q, normalize, hints, sources);
    r := Candidates(ranked, edit, allReads, discovered, suggested, sources);
  }

  lemma {:induction false} SourcesAre(q: Request, normalize: string -> string, hints: seq<string>, m: map<string, Source>)
    requires Elements(hints) == Hints(q, normalize)
    requires forall p :: p in m ==> m[p] == if p in Rag(q, normalize) then WorkspaceRag
                                            else if p in q.policies.filesEdit then SpecEdit
                                            else if p in q.policies.filesRead then SpecRead
                                            else if p in hints then Hint else SymbolScan
    ensures forall p :: p in m ==> m[p] == SourceOf(q, normalize, p)
  {
    hide Rag, Hints;
    forall p ensures p in hints <==> p in Hints(q, normalize) {
      assert p in Elements(hints) <==> p in hints;
    }
  }

  ghost function Suggested(q: Request, normalize: string -> string, parent: string -> string): set<string> {
    set p | p in Symbols(q, normalize) && NearEdits(q, parent, p)
  }

  lemma {:induction false} RagIs(q: Request, normalize: string -> string)
    ensures Rag(q, normalize) == Dedup(Outside(q.rag, ContractSet(q) + EditFiles(q), normalize))
    ensures NoDup(Rag(q, normalize))
  {}

  lemma {:induction false} SymbolsAre(q: Request, normalize: string -> string)
    ensures Symbols(q, normalize)
         == Found(AllHits(q, |q.symbols|), ContractSet(q) + Hints(q, normalize) + Elements(Rag(q, normalize)),
                  Max(0, q.cap - |Rag(q, normalize)|))
    ensures Symbols(q, normalize) !! Known(q, normalize)
  {
    hide Found, Rag;
    RagIs(q, normalize);
    DiscoveredCapped(AllHits(q, |q.symbols|), Known(q, normalize), Rag(q, normalize), q.cap);
  }

  lemma {:induction false} NothingSorted()
    ensures IsSorted([], {})
  {}

  lemma {:induction false} SortElements(xs: seq<string>)
    ensures Elements(StableSort(xs, StrLe)) == Elements(xs)
  {
    hide StrLe;
    StrLePreorder();
    SortSorts(xs, StrLe);
  }

  lemma {:induction false} SuggestedAre(q: Request, normalize: string -> string, parent: string -> string,
                                        rag: seq<string>, symbols: seq<string>, dirs: set<string>)
    requires rag == Rag(q, normalize) && Elements(symbols) == Symbols(q, normalize)
    requires forall d :: d in dirs <==>
               (d != "" && d != "." && exists i :: 0 <= i < |q.policies.filesEdit| && parent(q.policies.filesEdit[i]) == d)
    ensures (set p | p in rag + symbols && p !in rag && parent(p) in dirs) == Suggested(q, normalize, parent)
  {
    hide Rag, Symbols;
    SymbolsAre(q, normalize);
    forall p ensures p in rag + symbols && p !in rag <==> p in Symbols(q, normalize) {
      assert p in Elements(symbols) <==> p in symbols;
      assert p in rag ==> p in Known(q, normalize);
    }
  }

  method ExtraReads(read: seq<string>, rag: seq<string>, hints: seq<string>) returns (r: seq<string>)
    ensures Elements(r) == Elements(read) + (Elements(rag) - Elements(hints))
  {
    r := read;
    for i := 0 to |rag|
      invariant forall p :: p in r <==> p in read || (p in rag[..i] && p !in hints)
    {
      assert rag[..i + 1] == rag[..i] + [rag[i]];
      if rag[i] !in r && rag[i] !in hints {
        r := r + [rag[i]];
      }
    }
    assert rag[..|rag|] == rag;
  }

  // ---------------------------------------------------------------- what the result promises

  /**
   * Discoveries are new: never in the contract, each once, and at most `cap` unless retrieval alone exceeds it.
   * Below the cap no hit is missed.
   */
  lemma {:induction false} DiscoveriesBounded(q: Request, normalize: string -> string, ranked: seq<string>, discovered: seq<string>)
    requires Ranking(q, normalize, ranked, discovered)
    ensures NoDup(discovered) && forall p :: p in discovered ==> p !in ContractSet(q)
    ensures |discovered| <= Max(q.cap, |Rag(q, normalize)|)
    ensures |discovered| < q.cap ==> forall symbol, p :: symbol in q.symbols && symbol in q.hits && p in q.hits[symbol] ==>
              p in q.policies.allPaths || p in Hints(q, normalize) || p in discovered
    ensures forall p :: p in discovered ==>
              || p in Rag(q, normalize)
              || exists symbol :: symbol in q.symbols && symbol in q.hits && p in q.hits[symbol]
  {
    hide RankedBy, IsSorted, StableSort, Rag, Found, Symbols, Hints;
    var b :| Buckets(q, normalize, b) && RankedBy(ranked, b) && discovered == b[3] + b[4];
    RagIs(q, normalize);
    RagOutside(q, normalize);
    SymbolsAre(q, normalize);
    ScanBounded(b[3], b[4], AllHits(q, |q.symbols|), Known(q, normalize), q.cap);
    HitsMean(q, |q.symbols|);
    hide AllHits;
    forall symbol, p | symbol in q.symbols && symbol in q.hits && p in q.hits[symbol] ensures p in AllHits(q, |q.symbols|) {
      var i :| 0 <= i < |q.symbols| && q.symbols[i] == symbol;
    }
  }

  lemma {:induction false} ScanBounded(rag: seq<string>, symbols: seq<string>, hits: seq<string>, known: set<string>, cap: nat)
    requires NoDup(rag) && forall p :: p in rag ==> p in known
    requires IsSorted(symbols, Found(hits, known, Max(0, cap - |rag|)))
    ensures NoDup(rag + symbols) && |rag + symbols| <= Max(cap, |rag|)
    ensures forall p :: p in symbols ==> p !in known && p in hits
    ensures |rag + symbols| < cap ==> forall p :: p in hits ==> p in known || p in symbols
  {
    var found := Found(hits, known, Max(0, cap - |rag|));
    SortedElements(symbols, found);
    SortedMembers(symbols, found);
    DiscoveredCapped(hits, known, rag, cap);
    hide Found, IsSorted;
    DisjointNoDup(rag, symbols);
    DedupCount(rag + symbols);
    assert Elements(rag + symbols) == Elements(rag) + found;
  }

  lemma {:induction false} DisjointNoDup(xs: seq<string>, ys: seq<string>)
    requires NoDup(xs) && NoDup(ys) && forall p :: p in xs ==> p !in ys
    ensures NoDup(xs + ys)
  {
    var zs := xs + ys;
    forall i, j | 0 <= i < j < |zs| ensures zs[i] != zs[j] {
      if i < |xs| <= j { assert xs[i] in xs && ys[j - |xs|] in ys; }
    }
  }

  lemma {:induction false} RagOutside(q: Request, normalize: string -> string)
    ensures forall p :: p in Rag(q, normalize) ==> p !in ContractSet(q) && p !in EditFiles(q)
  {}

  /** The spec's edit files come first, sorted. */
  lemma {:induction false} EditsLead(q: Request, normalize: string -> string, ranked: seq<string>, discovered: seq<string>)
    requires Ranking(q, normalize, ranked, discovered)
    ensures exists k: nat :: k <= |ranked| && IsSorted(ranked[..k], EditFiles(q))
  {
    hide StrLe, Rag, Hints, Symbols, ReadFiles, StableSort, RankedBy;
    var b :| Buckets(q, normalize, b) && RankedBy(ranked, b) && discovered == b[3] + b[4];
    StrLePreorder();
    SortSorts(q.policies.filesEdit, StrLe);
    hide Buckets;
    LeadingAll(ranked, b);
    var k := Leading(ranked, b[0]);
    LeadSorted(ranked, b, k);
    assert forall p :: p in ranked[..k] <==> p in b[0];
  }

  /** How many entries at the start are in the list. */
  function Leading(ranked: seq<string>, bucket: seq<string>): (k: nat)
    ensures k <= |ranked| && (forall i :: 0 <= i < k ==> ranked[i] in bucket) && (k < |ranked| ==> ranked[k] !in bucket)
  {
    if ranked == [] || ranked[0] !in bucket then 0 else 1 + Leading(ranked[1..], bucket)
  }

  lemma {:induction false} LeadingAll(ranked: seq<string>, b: seq<seq<string>>)
    requires b != [] && RankedBy(ranked, b)
    ensures forall i :: 0 <= i < |ranked| ==> (i < Leading(ranked, b[0]) <==> ranked[i] in b[0])
  {
    var k := Leading(ranked, b[0]);
    forall i | k <= i < |ranked| ensures ranked[i] !in b[0] {
      if k < i { assert Ahead(b, ranked[k], ranked[i]); }
    }
  }

  lemma {:induction false} LeadSorted(ranked: seq<string>, b: seq<seq<string>>, k: nat)
    requires b != [] && RankedBy(ranked, b) && SortedBy(b[0], StrLe)
    requires k <= |ranked| && forall i :: 0 <= i < |ranked| ==> (i < k <==> ranked[i] in b[0])
    ensures NoDup(ranked[..k]) && SortedBy(ranked[..k], StrLe)
    ensures forall p :: p in ranked[..k] <==> p in b[0]
  {
    hide StrLe;
    forall i, j | 0 <= i < j < k ensures StrLe(ranked[i], ranked[j]) {
      assert Ahead(b, ranked[i], ranked[j]);
      assert Level(b, ranked[i]) == 0 && Level(b, ranked[j]) == 0;
    }
    forall p | p in b[0] ensures p in ranked[..k] {
      assert InSome(b, p);
      var i :| 0 <= i < |ranked| && ranked[i] == p;
      assert ranked[..k][i] == p;
    }
  }
}
