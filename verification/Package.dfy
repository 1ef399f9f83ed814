/** The context package: core/context/package.py. */
module Package {
  import opened Sequences

  datatype Tier = EditFull | ReadFull | ReadExcerpt | Pointer | MapOnly | Hide

  datatype Entry = Entry(path: string, tier: Tier, bytes: Option<int>, payload: Option<string>, excerptPath: Option<string>)

  datatype Truncation = Truncation(reason: string, path: string, bytesDropped: int)

  /** `overLimit` stands for the budget warning in the metadata. */
  datatype Package = Package(brief: string, entries: seq<Entry>, truncations: seq<Truncation>, overLimit: bool)

  /** What the excerpt engine makes of a file; None when the file cannot be read. */
  datatype Excerpt = Excerpt(text: string, fullBytes: int, excerptBytes: int, fullSmall: bool)

  predicate IsRead(e: Entry) { e.tier.ReadFull? || e.tier.ReadExcerpt? }

  function PathsOf(es: seq<Entry>): seq<string> { Map(es, (e: Entry) => e.path) }

  function Payloads(es: seq<Entry>): string {
    if es == [] then ""
    else (if es[0].payload.Some? then es[0].payload.value else "") + Payloads(es[1..])
  }

  function Slashes(path: string): string {
    if path == "" then "" else (if path[0] == '/' then "__" else [path[0]]) + Slashes(path[1..])
  }

  /** Every slash turns into two underscores, and nothing else changes. */
  lemma {:induction false} SlashesMean(a: string, b: string)
    requires '/' !in a
    ensures Slashes(a) == a && Slashes(a + "/" + b) == a + "__" + Slashes(b)
  {
    if a == "" {
      assert a + "/" + b == "/" + b && ("/" + b)[1..] == b;
    } else {
      assert a[0] in a && (a + "/" + b)[1..] == a[1..] + "/" + b;
      SlashesMean(a[1..], b);
    }
  }

  /** Where an excerpt is materialized, relative to the workspace. */
  function ExcerptRel(path: string): string {
    ".mcp-coder/context/excerpts/" + Slashes(path) + ".excerpt.txt"
  }
}
