/**
 * The plan section of a brief: merged on top by core/context/helper_llm_pipeline.py,
 * cut out again by core/engine/aider_engine.py when the package is translated.
 */
module Plan {
  import opened Sequences
  import opened Text

  const PLANNER: string := "## Planner plan"
  const ARCHITECT: string := "## Architect plan"
  const RULE: string := "\n---\n"
  const SEPARATOR: string := "\n\n---\n\n"

  // ---------------------------------------------------------------- searching

  /** `pat` stands in `s` at position `i`. */
  predicate At(s: string, pat: string, i: int) {
    0 <= i <= |s| - |pat| && s[i..i + |pat|] == pat
  }

  /** `str.find`: the first position from `from` on. */
  function Find(s: string, pat: string, from: nat): (r: Option<nat>)
    ensures r.Some? ==> from <= r.value && At(s, pat, r.value) && forall j :: from <= j < r.value ==> !At(s, pat, j)
    ensures r.None? ==> forall j :: from <= j ==> !At(s, pat, j)
    decreases |s| - from
  {
    if |s| < from + |pat| then None
    else if At(s, pat, from) then Some(from)
    else Find(s, pat, from + 1)
  }

  // ---------------------------------------------------------------- operations

  function Merge(plan: string, brief: string): string {
    Strip(plan) + SEPARATOR + Strip(brief)
  }

  datatype Range = Range(start: nat, end: nat, heading: string)

  /** The first heading of a plan section. */
  function FirstHeading(text: string): (r: Option<(nat, string)>)
    ensures r.Some? ==> r.value.1 in {PLANNER, ARCHITECT} && At(text, r.value.1, r.value.0)
    ensures r.None? ==> forall i :: !At(text, PLANNER, i) && !At(text, ARCHITECT, i)
  {
    var planner, architect := Find(text, PLANNER, 0), Find(text, ARCHITECT, 0);
    if planner.Some? && (architect.None? || planner.value <= architect.value) then Some((planner.value, PLANNER))
    else if architect.Some? then Some((architect.value, ARCHITECT))
    else None
  }

  /** From the first plan heading to the next rule, or to the end. */
  function RangeIn(text: string): (r: Option<Range>)
    ensures r.Some? ==>
              && r.value.start + |r.value.heading| <= r.value.end <= |text|
              && At(text, r.value.heading, r.value.start)
              && r.value.heading in {PLANNER, ARCHITECT}
  {
    match FirstHeading(text)
    case None => None
    case Some((start, heading)) =>
      var rule := Find(text, RULE, start);
      if rule.Some? then
        RuleAfterHeading(text, heading, start, rule.value);
        Some(Range(start, rule.value, heading))
      else Some(Range(start, |text|, heading))
  }

  function SectionRange(brief: string): (r: Option<Range>)
    ensures r.Some? ==> r.value.start <= r.value.end <= |Strip(brief)|
  {
    RangeIn(Strip(brief))
  }

  /** Every line of a legacy section but the first, under the present heading. */
  function Renamed(section: string): string
    requires section != ""
  {
    Join("\n", [PLANNER] + SplitLines(section)[1..])
  }

  function Extract(brief: string): Option<string> {
    match SectionRange(brief)
    case None => None
    case Some(r) =>
      var section := Strip(Strip(brief)[r.start..r.end]);
      if r.heading == ARCHITECT then
        SectionNotBlank(brief);
        Some(Renamed(section))
      else Some(section)
  }

  function Without(brief: string): string {
    var text := Strip(brief);
    match SectionRange(text)
    case None => text
    case Some(r) =>
      TrimmedTwice(brief);
      Strip(RStrip(text[..r.start]) + "\n\n" + LStrip(text[r.end..]))
  }

  // ---------------------------------------------------------------- stripping

  lemma {:induction false} LStripOver(space: string, s: string)
    requires forall c :: c in space ==> IsSpace(c)
    ensures LStrip(space + s) == LStrip(s)
  {
    if space == "" {
      assert space + s == s;
    } else {
      assert (space + s)[1..] == space[1..] + s;
      assert IsSpace(space[0]);
      LStripOver(space[1..], s);
    }
  }

  lemma {:induction false} RStripOver(s: string, space: string)
    requires forall c :: c in space ==> IsSpace(c)
    ensures RStrip(s + space) == RStrip(s)
  {
    if space == "" {
      assert s + space == s;
    } else {
      var n := |space| - 1;
      assert IsSpace(space[n]);
      assert (s + space)[..|s + space| - 1] == s + space[..n];
      RStripOver(s, space[..n]);
    }
  }

  // ---------------------------------------------------------------- ranges

  /** No rule overlaps a heading: a heading holds no line break. */
  lemma {:induction false} RuleAfterHeading(text: string, heading: string, start: nat, rule: nat)
    requires heading in {PLANNER, ARCHITECT}
    requires At(text, heading, start) && At(text, RULE, rule) && start <= rule
    ensures start + |heading| <= rule
  {
    if rule < start + |heading| {
      assert text[rule..rule + |RULE|][0] == '\n';
      assert text[start..start + |heading|][rule - start] == '\n';
      NoBreakInHeading(heading, rule - start);
    }
  }

  lemma {:induction false} NoBreakInHeading(heading: string, k: nat)
    requires heading in {PLANNER, ARCHITECT} && k < |heading|
    ensures heading[k] != '\n'
  {}

  /** The section runs from the first heading of either kind to the first rule behind it, or to the end. */
  lemma {:induction false} SectionRangeExactly(brief: string)
    ensures var text := Strip(brief);
            match SectionRange(brief)
            case None => forall i :: !At(text, PLANNER, i) && !At(text, ARCHITECT, i)
            case Some(r) =>
              && r.heading in {PLANNER, ARCHITECT} && At(text, r.heading, r.start)
              && (forall i :: i < r.start ==> !At(text, PLANNER, i) && !At(text, ARCHITECT, i))
              && (forall j :: r.start <= j < r.end ==> !At(text, RULE, j))
              && (At(text, RULE, r.end) || (r.end == |text| && forall j :: r.start <= j ==> !At(text, RULE, j)))
  {
    hide At;
    Negatives(Strip(brief));
  }

  lemma {:induction false} Negatives(text: string)
    ensures forall i :: i < 0 ==> !At(text, PLANNER, i) && !At(text, ARCHITECT, i)
  {}

  lemma {:induction false} SectionNotBlank(brief: string)
    requires SectionRange(brief).Some?
    ensures var r := SectionRange(brief).value; Strip(Strip(brief)[r.start..r.end]) != ""
  {
    var r := SectionRange(brief).value;
    var text := Strip(brief);
    assert text[r.start..r.start + |r.heading|][0] == '#';
    StripKeeps(text[r.start..r.end], 0);
  }

  // ---------------------------------------------------------------- merging, then cutting out

  /** A line "---" of its own below the plan's first line, which would end the section early. */
  predicate Ruled(plan: string) {
    Find(Strip(plan) + "\n", RULE, 0).Some?
  }

  lemma {:induction false} RuleAt(s: string, i: int)
    ensures At(s, RULE, i) <==>
              0 <= i <= |s| - 5 && s[i] == '\n' && s[i + 1] == '-' && s[i + 2] == '-' && s[i + 3] == '-' && s[i + 4] == '\n'
  {
    if 0 <= i <= |s| - 5 {
      assert s[i..i + 5] == [s[i], s[i + 1], s[i + 2], s[i + 3], s[i + 4]];
    }
  }

  /** A rule up to the break after the plan lies within the plan and that break. */
  lemma {:induction false} RuleWithin(p: string, tail: string, i: nat)
    requires |tail| >= 2 && tail[0] == '\n' && tail[1] == '\n' && i <= |p|
    ensures At(p + tail, RULE, i) <==> At(p + "\n", RULE, i)
    ensures At(p + "\n", RULE, i) ==> i + 4 <= |p|
  {
    RuleAt(p + tail, i);
    RuleAt(p + "\n", i);
  }

  /** The first rule of a merged text: one inside the plan, else the separator's, if text follows it. */
  lemma {:induction false} FirstRule(p: string, tail: string)
    requires tail == "\n\n---" || StartsWith(tail, SEPARATOR)
    ensures var inner, found := Find(p + "\n", RULE, 0), Find(p + tail, RULE, 0);
            if inner.Some? then found == inner && inner.value + 4 <= |p|
            else found == if tail == "\n\n---" then None else Some(|p| + 1)
  {
    var inner, found := Find(p + "\n", RULE, 0), Find(p + tail, RULE, 0);
    assert StartsWith(tail, SEPARATOR) ==> tail[..|SEPARATOR|] == SEPARATOR;
    assert |tail| >= 5 && tail[0] == '\n' && tail[1] == '\n' && tail[2] == '-' && tail[3] == '-' && tail[4] == '-'
           && (|tail| > 5 ==> tail[5] == '\n');
    forall i: nat | i <= |p| ensures At(p + tail, RULE, i) <==> At(p + "\n", RULE, i) {
      RuleWithin(p, tail, i);
    }
    RuleAt(p + tail, |p| + 1);
    if inner.Some? {
      RuleAt(p + "\n", inner.value);
      RuleWithin(p, tail, inner.value);
    } else if tail == "\n\n---" {
      assert forall i :: i > |p| ==> !At(p + tail, RULE, i);
    }
  }

  /** Trimming a merged brief: with nothing below the separator its last breaks go. */
  lemma {:induction false} MergeTrimmed(plan: string, brief: string)
    requires Strip(plan) != ""
    ensures Strip(Merge(plan, brief)) == Strip(plan) + if Strip(brief) == "" then "\n\n---" else "\n\n---\n\n" + Strip(brief)
  {
    var p, b := Strip(plan), Strip(brief);
    StripTrims(plan);
    StripTrims(brief);
    var text := p + if b == "" then "\n\n---" else SEPARATOR + b;
    assert text[0] == p[0];
    TrimmedStrip(text);
    if b == "" {
      assert Merge(plan, brief) == text + "\n\n";
      TrimmedStrip(p);
      assert LStrip(text + "\n\n") == text + "\n\n";
      RStripOver(text, "\n\n");
    } else {
      assert Merge(plan, brief) == text;
    }
  }

  lemma {:induction false} LeadingHeading(text: string, heading: string)
    requires heading in {PLANNER, ARCHITECT} && StartsWith(text, heading)
    ensures FirstHeading(text) == Some((0, heading))
  {
    assert At(text, heading, 0);
    var other := if heading == PLANNER then ARCHITECT else PLANNER;
    assert heading[3] != other[3];
    assert text[3] == text[..|heading|][3];
    assert forall p: string :: |p| > 3 && At(text, p, 0) ==> text[..|p|][3] == text[3];
  }

  /** The range found in a text that begins with a plan and then the separator. */
  lemma {:induction false} LeadingRange(p: string, tail: string, heading: string)
    requires heading in {PLANNER, ARCHITECT} && StartsWith(p, heading)
    requires tail == "\n\n---" || StartsWith(tail, SEPARATOR)
    ensures var inner := Find(p + "\n", RULE, 0);
            RangeIn(p + tail) == Some(Range(
              0,
              if inner.Some? then inner.value else if tail == "\n\n---" then |p| + 5 else |p| + 1,
              heading))
  {
    assert (p + tail)[..|heading|] == p[..|heading|];
    LeadingHeading(p + tail, heading);
    FirstRule(p, tail);
  }

  lemma {:induction false} MergedRange(plan: string, brief: string, heading: string)
    requires heading in {PLANNER, ARCHITECT} && StartsWith(Strip(plan), heading)
    ensures var p, merged := Strip(plan), Merge(plan, brief);
            SectionRange(merged) == Some(Range(
              0,
              if Ruled(plan) then Find(p + "\n", RULE, 0).value
              else if Strip(brief) == "" then |p| + 5 else |p| + 1,
              heading))
  {
    var p, b := Strip(plan), Strip(brief);
    var tail := if b == "" then "\n\n---" else SEPARATOR + b;
    hide Strip, Merge, Find, RangeIn, FirstHeading;
    MergeTrimmed(plan, brief);
    StartsWithFirst(SEPARATOR, b);
    hide StartsWith;
    LeadingRange(p, tail, heading);
    assert Strip(Merge(plan, brief)) == p + tail;
  }

  lemma {:induction false} StartsWithFirst(s: string, t: string)
    ensures StartsWith(s + t, s)
  {}

  // ---------------------------------------------------------------- main results

  /** What lies in the range found in a merged brief. */
  lemma {:induction false} MergedSection(plan: string, brief: string, heading: string)
    requires heading in {PLANNER, ARCHITECT} && StartsWith(Strip(plan), heading)
    ensures var found := SectionRange(Merge(plan, brief));
            found.Some? && found.value.heading == heading
            && var section := Strip(Strip(Merge(plan, brief))[found.value.start..found.value.end]);
               if Ruled(plan) then |section| < |Strip(plan)|
               else if Strip(brief) == "" then section == Strip(plan) + "\n\n---"
               else section == Strip(plan)
  {
    var p := Strip(plan);
    MergedRange(plan, brief, heading);
    MergeTrimmed(plan, brief);
    var text := Strip(Merge(plan, brief));
    var r := SectionRange(Merge(plan, brief)).value;
    StripTrims(plan);
    TrimmedTwice(Merge(plan, brief));
    hide SectionRange, Merge, Find;
    if Ruled(plan) {
      FirstRule(p, "\n\n---");
      assert |Strip(text[..r.end])| <= r.end;
    } else if Strip(brief) == "" {
      assert text[..r.end] == text;
    } else {
      assert text[..r.end] == p + "\n";
      StripBreak(p);
    }
  }

  lemma {:induction false} StripBreak(p: string)
    requires p != "" && Trimmed(p)
    ensures Strip(p + "\n") == p
  {
    TrimmedStrip(p);
    assert LStrip(p + "\n") == p + "\n";
    RStripOver(p, "\n");
  }

  /**
   * Cutting a merged plan out again gives back the plan, exactly when a brief stands
   * below the separator and no rule stands inside the plan.
   */
  lemma {:induction false} ExtractUndoesMerge(plan: string, brief: string)
    requires StartsWith(Strip(plan), "## Planner plan")
    ensures Extract(Merge(plan, brief)) == Some(Strip(plan)) <==> Strip(brief) != "" && !Ruled(plan)
  {
    MergedSection(plan, brief, PLANNER);
  }

  /** A legacy plan comes back under the present heading, its other lines unchanged. */
  lemma {:induction false} ExtractRenamesLegacy(plan: string, brief: string)
    requires StartsWith(Strip(plan), "## Architect plan") && Strip(brief) != "" && !Ruled(plan)
    ensures Extract(Merge(plan, brief)) == Some("## Planner plan" + Trailing(SplitLines(Strip(plan))[1..]))
  {
    MergedSection(plan, brief, ARCHITECT);
    JoinTrailing(PLANNER, SplitLines(Strip(plan))[1..]);
  }

  /** Further lines, each on its own. */
  function Trailing(lines: seq<string>): string {
    if lines == [] then "" else "\n" + lines[0] + Trailing(lines[1..])
  }

  lemma {:induction false} JoinTrailing(first: string, lines: seq<string>)
    ensures Join("\n", [first] + lines) == first + Trailing(lines)
    decreases lines
  {
    assert ([first] + lines)[1..] == lines;
    if lines != [] {
      assert [lines[0]] + lines[1..] == lines;
      JoinTrailing(lines[0], lines[1..]);
    }
  }

  /** The range depends on the trimmed brief only. */
  lemma {:induction false} SameRange(brief: string)
    ensures SectionRange(Strip(brief)) == SectionRange(brief)
  {
    TrimmedTwice(brief);
  }

  lemma {:induction false} BelowRule(text: string, end: nat)
    requires Trimmed(text) && At(text, RULE, end)
    ensures Strip("\n\n" + LStrip(text[end..])) == text[end + 1..]
  {
    RuleAt(text, end);
    var rest := text[end + 1..];
    assert text[end..] == "\n" + rest;
    assert rest[0] == '-' && rest[|rest| - 1] == text[|text| - 1];
    TrimmedStrip(rest);
    LStripOver("\n", rest);
    LStripOver("\n\n", rest);
  }

  lemma {:induction false} WithoutShape(brief: string)
    requires SectionRange(brief).Some?
    ensures var text, r := Strip(brief), SectionRange(brief).value;
            Without(brief) == Strip(RStrip(text[..r.start]) + "\n\n" + LStrip(text[r.end..]))
  {
    SameRange(brief);
  }

  /** A brief that begins with its plan keeps what lies below the rule. */
  lemma {:induction false} WithoutLeadingPlan(brief: string)
    requires SectionRange(brief).Some? && SectionRange(brief).value.start == 0
    ensures Trimmed(Without(brief))
    ensures var text, end := Strip(brief), SectionRange(brief).value.end;
            At(text, RULE, end) ==> Without(brief) == text[end + 1..]
  {
    var text, end := Strip(brief), SectionRange(brief).value.end;
    WithoutShape(brief);
    StripTrims(brief);
    hide SectionRange, Without, At, Strip, LStrip;
    var kept := "\n\n" + LStrip(text[end..]);
    assert text[..0] == "";
    assert RStrip("") + "\n\n" + LStrip(text[end..]) == kept;
    StripTrims(kept);
    if At(text, RULE, end) { BelowRule(text, end); }
  }

  /** What is left of a merged brief is the brief below its rule, under the same condition. */
  lemma {:induction false} WithoutUndoesMerge(plan: string, brief: string)
    requires StartsWith(Strip(plan), PLANNER) || StartsWith(Strip(plan), ARCHITECT)
    ensures Without(Merge(plan, brief)) == "---\n\n" + Strip(brief) <==> Strip(brief) != "" && !Ruled(plan)
  {
    var p, b := Strip(plan), Strip(brief);
    var heading := if StartsWith(p, PLANNER) then PLANNER else ARCHITECT;
    var merged := Merge(plan, brief);
    hide SectionRange, Merge, Without, Strip, Find;
    MergedRange(plan, brief, heading);
    MergeTrimmed(plan, brief);
    WithoutLeadingPlan(merged);
    var text, end := Strip(merged), SectionRange(merged).value.end;
    var want := "---\n\n" + b;
    if b == "" {
      assert IsSpace(want[|want| - 1]);
    } else {
      BelowSeparator(p, b);
    }
  }

  lemma {:induction false} BelowSeparator(p: string, b: string)
    ensures var text, inner := p + SEPARATOR + b, Find(p + "\n", RULE, 0);
            var end := if inner.Some? then inner.value else |p| + 1;
            && At(text, RULE, end)
            && (text[end + 1..] == "---\n\n" + b <==> inner.None?)
  {
    FirstRule(p, SEPARATOR + b);
    assert p + SEPARATOR + b == p + (SEPARATOR + b);
    var text, inner := p + SEPARATOR + b, Find(p + "\n", RULE, 0);
    if inner.None? {
      RuleAt(text, |p| + 1);
      assert text[|p| + 2..] == SEPARATOR[2..] + b;
    } else {
      assert |text[inner.value + 1..]| > |"---\n\n" + b|;
    }
  }

  // ---------------------------------------------------------------- nothing is lost

  /** The characters of a text that are not white space. */
  function Visible(s: string): string {
    Filter(s, c => !IsSpace(c))
  }

  lemma {:induction false} VisibleSpace(space: string)
    requires forall c :: c in space ==> IsSpace(c)
    ensures Visible(space) == ""
  {
    HeadIn(Visible(space));
  }

  lemma {:induction false} VisibleAppend(s: string, t: string)
    ensures Visible(s + t) == Visible(s) + Visible(t)
  {
    FilterAppend(s, t, c => !IsSpace(c));
  }

  lemma {:induction false} VisibleLStrip(s: string)
    ensures Visible(LStrip(s)) == Visible(s)
  {
    LStripSuffix(s);
    var k := |s| - |LStrip(s)|;
    assert s == s[..k] + s[k..];
    VisibleAppend(s[..k], s[k..]);
    VisibleSpace(s[..k]);
    hide Visible;
  }

  lemma {:induction false} VisibleRStrip(s: string)
    ensures Visible(RStrip(s)) == Visible(s)
  {
    RStripPrefix(s);
    var k := |RStrip(s)|;
    assert s == s[..k] + s[k..];
    VisibleAppend(s[..k], s[k..]);
    forall c | c in s[k..] ensures IsSpace(c) {}
    VisibleSpace(s[k..]);
    hide Visible;
  }

  lemma {:induction false} VisibleStrip(s: string)
    ensures Visible(Strip(s)) == Visible(s)
  {
    hide Visible;
    VisibleLStrip(s);
    VisibleRStrip(LStrip(s));
  }

  lemma {:induction false} VisibleJoined(above: string, below: string)
    ensures Visible(Strip(RStrip(above) + "\n\n" + LStrip(below))) == Visible(above) + Visible(below)
  {
    var l, r := RStrip(above), LStrip(below);
    VisibleSpace("\n\n");
    hide Visible, Strip, LStrip, RStrip;
    VisibleStrip(l + "\n\n" + r);
    VisibleAppend(l + "\n\n", r);
    VisibleAppend(l, "\n\n");
    VisibleRStrip(above);
    VisibleLStrip(below);
  }

  /**
   * Whatever the brief, the section cut out and the text left over make up the brief:
   * only white space is added or dropped, and the order is kept.
   */
  lemma {:induction false} NothingLost(brief: string)
    ensures SectionRange(brief).None? ==> Visible(Without(brief)) == Visible(brief) && Extract(brief).None?
    ensures SectionRange(brief).Some? ==>
              var text, r := Strip(brief), SectionRange(brief).value;
              var above, section, below := Visible(text[..r.start]), Visible(text[r.start..r.end]), Visible(text[r.end..]);
              && Visible(brief) == above + section + below
              && Visible(Without(brief)) == above + below
              && (r.heading == PLANNER ==> Extract(brief).Some? && Visible(Extract(brief).value) == section)
  {
    hide Visible, Strip, LStrip, RStrip;
    VisibleStrip(brief);
    if SectionRange(brief).Some? {
      var text, r := Strip(brief), SectionRange(brief).value;
      VisibleParts(text, r.start, r.end);
      VisibleWithout(brief);
      if r.heading == PLANNER { VisibleExtract(brief); }
    } else {
      SameRange(brief);
    }
  }

  lemma {:induction false} VisibleParts(text: string, start: nat, end: nat)
    requires start <= end <= |text|
    ensures Visible(text) == Visible(text[..start]) + Visible(text[start..end]) + Visible(text[end..])
  {
    hide Visible;
    assert text == text[..end] + text[end..];
    VisibleAppend(text[..end], text[end..]);
    assert text[..end] == text[..start] + text[start..end];
    VisibleAppend(text[..start], text[start..end]);
  }

  lemma {:induction false} VisibleWithout(brief: string)
    requires SectionRange(brief).Some?
    ensures var text, r := Strip(brief), SectionRange(brief).value;
            Visible(Without(brief)) == Visible(text[..r.start]) + Visible(text[r.end..])
  {
    SameRange(brief);
    var text, r := Strip(brief), SectionRange(brief).value;
    hide SectionRange, Visible, Strip, LStrip, RStrip;
    VisibleJoined(text[..r.start], text[r.end..]);
  }

  lemma {:induction false} VisibleExtract(brief: string)
    requires SectionRange(brief).Some? && SectionRange(brief).value.heading == PLANNER
    ensures var text, r := Strip(brief), SectionRange(brief).value;
            Extract(brief).Some? && Visible(Extract(brief).value) == Visible(text[r.start..r.end])
  {
    var text, r := Strip(brief), SectionRange(brief).value;
    assert PLANNER != ARCHITECT by { assert PLANNER[3] != ARCHITECT[3]; }
    hide SectionRange, Visible, Strip;
    VisibleStrip(text[r.start..r.end]);
  }
}
