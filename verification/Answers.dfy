/** The clarity resolver's reply: parsing numbered answers and deciding to proceed (core/engine/clarity_resolution.py). */
module Answers {
  import opened Sequences
  import opened Text

  // ---------------------------------------------------------------- numbered lines

  /** The value of a string of digits. */
  function Value(s: string): nat
    requires forall c :: c in s ==> IsDigit(c)
  {
    if s == "" then 0
    else
      var n := |s| - 1;
      assert IsDigit(s[n]);
      10 * Value(s[..n]) + (s[n] as int - '0' as int)
  }

  function LeadingDigits(s: string): (n: nat)
    ensures n <= |s|
    ensures forall c :: c in s[..n] ==> IsDigit(c)
    ensures n < |s| ==> !IsDigit(s[n])
  {
    if s == "" || !IsDigit(s[0]) then 0
    else
      var n := 1 + LeadingDigits(s[1..]);
      assert s[..n] == [s[0]] + s[1..][..n - 1];
      n
  }

  datatype Numbered = Numbered(index: nat, text: string)

  /** White space, digits, '.' or ')', white space, text. */
  function ParseLine(line: string): Option<Numbered> {
    var s := LStrip(line);
    var n := LeadingDigits(s);
    if 0 < n < |s| - 1 && s[n] in {'.', ')'} && IsSpace(s[n + 1])
    then Some(Numbered(Value(s[..n]), Strip(s[n + 1..])))
    else None
  }

  /** The parts of a numbered line. */
  ghost predicate Parts(line: string, pre: string, digits: string, sep: char, rest: string) {
    && line == pre + (digits + ([sep] + rest))
    && (forall c :: c in pre ==> IsSpace(c)) && digits != "" && (forall c :: c in digits ==> IsDigit(c))
    && (sep == '.' || sep == ')') && rest != "" && IsSpace(rest[0])
  }

  lemma {:induction false} LStripSpaces(pre: string, rest: string)
    requires (forall c :: c in pre ==> IsSpace(c)) && rest != "" && !IsSpace(rest[0])
    ensures LStrip(pre + rest) == rest
  {
    if pre == "" {
      assert pre + rest == rest;
    } else {
      assert IsSpace(pre[0]) && (pre + rest)[1..] == pre[1..] + rest;
      LStripSpaces(pre[1..], rest);
    }
  }

  lemma {:induction false} LStripPrefix(s: string)
    ensures var k := |s| - |LStrip(s)|; LStrip(s) == s[k..] && forall c :: c in s[..k] ==> IsSpace(c)
  {
    if s != "" && IsSpace(s[0]) {
      LStripPrefix(s[1..]);
      var k := |s| - |LStrip(s)|;
      assert s[..k] == [s[0]] + s[1..][..k - 1];
    }
  }

  /** A line is a numbered one exactly if it has these parts, and then says the value of its digits and the trimmed rest. */
  lemma {:induction false} ParseLineExactly(line: string)
    ensures ParseLine(line).Some? <==> exists pre, digits, sep, rest :: Parts(line, pre, digits, sep, rest)
    ensures forall pre, digits, sep, rest :: Parts(line, pre, digits, sep, rest) ==>
              ParseLine(line) == Some(Numbered(Value(digits), Strip(rest)))
  {
    forall pre, digits, sep, rest | Parts(line, pre, digits, sep, rest)
      ensures ParseLine(line) == Some(Numbered(Value(digits), Strip(rest)))
    {
      PartsParse(line, pre, digits, sep, rest);
    }
    hide Parts, ParseLine;
    if ParseLine(line).Some? { var pre, digits, sep, rest := ParsedParts(line); }
  }

  lemma {:induction false} ParsedParts(line: string) returns (pre: string, digits: string, sep: char, rest: string)
    requires ParseLine(line).Some?
    ensures Parts(line, pre, digits, sep, rest)
  {
    var s := LStrip(line);
    var n, k := LeadingDigits(s), |line| - |s|;
    LStripPrefix(line);
    hide LStrip, Strip, Value;
    pre, digits, sep, rest := line[..k], s[..n], s[n], s[n + 1..];
    assert s == digits + ([sep] + rest);
    assert line == pre + s;
  }

  lemma {:induction false} PartsParse(line: string, pre: string, digits: string, sep: char, rest: string)
    requires Parts(line, pre, digits, sep, rest)
    ensures ParseLine(line) == Some(Numbered(Value(digits), Strip(rest)))
  {
    var s := digits + ([sep] + rest);
    assert IsDigit(digits[0]);
    LStripSpaces(pre, s);
    DigitsThen(digits, [sep] + rest);
    assert s[..|digits|] == digits && s[|digits| + 1..] == rest;
  }

  // ---------------------------------------------------------------- what a block of lines says

  /** The largest number given. */
  function Highest(lines: seq<string>): nat {
    if lines == [] then 0
    else
      var n := |lines| - 1;
      match ParseLine(lines[n])
      case None => Highest(lines[..n])
      case Some(a) => Max(a.index, Highest(lines[..n]))
  }

  /** The answer to question `i`, counted from 0: the text of the last line numbered `i + 1`. */
  function TextOf(lines: seq<string>, i: nat): string {
    if lines == [] then ""
    else
      var n := |lines| - 1;
      var a := ParseLine(lines[n]);
      if a.Some? && a.value.index == i + 1 then a.value.text else TextOf(lines[..n], i)
  }

  lemma {:induction false} NoTextAbove(lines: seq<string>, i: nat)
    requires Highest(lines) <= i
    ensures TextOf(lines, i) == ""
  {
    if lines != [] { NoTextAbove(lines[..|lines| - 1], i); }
  }

  lemma {:induction false} TextTrimmed(lines: seq<string>, i: nat)
    ensures Trimmed(TextOf(lines, i))
  {
    if lines != [] {
      var n := |lines| - 1;
      var s := LStrip(lines[n]);
      if ParseLine(lines[n]).Some? { StripTrims(s[LeadingDigits(s) + 1..]); }
      TextTrimmed(lines[..n], i);
    }
  }

  /** The answers in question order; a number without a line gives an empty answer. */
  method ParseAnswersBlock(body: string, expected: int) returns (answers: seq<string>)
    ensures |answers| == if expected > 0 then Min(expected, Highest(SplitLines(body))) else Highest(SplitLines(body))
    ensures forall i :: 0 <= i < |answers| ==> answers[i] == TextOf(SplitLines(body), i)
  {
    hide SplitLines, ParseLine;
    answers := [];
    var lines := SplitLines(body);
    for k := 0 to |lines|
      invariant |answers| == Highest(lines[..k])
      invariant forall i :: 0 <= i < |answers| ==> answers[i] == TextOf(lines[..k], i)
    {
      assert lines[..k + 1][..k] == lines[..k];
      match ParseLine(lines[k]) {
        case None =>
        case Some(a) =>
          while |answers| < a.index
            invariant |answers| == Highest(lines[..k]) || Highest(lines[..k]) < |answers| <= a.index
            invariant forall i :: 0 <= i < |answers| ==> answers[i] == TextOf(lines[..k], i)
          {
            NoTextAbove(lines[..k], |answers|);
            answers := answers + [""];
          }
          if a.index >= 1 {
            answers := answers[a.index - 1 := a.text];
          }
      }
    }
    assert lines[..|lines|] == lines;
    if 0 < expected < |answers| {
      answers := answers[..expected];
    }
  }

  /** Each of `n` questions has an answer that is not blank. */
  predicate Complete(lines: seq<string>, n: nat) {
    forall i :: 0 <= i < n ==> TextOf(lines, i) != ""
  }

  /** The parsed answers pass the completeness check exactly when every number has a text. */
  lemma {:induction false} CompleteExactly(lines: seq<string>, answers: seq<string>, n: nat)
    requires |answers| == Min(n, Highest(lines))
    requires forall i :: 0 <= i < |answers| ==> answers[i] == TextOf(lines, i)
    ensures forall i :: 0 <= i < |answers| ==> Strip(answers[i]) == answers[i]
    ensures |answers| == n && (forall i :: 0 <= i < |answers| ==> answers[i] != "")
            <==> Complete(lines, n)
  {
    forall i | 0 <= i < |answers| ensures Strip(answers[i]) == answers[i] {
      TextTrimmed(lines, i);
      TrimmedStrip(answers[i]);
    }
    if |answers| < n {
      NoTextAbove(lines, n - 1);
    } else {
      forall i | 0 <= i < n && Complete(lines, n) ensures answers[i] != "" {
        assert TextOf(lines, i) != "";
      }
      if forall i :: 0 <= i < |answers| ==> answers[i] != "" {
        forall i | 0 <= i < n ensures TextOf(lines, i) != "" {
          assert answers[i] != "";
        }
      }
    }
  }

  // ---------------------------------------------------------------- the decision

  const ANSWERS := "answers"
  const ESCALATE := "escalate"

  datatype Heading = Heading(start: nat, end: nat)

  /** Equal up to case, `l` being a lower-case letter; the long s folds to s. */
  predicate SameLetter(c: char, l: char) {
    c == l || ('a' <= l <= 'z' && c == l - 'a' + 'A') || (l == 's' && c == '\U{017F}')
  }

  predicate SameWord(s: string, word: string) {
    |s| == |word| && forall k :: 0 <= k < |s| ==> SameLetter(s[k], word[k])
  }

  /** The end of the white space that starts at `i`. */
  function SpaceEnd(s: string, i: nat): (e: nat)
    requires i <= |s|
    ensures i <= e <= |s| && (forall k :: i <= k < e ==> IsSpace(s[k])) && (e < |s| ==> !IsSpace(s[e]))
    decreases |s| - i
  {
    if i < |s| && IsSpace(s[i]) then SpaceEnd(s, i + 1) else i
  }

  /** The last line feed in `s[lo..hi]`. */
  function LastFeed(s: string, lo: nat, hi: nat): (r: Option<nat>)
    requires lo <= hi <= |s|
    ensures r.Some? ==> lo <= r.value < hi && s[r.value] == '\n' && forall k :: r.value < k < hi ==> s[k] != '\n'
    ensures r.None? ==> forall k :: lo <= k < hi ==> s[k] != '\n'
    decreases hi
  {
    if lo == hi then None else if s[hi - 1] == '\n' then Some(hi - 1) else LastFeed(s, lo, hi - 1)
  }

  /** `^##\s+word\s*$`, ignoring case, matched at `i`: where the match ends. */
  function HeadingEnd(s: string, word: string, i: nat): (r: Option<nat>)
    ensures r.Some? ==> r.value <= |s|
  {
    if |s| < i + 2 || s[i..i + 2] != "##" || (i > 0 && s[i - 1] != '\n') then None
    else
      var j := SpaceEnd(s, i + 2);
      if j == i + 2 || |s| < j + |word| || !SameWord(s[j..j + |word|], word) then None
      else
        var k := SpaceEnd(s, j + |word|);
        if k == |s| then Some(k) else LastFeed(s, j + |word|, k)
  }

  const LOWER := "abcdefghijklmnopqrstuvwxyz"
  const UPPER := "ABCDEFGHIJKLMNOPQRSTUVWXYZ"

  /** The same letter in either case; the long s is an s. */
  lemma {:induction false} LetterMeans(c: char, n: nat)
    requires n < 26
    ensures SameLetter(c, LOWER[n]) <==> c == LOWER[n] || c == UPPER[n] || (LOWER[n] == 's' && c == '\U{017F}')
  {
    LettersInOrder(n);
  }

  lemma {:induction false} LettersInOrder(n: nat)
    requires n < |LOWER| == |UPPER| == 26
    ensures LOWER[n] == 'a' + n as char && UPPER[n] == 'A' + n as char
  {}

  /** The heading pattern matches s[i..e]: `##`, white space, the word, white space, and the end of a line. */
  ghost predicate Matches(s: string, word: string, i: nat, e: nat) {
    exists j: nat :: MatchesAt(s, word, i, j, e)
  }

  ghost predicate MatchesAt(s: string, word: string, i: nat, j: nat, e: nat) {
    && i + 2 < j && j + |word| <= e <= |s|
    && (i == 0 || s[i - 1] == '\n') && s[i] == s[i + 1] == '#'
    && (forall k :: i + 2 <= k < j ==> IsSpace(s[k]))
    && (forall k :: 0 <= k < |word| ==> SameLetter(s[j + k], word[k]))
    && (forall k :: j + |word| <= k < e ==> IsSpace(s[k]))
    && (e == |s| || s[e] == '\n')
  }

  lemma {:induction false} SpaceEndIs(s: string, i: nat, j: nat)
    requires i <= j <= |s| && forall k :: i <= k < j ==> IsSpace(s[k])
    ensures j <= SpaceEnd(s, i) && (j < |s| && !IsSpace(s[j]) ==> SpaceEnd(s, i) == j)
    decreases j - i
  {
    if i < j { SpaceEndIs(s, i + 1, j); }
  }

  /** The match found at `i` is the longest there is, and there is none only if the pattern does not match there. */
  lemma {:induction false} HeadingExactly(s: string, word: string, i: nat)
    requires word != "" && forall c: char :: SameLetter(c, word[0]) ==> !IsSpace(c)
    ensures match HeadingEnd(s, word, i)
            case Some(e) => Matches(s, word, i, e) && forall e': nat :: Matches(s, word, i, e') ==> e' <= e
            case None => forall e': nat :: !Matches(s, word, i, e')
  {
    forall e': nat, j: nat | MatchesAt(s, word, i, j, e')
      ensures HeadingEnd(s, word, i).Some? && e' <= HeadingEnd(s, word, i).value
    {
      MatchIsFound(s, word, i, j, e');
    }
    if HeadingEnd(s, word, i).Some? { FoundMatches(s, word, i); }
    hide HeadingEnd, MatchesAt;
  }

  lemma {:induction false} MatchIsFound(s: string, word: string, i: nat, j: nat, e: nat)
    requires word != "" && forall c: char :: SameLetter(c, word[0]) ==> !IsSpace(c)
    requires MatchesAt(s, word, i, j, e)
    ensures HeadingEnd(s, word, i).Some? && e <= HeadingEnd(s, word, i).value
  {
    assert s[i..i + 2] == "##";
    SpaceEndIs(s, i + 2, j);
    assert SameWord(s[j..j + |word|], word);
    SpaceEndIs(s, j + |word|, e);
  }

  lemma {:induction false} FoundMatches(s: string, word: string, i: nat)
    requires HeadingEnd(s, word, i).Some?
    ensures Matches(s, word, i, HeadingEnd(s, word, i).value)
  {
    hide SameLetter, IsSpace;
    assert s[i..i + 2][0] == s[i] && s[i..i + 2][1] == s[i + 1];
    var j := SpaceEnd(s, i + 2);
    forall k | 0 <= k < |word| ensures SameLetter(s[j + k], word[k]) {
      assert SameLetter(s[j..j + |word|][k], word[k]);
    }
    assert MatchesAt(s, word, i, j, HeadingEnd(s, word, i).value);
  }

  /** Both headings begin with a letter. */
  lemma {:induction false} WordsVisible()
    ensures forall c: char :: SameLetter(c, ANSWERS[0]) || SameLetter(c, ESCALATE[0]) ==> !IsSpace(c)
    ensures ANSWERS == "answers" && ESCALATE == "escalate"
  {}

  /** A reply that begins with an escalate heading is never resolved. */
  lemma {:induction false} EscalateLeads(body: string)
    ensures !Replied("## Escalate\n" + body).Answers()
  {
    var raw := "## Escalate\n" + body;
    WordsVisible();
    assert raw[0..2] == "##" && raw[3..11] == "Escalate" && raw[11] == '\n';
    forall k | 0 <= k < 8 ensures SameLetter(raw[3 + k], ESCALATE[k]) {
      assert raw[3 + k] == "Escalate"[k];
    }
    assert MatchesAt(raw, ESCALATE, 0, 3, 11);
    HeadingExactly(raw, ESCALATE, 0);
    hide HeadingEnd, MatchesAt;
    assert Matches(raw, ESCALATE, 0, 11);
  }

  /** The first heading from `from` on. */
  function FindHeading(s: string, word: string, from: nat): (r: Option<Heading>)
    ensures r.Some? ==> r.value.end <= |s|
    decreases |s| - from
  {
    if |s| < from then None
    else
      match HeadingEnd(s, word, from)
      case Some(end) => Some(Heading(from, end))
      case None => FindHeading(s, word, from + 1)
  }

  lemma {:induction false} FoundFirst(s: string, word: string, from: nat)
    ensures var r := FindHeading(s, word, from);
            && (r.Some? ==>
                  && from <= r.value.start && HeadingEnd(s, word, r.value.start) == Some(r.value.end)
                  && forall i :: from <= i < r.value.start ==> HeadingEnd(s, word, i).None?)
            && (r.None? ==> forall i :: from <= i <= |s| ==> HeadingEnd(s, word, i).None?)
    decreases |s| - from
  {
    hide HeadingEnd;
    if from <= |s| && HeadingEnd(s, word, from).None? { FoundFirst(s, word, from + 1); }
  }

  /** What came back: a failure before any text, or a text. */
  datatype Reply = Failed(reason: string) | Replied(raw: string)
  {
    function AnswersAt(): Option<Heading>
      requires Replied?
    {
      FindHeading(raw, ANSWERS, 0)
    }

    function EscalateAt(): Option<Heading>
      requires Replied?
    {
      FindHeading(raw, ESCALATE, 0)
    }

    /** An answers heading, and no escalate heading before it. */
    predicate Answers() {
      Replied? && Strip(raw) != "" && AnswersAt().Some?
      && (EscalateAt().None? || AnswersAt().value.start < EscalateAt().value.start)
    }

    function Lines(): seq<string>
      requires Answers()
    {
      SplitLines(Strip(raw[AnswersAt().value.end..]))
    }
  }

  datatype Resolution = Resolved(answers: seq<string>) | Escalated(reason: string)

  function EscalateReason(body: string): string {
    var reason := if body == "" then "escalated" else Strip(SplitLines(body)[0]);
    if |reason| <= 300 then reason else reason[..300]
  }

  /** The first line below the escalate heading, trimmed, and no more than 300 characters of it. */
  lemma {:induction false} ReasonMeans(body: string)
    ensures body == "" ==> EscalateReason(body) == "escalated"
    ensures body != "" ==>
              SplitLines(body) != [] &&
              var (line, r) := (Strip(SplitLines(body)[0]), EscalateReason(body));
              r <= line && |r| <= 300 && (|line| <= 300 ==> r == line) && (|line| > 300 ==> |r| == 300)
  {}

  /**
   * The clarification is resolved exactly when every question has a non-blank answer
   * below a leading answers heading; everything else escalates.
   */
  method Resolve(questions: seq<string>, reply: Reply) returns (r: Resolution)
    ensures r.Resolved? <==>
              && questions != [] && reply.Answers()
              && Complete(reply.Lines(), |questions|)
    ensures r.Resolved? ==>
              && |r.answers| == |questions|
              && forall i :: 0 <= i < |questions| ==>
                   && r.answers[i] == TextOf(reply.Lines(), i)
                   && Strip(r.answers[i]) == r.answers[i] != ""
    ensures questions == [] ==> r == Escalated("no_questions")
    ensures questions != [] && reply.Failed? ==> r == Escalated(reply.reason)
    ensures questions != [] && reply.Replied? && Strip(reply.raw) == "" ==> r == Escalated("empty_output")
    ensures questions != [] && reply.Answers() && !r.Resolved? ==> r == Escalated("answers_incomplete_or_malformed")
    ensures questions != [] && reply.Replied? && !reply.Answers() && Strip(reply.raw) != "" ==>
              r == Escalated(if reply.EscalateAt().Some? then EscalateReason(Strip(reply.raw[reply.EscalateAt().value.end..]))
                             else "parse_failure_no_recognized_heading")
  {
    hide FindHeading, Strip, SplitLines, TextOf, Complete, EscalateReason, Highest;
    if questions == [] {
      return Escalated("no_questions");
    }
    match reply {
      case Failed(reason) => return Escalated(reason);
      case Replied(raw) =>
        if Strip(raw) == "" {
          return Escalated("empty_output");
        }
        var answersAt, escalateAt := FindHeading(raw, ANSWERS, 0), FindHeading(raw, ESCALATE, 0);
        if answersAt.Some? && (escalateAt.None? || answersAt.value.start < escalateAt.value.start) {
          var body := Strip(raw[answersAt.value.end..]);
          var answers := ParseAnswersBlock(body, |questions|);
          CompleteExactly(SplitLines(body), answers, |questions|);
          assert SplitLines(body) == reply.Lines();
          if |answers| < |questions| || exists i :: 0 <= i < |answers| && Strip(answers[i]) == "" {
            return Escalated("answers_incomplete_or_malformed");
          }
          return Resolved(answers);
        }
        if escalateAt.Some? {
          return Escalated(EscalateReason(Strip(raw[escalateAt.value.end..])));
        }
        return Escalated("parse_failure_no_recognized_heading");
    }
  }

  // ---------------------------------------------------------------- parsing undoes numbering

  lemma {:induction false} ValueOfDecimal(n: nat)
    ensures Value(Decimal(n)) == n
  {
    if n < 10 {
      assert Value([Digit(n)][..0]) == 0;
    } else {
      ValueOfDecimal(n / 10);
      var s := Decimal(n);
      assert s[..|s| - 1] == Decimal(n / 10);
    }
  }

  /** A non-empty trimmed text of one line. */
  predicate OneLine(s: string) {
    s != "" && Trimmed(s) && forall c :: c in s ==> !IsBreak(c)
  }

  function Line(i: nat, text: string): string {
    Decimal(i) + ". " + text
  }

  lemma {:induction false} DigitsThen(digits: string, rest: string)
    requires forall c :: c in digits ==> IsDigit(c)
    requires rest == "" || !IsDigit(rest[0])
    ensures LeadingDigits(digits + rest) == |digits|
  {
    if digits == "" {
      assert digits + rest == rest;
    } else {
      assert (digits + rest)[1..] == digits[1..] + rest;
      assert IsDigit(digits[0]);
      DigitsThen(digits[1..], rest);
    }
  }

  lemma {:induction false} ParseUndoesLine(i: nat, text: string)
    requires OneLine(text)
    ensures ParseLine(Line(i, text)) == Some(Numbered(i, text))
  {
    var line, n := Line(i, text), |Decimal(i)|;
    ValueOfDecimal(i);
    TrimmedStrip(text);
    DigitFirst(Decimal(i), ". " + text);
    hide Decimal, Value, LStrip, Strip, LeadingDigits;
    assert line == Decimal(i) + (". " + text);
    DigitsThen(Decimal(i), ". " + text);
    assert line[..n] == Decimal(i);
    assert line[n + 1..] == " " + text;
    SpaceThen(text);
  }

  lemma {:induction false} DigitFirst(digits: string, rest: string)
    requires digits != "" && forall c :: c in digits ==> IsDigit(c)
    ensures LStrip(digits + rest) == digits + rest
  {
    assert IsDigit(digits[0]);
  }

  lemma {:induction false} SpaceThen(text: string)
    ensures Strip(" " + text) == Strip(text)
  {
    assert (" " + text)[1..] == text;
  }

  predicate Lines(lines: seq<string>) {
    forall k :: 0 <= k < |lines| ==> lines[k] != "" && forall c :: c in lines[k] ==> !IsBreak(c)
  }

  /** Splitting gives back the lines that were joined. */
  lemma {:induction false} SplitUndoesJoin(lines: seq<string>)
    requires Lines(lines)
    ensures SplitLines(Join("\n", lines)) == lines
  {
    if lines != [] {
      var rest := if |lines| == 1 then "" else "\n" + Join("\n", lines[1..]);
      CutOneLine(lines[0], rest);
      assert Join("\n", lines) == lines[0] + rest;
      SplitUndoesJoin(lines[1..]);
    }
  }

  /** `order` lists the numbers below `n`, each once. */
  ghost predicate IsOrder(order: seq<nat>, n: nat) {
    && NoDup(order)
    && (forall j :: 0 <= j < |order| ==> order[j] < n)
    && (forall k: nat :: k < n ==> k in order)
  }

  /** Every answer's line, in the given order. */
  function Written(texts: seq<string>, order: seq<nat>): (lines: seq<string>)
    requires forall k :: 0 <= k < |order| ==> order[k] < |texts|
  {
    seq(|order|, k requires 0 <= k < |order| => Line(order[k] + 1, texts[order[k]]))
  }

  lemma {:induction false} LineIsLine(i: nat, text: string)
    requires OneLine(text)
    ensures Line(i, text) != "" && Trimmed(Line(i, text)) && forall c :: c in Line(i, text) ==> !IsBreak(c)
  {
    var line := Line(i, text);
    assert IsDigit(Decimal(i)[0]) && line[0] == Decimal(i)[0];
    assert line[|line| - 1] == text[|text| - 1];
    forall c | c in line ensures !IsBreak(c) {
      assert c in Decimal(i) || c in ". " || c in text;
    }
  }

  /** The text of a number is the one answer written for it. */
  lemma {:induction false} TextWritten(texts: seq<string>, order: seq<nat>, k: nat)
    requires forall j :: 0 <= j < |order| ==> order[j] < |texts| && OneLine(texts[order[j]])
    requires NoDup(order) && k < |order|
    ensures TextOf(Written(texts, order), order[k]) == texts[order[k]]
  {
    hide ParseLine, Line, OneLine;
    var n := |order| - 1;
    var lines := Written(texts, order);
    ParseUndoesLine(order[n] + 1, texts[order[n]]);
    if k < n {
      assert lines[..n] == Written(texts, order[..n]);
      TextWritten(texts, order[..n], k);
    }
  }

  lemma {:induction false} HighestWritten(texts: seq<string>, order: seq<nat>)
    requires forall j :: 0 <= j < |order| ==> order[j] < |texts| && OneLine(texts[order[j]])
    ensures Highest(Written(texts, order)) <= |texts|
  {
    hide ParseLine, Line, OneLine;
    if order != [] {
      var n := |order| - 1;
      ParseUndoesLine(order[n] + 1, texts[order[n]]);
      assert Written(texts, order)[..n] == Written(texts, order[..n]);
      HighestWritten(texts, order[..n]);
    }
  }

  /** One line "i. text" per question, in any order, is read back as the answers in question order. */
  lemma {:induction false} ParseUndoesNumbering(texts: seq<string>, order: seq<nat>)
    requires IsOrder(order, |texts|)
    requires forall j :: 0 <= j < |texts| ==> OneLine(texts[j])
    ensures var lines := SplitLines(Join("\n", Written(texts, order)));
            Highest(lines) == |texts| && forall i :: 0 <= i < |texts| ==> TextOf(lines, i) == texts[i]
  {
    var lines := Written(texts, order);
    WrittenLines(texts, order);
    SplitUndoesJoin(lines);
    forall i | 0 <= i < |texts| ensures TextOf(lines, i) == texts[i] {
      TextWritten(texts, order, IndexOf(order, i));
    }
    HighestWritten(texts, order);
    hide Written;
    if Highest(lines) < |texts| {
      NoTextAbove(lines, |texts| - 1);
    }
  }

  lemma {:induction false} WrittenLines(texts: seq<string>, order: seq<nat>)
    requires forall j :: 0 <= j < |order| ==> order[j] < |texts| && OneLine(texts[order[j]])
    ensures Lines(Written(texts, order))
    ensures forall k :: 0 <= k < |order| ==> Trimmed(Written(texts, order)[k])
  {
    forall k | 0 <= k < |order|
      ensures var l := Written(texts, order)[k]; l != "" && Trimmed(l) && forall c :: c in l ==> !IsBreak(c)
    {
      LineIsLine(order[k] + 1, texts[order[k]]);
    }
  }

  /** Joined trimmed lines need no trimming. */
  lemma {:induction false} JoinTrimmed(lines: seq<string>)
    requires lines != [] && forall k :: 0 <= k < |lines| ==> lines[k] != "" && Trimmed(lines[k])
    ensures var s := Join("\n", lines);
            s != "" && s[0] == lines[0][0] && Trimmed(s)
  {
    if |lines| > 1 {
      JoinTrimmed(lines[1..]);
      var s, rest := Join("\n", lines), Join("\n", lines[1..]);
      assert s == lines[0] + "\n" + rest;
      assert s[|s| - 1] == rest[|rest| - 1];
    }
  }

  /** An answers heading on the first line of a text whose next line begins with a visible character. */
  lemma {:induction false} LeadingHeading(body: string)
    requires body != "" && !IsSpace(body[0])
    ensures var raw := "## Answers\n" + body;
            && FindHeading(raw, ANSWERS, 0) == Some(Heading(0, 10))
            && HeadingEnd(raw, ESCALATE, 0).None?
  {
    var raw := "## Answers\n" + body;
    assert raw[0..2] == "##" && raw[3..10] == "Answers" && raw[10] == '\n' && raw[11] == body[0];
    assert SpaceEnd(raw, 2) == 3 by { assert IsSpace(raw[2]) && !IsSpace(raw[3]); }
    assert SpaceEnd(raw, 10) == 11 by { assert IsSpace(raw[10]); }
    assert SameWord(raw[3..10], ANSWERS);
    assert LastFeed(raw, 10, 11) == Some(10);
    assert HeadingEnd(raw, ANSWERS, 0) == Some(10);
    assert |raw| >= 11 ==> raw[3] == 'A';
    assert !SameLetter(raw[3], ESCALATE[0]);
  }

  /**
   * A reply in the requested form, its lines in any order, meets the condition under which `Resolve` returns exactly
   * these answers.
   */
  lemma {:induction false} RequestedFormResolves(texts: seq<string>, order: seq<nat>)
    requires texts != [] && IsOrder(order, |texts|)
    requires forall j :: 0 <= j < |texts| ==> OneLine(texts[j])
    ensures var reply := Replied("## Answers\n" + Join("\n", Written(texts, order)));
            && reply.Answers()
            && Complete(reply.Lines(), |texts|)
            && forall i :: 0 <= i < |texts| ==> TextOf(reply.Lines(), i) == texts[i]
  {
    assert 0 in order;
    var body := Join("\n", Written(texts, order));
    var raw := "## Answers\n" + body;
    WrittenLines(texts, order);
    JoinTrimmed(Written(texts, order));
    ParseUndoesNumbering(texts, order);
    assert forall i :: 0 <= i < |texts| ==> texts[i] != "";
    hide *;
    HeadedReply(body);
    AllTexts(SplitLines(body), texts);
  }

  /** A reply that begins with an answers heading. */
  lemma {:induction false} HeadedReply(body: string)
    requires body != "" && Trimmed(body)
    ensures var reply := Replied("## Answers\n" + body);
            reply.Answers() && reply.Lines() == SplitLines(body)
  {
    var raw := "## Answers\n" + body;
    LeadingHeading(body);
    FoundFirst(raw, ESCALATE, 0);
    BelowHeading(body);
    assert raw[0] == '#';
    StripKeeps(raw, 0);
    hide FindHeading, HeadingEnd, Strip, SplitLines;
  }

  lemma {:induction false} BelowHeading(body: string)
    requires body != "" && Trimmed(body)
    ensures Strip(("## Answers\n" + body)[10..]) == body
  {
    assert ("## Answers\n" + body)[10..] == "\n" + body;
    assert ("\n" + body)[1..] == body;
    TrimmedStrip(body);
    assert LStrip("\n" + body) == LStrip(body);
  }

  lemma {:induction false} AllTexts(lines: seq<string>, texts: seq<string>)
    requires forall i :: 0 <= i < |texts| ==> TextOf(lines, i) == texts[i] && texts[i] != ""
    ensures Complete(lines, |texts|)
  {}
}
