/** The parts of Python's `str` that the modelled code uses, and the token estimate of core/context/summary.py. */
module Text {
  import opened Sequences

  /** Whitespace in the sense of `str.strip`. */
  predicate IsSpace(c: char) {
    var n := c as int;
    || 9 <= n <= 13 || 28 <= n <= 32 || n == 0x85 || n == 0xA0 || n == 0x1680 || 0x2000 <= n <= 0x200A
    || n == 0x2028 || n == 0x2029 || n == 0x202F || n == 0x205F || n == 0x3000
  }

  /** Line boundaries in the sense of `str.splitlines`. */
  predicate IsBreak(c: char) {
    var n := c as int;
    10 <= n <= 13 || 28 <= n <= 30 || n == 0x85 || n == 0x2028 || n == 0x2029
  }

  function LStrip(s: string): (r: string)
    ensures |r| <= |s|
    ensures r != "" ==> !IsSpace(r[0])
  {
    if s != "" && IsSpace(s[0]) then LStrip(s[1..]) else s
  }

  function RStrip(s: string): (r: string)
    ensures |r| <= |s| && r == s[..|r|]
    ensures r != "" ==> !IsSpace(r[|r| - 1])
  {
    if s != "" && IsSpace(s[|s| - 1]) then RStrip(s[..|s| - 1]) else s
  }

  function Strip(s: string): string {
    RStrip(LStrip(s))
  }

  /** Nothing to strip. */
  predicate Trimmed(s: string) {
    s == "" || (!IsSpace(s[0]) && !IsSpace(s[|s| - 1]))
  }

  lemma {:induction false} StripTrims(s: string)
    ensures Trimmed(Strip(s))
  {
    var l, r := LStrip(s), Strip(s);
    assert r == l[..|r|];
  }

  lemma {:induction false} TrimmedStrip(s: string)
    requires Trimmed(s)
    ensures LStrip(s) == s && RStrip(s) == s && Strip(s) == s
  {}

  lemma {:induction false} TrimmedTwice(s: string)
    ensures Strip(Strip(s)) == Strip(s)
  {
    StripTrims(s);
    TrimmedStrip(Strip(s));
  }

  lemma {:induction false} LStripSuffix(s: string)
    ensures LStrip(s) == s[|s| - |LStrip(s)|..]
    ensures forall k :: 0 <= k < |s| - |LStrip(s)| ==> IsSpace(s[k])
  {
    if s != "" && IsSpace(s[0]) { LStripSuffix(s[1..]); }
  }

  lemma {:induction false} RStripPrefix(s: string)
    ensures forall k :: |RStrip(s)| <= k < |s| ==> IsSpace(s[k])
  {
    if s != "" && IsSpace(s[|s| - 1]) { RStripPrefix(s[..|s| - 1]); }
  }

  /** Only white space is trimmed. */
  lemma {:induction false} StripKeeps(s: string, k: nat)
    requires k < |s| && !IsSpace(s[k])
    ensures Strip(s) != ""
  {
    LStripSuffix(s);
    RStripPrefix(LStrip(s));
    assert LStrip(s)[k - (|s| - |LStrip(s)|)] == s[k];
  }

  /** The first line and what follows its line boundary; "\r\n" is one boundary. */
  function CutLine(s: string): (r: (string, string))
    requires s != ""
    ensures |r.1| < |s|
  {
    if s[0] == '\r' && |s| > 1 && s[1] == '\n' then ("", s[2..])
    else if IsBreak(s[0]) then ("", s[1..])
    else if |s| == 1 then (s, "")
    else
      var rest := CutLine(s[1..]);
      ([s[0]] + rest.0, rest.1)
  }

  lemma {:induction false} CutOneLine(line: string, rest: string)
    requires line != "" && forall c :: c in line ==> !IsBreak(c)
    requires rest == "" || rest[0] == '\n'
    ensures CutLine(line + rest) == (line, if rest == "" then "" else rest[1..])
  {
    var s := line + rest;
    assert !IsBreak(line[0]) && s[0] == line[0];
    assert line == [line[0]] + line[1..];
    assert s[1..] == line[1..] + rest;
    if |line| > 1 {
      CutOneLine(line[1..], rest);
    } else {
      assert s[1..] == rest;
      assert rest != "" ==> CutLine(rest) == ("", rest[1..]);
      assert rest == "" ==> s == line;
    }
  }

  /** The line boundaries and the white space, one by one. */
  lemma {:induction false} CharactersMean(c: char)
    ensures IsBreak(c) <==> c in {'\n', '\U{0B}', '\U{0C}', '\r', '\U{1C}', '\U{1D}', '\U{1E}', '\U{85}', '\U{2028}', '\U{2029}'}
    ensures IsSpace(c) <==> IsBreak(c) || c in {
              ' ', '\t', '\U{1F}', '\U{A0}', '\U{1680}', '\U{2000}', '\U{2001}', '\U{2002}', '\U{2003}', '\U{2004}', '\U{2005}',
              '\U{2006}', '\U{2007}', '\U{2008}', '\U{2009}', '\U{200A}', '\U{202F}', '\U{205F}', '\U{3000}'}
  {}

  /** A text is cut at its first line boundary; a carriage return and a line feed behind it are one. */
  lemma {:induction false} CutMeans(line: string, c: char, rest: string)
    requires IsBreak(c) && forall x :: x in line ==> !IsBreak(x)
    ensures CutLine(line + ([c] + rest)) == (line, if c == '\r' && rest != "" && rest[0] == '\n' then rest[1..] else rest)
  {
    var s := line + ([c] + rest);
    if line == "" {
      assert s == [c] + rest && s[1..] == rest;
    } else {
      assert !IsBreak(line[0]) && s[0] == line[0] && s[1..] == line[1..] + ([c] + rest) && [line[0]] + line[1..] == line;
      CutMeans(line[1..], c, rest);
    }
  }

  function SplitLines(s: string): seq<string>
    decreases |s|
  {
    if s == "" then []
    else
      var cut := CutLine(s);
      [cut.0] + SplitLines(cut.1)
  }

  function Join(sep: string, parts: seq<string>): string {
    if parts == [] then ""
    else if |parts| == 1 then parts[0]
    else parts[0] + sep + Join(sep, parts[1..])
  }

  function Concat(parts: seq<string>): string {
    if parts == [] then "" else parts[0] + Concat(parts[1..])
  }

  predicate StartsWith(s: string, prefix: string) {
    |prefix| <= |s| && s[..|prefix|] == prefix
  }

  predicate IsDigit(c: char) { '0' <= c <= '9' }

  function Digit(n: nat): (c: char)
    requires n < 10
    ensures IsDigit(c) && c as int - '0' as int == n
  {
    '0' + n as char
  }

  /** A number in decimal notation. */
  function Decimal(n: nat): (s: string)
    ensures s != "" && forall c :: c in s ==> IsDigit(c)
  {
    if n < 10 then [Digit(n)] else Decimal(n / 10) + [Digit(n % 10)]
  }

  /** `len(text.encode("utf-8"))`. */
  function ByteLength(s: string): nat {
    if s == "" then 0
    else
      var n := s[0] as int;
      (if n < 0x80 then 1 else if n < 0x800 then 2 else if n < 0x10000 then 3 else 4) + ByteLength(s[1..])
  }

  /** The length of one character in UTF-8. */
  lemma {:induction false} ByteLengthMeans(c: char)
    ensures ByteLength([c]) == if c <= '\U{7F}' then 1 else if c <= '\U{7FF}' then 2 else if c <= '\U{FFFF}' then 3 else 4
  {
    assert [c][1..] == "";
  }

  /** About four characters per token, at least one for any text. */
  function EstimateTokens(text: string): nat {
    if text == "" then 0 else Max(1, |text| / 4)
  }
}
