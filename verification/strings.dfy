/**
 * The behaviour of Python's `str` operations that the provisioning scripts rely
 * on: rendering an int in an f-string, `startswith`/`endswith`/`in`, `strip()`,
 * `split()`, `splitlines()`, `int()`, `split(".")[0]`, and the lines of a text
 * joined by "\n".
 */
module Strings {
  import opened Wrappers

  // ---------------------------------------------------------------------------
  // Characters

  /** `c.isspace()`: the characters `strip()` and `split()` treat as whitespace. */
  predicate IsSpace(c: char) {
    var n := c as int;
    (9 <= n <= 13) || (0x1c <= n <= 0x20) || n == 0x85 || n == 0xa0 || n == 0x1680
    || (0x2000 <= n <= 0x200a) || n == 0x2028 || n == 0x2029 || n == 0x202f
    || n == 0x205f || n == 0x3000
  }

  /** The characters at which `splitlines()` ends a line. */
  predicate IsLineBoundary(c: char) {
    var n := c as int;
    (10 <= n <= 13) || (0x1c <= n <= 0x1e) || n == 0x85 || n == 0x2028 || n == 0x2029
  }

  predicate IsDigit(c: char) {
    '0' <= c <= '9'
  }

  predicate AllDigits(s: string) {
    forall k :: 0 <= k < |s| ==> IsDigit(s[k])
  }

  // ---------------------------------------------------------------------------
  // Decimal rendering (`f"{n}"`) and parsing (`int(s)`)

  function DigitChar(d: nat): (c: char)
    requires d < 10
    ensures IsDigit(c) && c as int - '0' as int == d
  {
    (d + '0' as int) as char
  }

  /** The decimal text of `n`, as an f-string renders a non-negative int. */
  function NatToString(n: nat): (s: string)
    ensures 1 <= |s| && AllDigits(s)
    ensures n >= 10 <==> |s| >= 2
  {
    if n < 10 then [DigitChar(n)] else NatToString(n / 10) + [DigitChar(n % 10)]
  }

  /** Distinct numbers render as distinct texts. */
  lemma {:induction false} NatToStringInjective(a: nat, b: nat)
    requires NatToString(a) == NatToString(b)
    ensures a == b
  {
    var s := NatToString(a);
    if a >= 10 {
      assert b >= 10;
      assert NatToString(a / 10) == s[..|s| - 1] == NatToString(b / 10);
      NatToStringInjective(a / 10, b / 10);
      assert DigitChar(a % 10) == s[|s| - 1] == DigitChar(b % 10);
    } else {
      assert b < 10;
      assert DigitChar(a) == s[0] == DigitChar(b);
    }
  }

  lemma NatToStringDiffer(a: nat, b: nat)
    requires a != b
    ensures NatToString(a) != NatToString(b)
  {
    if NatToString(a) == NatToString(b) {
      NatToStringInjective(a, b);
    }
  }

  /** The value of a non-empty run of decimal digits. */
  function DigitsValue(s: string): nat
    requires AllDigits(s)
  {
    if s == [] then 0
    else
      assert IsDigit(s[|s| - 1]);
      DigitsValue(s[..|s| - 1]) * 10 + (s[|s| - 1] as int - '0' as int)
  }

  /** `int(s)` on a field that holds no whitespace: an optional sign and at least one digit. */
  function ParseInt(s: string): (r: Option<int>)
    ensures r.Some? <==>
      (var digits := if s != [] && (s[0] == '+' || s[0] == '-') then s[1..] else s;
       digits != [] && AllDigits(digits))
  {
    var negative := s != [] && s[0] == '-';
    var digits := if s != [] && (s[0] == '+' || s[0] == '-') then s[1..] else s;
    if digits != [] && AllDigits(digits) then
      var value: int := if negative then -(DigitsValue(digits) as int) else DigitsValue(digits);
      Some(value)
    else
      None
  }

  // ---------------------------------------------------------------------------
  // Prefixes, suffixes, substrings

  /** `s.startswith(prefix)` */
  predicate StartsWith(s: string, prefix: string) {
    prefix <= s
  }

  /** `s.endswith(suffix)` */
  predicate EndsWith(s: string, suffix: string) {
    |suffix| <= |s| && s[|s| - |suffix|..] == suffix
  }

  /** `t in s`: `t` occurs in `s` as a contiguous substring. */
  predicate Contains(s: string, t: string)
    decreases |s|
  {
    t <= s || (s != [] && Contains(s[1..], t))
  }

  /** `s.split(".")[0]` with `c` the separator: the text before the first `c`. */
  function BeforeFirst(s: string, c: char): (r: string)
    ensures r <= s && c !in r
    ensures |r| < |s| ==> s[|r|] == c
  {
    if s == [] || s[0] == c then [] else [s[0]] + BeforeFirst(s[1..], c)
  }

  lemma {:induction false} BeforeFirstOfSuffixed(s: string, c: char, rest: string)
    requires c !in s
    ensures BeforeFirst(s + [c] + rest, c) == s
  {
    if s != [] {
      assert (s + [c] + rest)[1..] == s[1..] + [c] + rest;
      BeforeFirstOfSuffixed(s[1..], c, rest);
    }
  }

  // ---------------------------------------------------------------------------
  // strip()

  function StripLeft(s: string): (r: string)
    ensures |r| <= |s| && r == s[|s| - |r|..]
    ensures forall k :: 0 <= k < |s| - |r| ==> IsSpace(s[k])
    ensures r == [] || !IsSpace(r[0])
    decreases |s|
  {
    if s != [] && IsSpace(s[0]) then StripLeft(s[1..]) else s
  }

  function StripRight(s: string): (r: string)
    ensures |r| <= |s| && r == s[..|r|]
    ensures forall k :: |r| <= k < |s| ==> IsSpace(s[k])
    ensures r == [] || !IsSpace(r[|r| - 1])
    decreases |s|
  {
    if s != [] && IsSpace(s[|s| - 1]) then StripRight(s[..|s| - 1]) else s
  }

  /** A nonempty text that neither starts nor ends with whitespace. */
  predicate Trimmed(s: string) {
    s != [] && !IsSpace(s[0]) && !IsSpace(s[|s| - 1])
  }

  /**
   * `s.strip()`: `s` with its leading and trailing whitespace removed; what is
   * left neither starts nor ends with whitespace.
   */
  function Strip(s: string): (r: string)
    ensures r == [] || Trimmed(r)
  {
    StripRight(StripLeft(s))
  }

  /** Stripping a text framed by one whitespace character on each side. */
  lemma StripFramed(a: char, body: string, b: char)
    requires IsSpace(a) && IsSpace(b) && Trimmed(body)
    ensures Strip([a] + body + [b]) == body
  {
    var t := body + [b];
    assert [a] + body + [b] == [a] + t;
    StripLeftOne(a, t);
    StripRightOne(body, b);
  }

  lemma StripLeftOne(a: char, t: string)
    requires IsSpace(a) && t != [] && !IsSpace(t[0])
    ensures StripLeft([a] + t) == t
  {
    assert ([a] + t)[1..] == t;
  }

  lemma StripRightOne(t: string, b: char)
    requires IsSpace(b) && t != [] && !IsSpace(t[|t| - 1])
    ensures StripRight(t + [b]) == t
  {
    assert (t + [b])[..|t|] == t;
  }

  // ---------------------------------------------------------------------------
  // split(): whitespace-separated fields

  /** Length of the longest prefix of `s` free of whitespace. */
  function WordLength(s: string): (n: nat)
    ensures n <= |s|
    ensures forall k :: 0 <= k < n ==> !IsSpace(s[k])
    ensures n < |s| ==> IsSpace(s[n])
  {
    if s == [] || IsSpace(s[0]) then 0 else 1 + WordLength(s[1..])
  }

  /** `s.split()`: the maximal runs of non-whitespace characters, in order. */
  function Fields(s: string): (r: seq<string>)
    ensures forall i :: 0 <= i < |r| ==> r[i] != []
    ensures forall i, k :: 0 <= i < |r| && 0 <= k < |r[i]| ==> !IsSpace(r[i][k])
    decreases |s|
  {
    if s == [] then []
    else if IsSpace(s[0]) then Fields(s[1..])
    else
      var n := WordLength(s);
      [s[..n]] + Fields(s[n..])
  }

  // ---------------------------------------------------------------------------
  // splitlines()

  /** Length of the longest prefix of `s` free of line boundaries. */
  function LineLength(s: string): (n: nat)
    ensures n <= |s|
    ensures forall k :: 0 <= k < n ==> !IsLineBoundary(s[k])
    ensures n < |s| ==> IsLineBoundary(s[n])
  {
    if s == [] || IsLineBoundary(s[0]) then 0 else 1 + LineLength(s[1..])
  }

  /**
   * `s.splitlines()`: the lines of `s` without their terminators ("\r\n" counts
   * as one terminator); a final terminator does not start an extra empty line.
   */
  function SplitLines(s: string): (r: seq<string>)
    ensures forall i, k :: 0 <= i < |r| && 0 <= k < |r[i]| ==> !IsLineBoundary(r[i][k])
    decreases |s|
  {
    if s == [] then []
    else
      var n := LineLength(s);
      if n == |s| then [s]
      else
        var skip := if s[n] == '\r' && n + 1 < |s| && s[n + 1] == '\n' then 2 else 1;
        [s[..n]] + SplitLines(s[n + skip..])
  }

  /** Lines each ended by "\n", as a program prints them. */
  function Terminated(lines: seq<string>): string {
    if lines == [] then "" else lines[0] + "\n" + Terminated(lines[1..])
  }

  /** Terminating two groups of lines one after the other. */
  lemma {:induction false} TerminatedConcat(a: seq<string>, b: seq<string>)
    ensures Terminated(a + b) == Terminated(a) + Terminated(b)
  {
    if a == [] {
      assert a + b == b;
    } else {
      assert (a + b)[1..] == a[1..] + b;
      TerminatedConcat(a[1..], b);
    }
  }

  /** Terminated lines are the joined lines and a final newline. */
  lemma {:induction false} TerminatedJoin(lines: seq<string>)
    requires lines != []
    ensures Terminated(lines) == Join(lines) + "\n"
  {
    if |lines| > 1 {
      TerminatedJoin(lines[1..]);
    } else {
      assert lines[1..] == [];
    }
  }

  // ---------------------------------------------------------------------------
  // The lines of a text: `"\n".join(lines)` and `s.split("\n")`

  predicate SingleLine(s: string) {
    '\n' !in s
  }

  predicate AllSingleLine(lines: seq<string>) {
    forall i :: 0 <= i < |lines| ==> SingleLine(lines[i])
  }

  /** `"\n".join(lines)` */
  function Join(lines: seq<string>): string {
    if lines == [] then ""
    else if |lines| == 1 then lines[0]
    else lines[0] + "\n" + Join(lines[1..])
  }

  /** Index of the first "\n" in `s`, or `|s|` when there is none. */
  function NewlineIndex(s: string): (n: nat)
    ensures n <= |s| && SingleLine(s[..n])
    ensures n < |s| ==> s[n] == '\n'
  {
    if s == [] || s[0] == '\n' then 0
    else
      var n := 1 + NewlineIndex(s[1..]);
      assert s[..n] == [s[0]] + s[1..][..n - 1];
      n
  }

  /** `s.split("\n")`: the lines of `s`; never empty, and no line holds a "\n". */
  function Split(s: string): (r: seq<string>)
    ensures |r| >= 1 && AllSingleLine(r)
    decreases |s|
  {
    var n := NewlineIndex(s);
    if n == |s| then [s] else [s[..n]] + Split(s[n + 1..])
  }

  lemma {:induction false} NewlineIndexOf(l: string, rest: string)
    requires SingleLine(l)
    ensures NewlineIndex(l + "\n" + rest) == |l|
  {
    if l != [] {
      assert (l + "\n" + rest)[1..] == l[1..] + "\n" + rest;
      NewlineIndexOf(l[1..], rest);
    }
  }

  lemma {:induction false} NewlineIndexNone(l: string)
    requires SingleLine(l)
    ensures NewlineIndex(l) == |l|
  {
    if l != [] {
      NewlineIndexNone(l[1..]);
    }
  }

  /** A first line followed by "\n" is split off as it is. */
  lemma SplitCons(l: string, rest: string)
    requires SingleLine(l)
    ensures Split(l + "\n" + rest) == [l] + Split(rest)
  {
    var s := l + "\n" + rest;
    NewlineIndexOf(l, rest);
    assert s[..|l|] == l;
    assert s[|l| + 1..] == rest;
  }

  /** Splitting the joined lines gives the lines back. */
  lemma {:induction false} SplitJoin(lines: seq<string>)
    requires lines != [] && AllSingleLine(lines)
    ensures Split(Join(lines)) == lines
  {
    if |lines| == 1 {
      NewlineIndexNone(lines[0]);
    } else {
      SplitCons(lines[0], Join(lines[1..]));
      SplitJoin(lines[1..]);
      assert lines == [lines[0]] + lines[1..];
    }
  }

  /** Joining the lines of a text gives the text back. */
  lemma {:induction false} JoinSplit(s: string)
    ensures Join(Split(s)) == s
    decreases |s|
  {
    var n := NewlineIndex(s);
    if n < |s| {
      var rest := s[n + 1..];
      assert Split(s) == [s[..n]] + Split(rest);
      JoinSplit(rest);
      JoinCons(s[..n], Split(rest));
      assert s == s[..n] + "\n" + rest;
    } else {
      assert Split(s) == [s];
    }
  }

  lemma JoinCons(line: string, rest: seq<string>)
    requires rest != []
    ensures Join([line] + rest) == line + "\n" + Join(rest)
  {
    assert ([line] + rest)[1..] == rest;
  }

  /** A text made of lines starts with the first character of its first line. */
  lemma {:induction false} JoinFirst(lines: seq<string>)
    requires lines != [] && lines[0] != []
    ensures Join(lines) != [] && Join(lines)[0] == lines[0][0]
  {
  }

  /** A text made of lines ends with the last character of its last line. */
  lemma {:induction false} JoinLast(lines: seq<string>)
    requires lines != [] && lines[|lines| - 1] != []
    ensures var j := Join(lines); var l := lines[|lines| - 1]; j != [] && j[|j| - 1] == l[|l| - 1]
  {
    if |lines| > 1 {
      JoinLast(lines[1..]);
    }
  }

  /** Joining two non-empty groups of lines puts one "\n" between them. */
  lemma {:induction false} JoinConcat(a: seq<string>, b: seq<string>)
    requires a != [] && b != []
    ensures Join(a + b) == Join(a) + "\n" + Join(b)
  {
    if |a| == 1 {
      assert a + b == [a[0]] + b;
    } else {
      assert (a + b)[1..] == a[1..] + b;
      JoinConcat(a[1..], b);
    }
  }

  /** A "\n" between two texts separates their lines. */
  lemma SplitConcat(a: string, b: string)
    ensures Split(a + "\n" + b) == Split(a) + Split(b)
  {
    JoinSplit(a);
    JoinSplit(b);
    JoinConcat(Split(a), Split(b));
    SplitJoin(Split(a) + Split(b));
  }
}
