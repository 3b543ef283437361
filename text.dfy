/**
 * Text helpers the assembler relies on: ASCII lower-casing (used to normalise
 * opcode names), decimal rendering of integers, and joining/splitting on
 * newlines.
 */
module Text {

  predicate IsUpper(c: char) {
    'A' <= c <= 'Z'
  }

  /** Lower-case one character; only the ASCII letters A-Z change. */
  function LowerChar(c: char): (r: char)
    ensures !IsUpper(r)
    ensures IsUpper(c) ==> r as int == c as int + 32
    ensures !IsUpper(c) ==> r == c
  {
    if IsUpper(c) then (c as int + 32) as char else c
  }

  /** Lower-case a string, character by character. */
  function AsciiLower(s: string): (r: string)
    ensures |r| == |s|
    ensures forall i :: 0 <= i < |r| ==> !IsUpper(r[i])
    ensures forall i :: 0 <= i < |s| ==> r[i] == LowerChar(s[i])
  {
    seq(|s|, i requires 0 <= i < |s| => LowerChar(s[i]))
  }

  /** A string with no upper-case letter is its own lower-case form. */
  lemma LowerOfLowered(s: string)
    requires forall i :: 0 <= i < |s| ==> !IsUpper(s[i])
    ensures AsciiLower(s) == s
  {
  }

  predicate IsDigit(c: char) {
    '0' <= c <= '9'
  }

  predicate AllDigits(s: string) {
    forall i :: 0 <= i < |s| ==> IsDigit(s[i])
  }

  function DigitChar(d: nat): (c: char)
    requires d < 10
    ensures IsDigit(c) && c as int - '0' as int == d
  {
    ('0' as int + d) as char
  }

  /** Decimal digits of a natural number, most significant first, without leading zeros. */
  function NatText(n: nat): (r: string)
    ensures |r| > 0 && AllDigits(r)
    ensures |r| > 1 ==> r[0] != '0'
  {
    if n < 10 then [DigitChar(n)] else NatText(n / 10) + [DigitChar(n % 10)]
  }

  /** Decimal text of an integer, with a leading '-' when it is negative. */
  function IntText(n: int): (r: string)
    ensures |r| > 0
    ensures '\n' !in r
    ensures n < 0 <==> r[0] == '-'
    ensures AllDigits(if n < 0 then r[1..] else r)
  {
    var t := if n < 0 then "-" + NatText(-n) else NatText(n);
    assert forall i :: 0 <= i < |t| ==> t[i] == '-' || IsDigit(t[i]);
    t
  }

  /** The number a string of decimal digits denotes. */
  function DigitsValue(s: string): nat
    requires AllDigits(s)
  {
    if s == [] then 0 else DigitsValue(s[..|s| - 1]) * 10 + (s[|s| - 1] as int - '0' as int)
  }

  /** The number a decimal text with an optional leading '-' denotes. */
  function IntValue(s: string): int
    requires |s| > 0
    requires AllDigits(if s[0] == '-' then s[1..] else s)
  {
    if s[0] == '-' then -(DigitsValue(s[1..]) as int) else DigitsValue(s)
  }

  lemma {:induction false} NatTextRoundTrip(n: nat)
    ensures DigitsValue(NatText(n)) == n
  {
    var t := NatText(n);
    if n >= 10 {
      NatTextRoundTrip(n / 10);
      assert t[..|t| - 1] == NatText(n / 10);
    }
  }

  /** Reading the decimal text of an integer gives the integer back. */
  lemma IntTextRoundTrip(n: int)
    ensures IntValue(IntText(n)) == n
  {
    var t := IntText(n);
    if n < 0 {
      var d := NatText(-n);
      assert t == "-" + d;
      assert t[0] == '-' && t[1..] == d;
      NatTextRoundTrip(-n);
    } else {
      assert t == NatText(n);
      NatTextRoundTrip(n);
    }
  }

  /** Lines joined by single newlines, with no trailing newline; no lines give "". */
  function JoinLines(lines: seq<string>): (r: string)
    ensures |lines| > 0 ==> lines[0] <= r
  {
    if |lines| == 0 then ""
    else if |lines| == 1 then lines[0]
    else JoinLines(lines[..|lines| - 1]) + "\n" + lines[|lines| - 1]
  }

  /** Index of the last newline in s, or -1 when there is none. */
  function LastNewline(s: string): (k: int)
    ensures -1 <= k < |s|
    ensures k >= 0 ==> s[k] == '\n'
    ensures forall j :: k < j < |s| ==> s[j] != '\n'
  {
    if |s| == 0 then -1
    else if s[|s| - 1] == '\n' then |s| - 1
    else LastNewline(s[..|s| - 1])
  }

  /** The pieces of s between newlines, as splitting on "\n" gives them; always at least one. */
  function SplitLines(s: string): (r: seq<string>)
    ensures |r| > 0
    decreases |s|
  {
    var k := LastNewline(s);
    if k < 0 then [s] else SplitLines(s[..k]) + [s[k + 1..]]
  }

  /** Splitting undoes joining, when no line holds a newline of its own. */
  lemma {:induction false} SplitJoin(lines: seq<string>)
    requires |lines| > 0
    requires forall i :: 0 <= i < |lines| ==> '\n' !in lines[i]
    ensures SplitLines(JoinLines(lines)) == lines
  {
    var n := |lines|;
    if n == 1 {
      assert forall j :: 0 <= j < |lines[0]| ==> lines[0][j] != '\n';
    } else {
      var init := lines[..n - 1];
      var head := JoinLines(init);
      var s := JoinLines(lines);
      assert s == head + "\n" + lines[n - 1];
      assert forall j :: |head| < j < |s| ==> s[j] == lines[n - 1][j - |head| - 1];
      assert s[|head|] == '\n';
      assert LastNewline(s) == |head|;
      assert s[..|head|] == head;
      assert s[|head| + 1..] == lines[n - 1];
      SplitJoin(init);
      assert init + [lines[n - 1]] == lines;
    }
  }

  /** Joining undoes splitting: every string is the join of its pieces. */
  lemma {:induction false} JoinSplit(s: string)
    ensures JoinLines(SplitLines(s)) == s
    decreases |s|
  {
    var k := LastNewline(s);
    if k >= 0 {
      var init := SplitLines(s[..k]);
      JoinSplit(s[..k]);
      var pieces := init + [s[k + 1..]];
      assert pieces[..|pieces| - 1] == init;
      assert s == s[..k] + "\n" + s[k + 1..];
    }
  }
}
