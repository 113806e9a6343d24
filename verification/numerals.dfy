/**
 Decimal text: the `%d` conversion of `snprintf` for non-negative values,
 and `atoi` as the C library defines it (leading white space, an optional
 sign, then the longest run of decimal digits).
 */
module Numerals {
  import opened CText

  predicate IsDigit(c: char) {
    '0' <= c <= '9'
  }

  predicate AllDigits(s: seq<char>) {
    forall i :: 0 <= i < |s| ==> IsDigit(s[i])
  }

  function DigitValue(c: char): (d: nat)
    requires IsDigit(c)
    ensures d < 10
  {
    c as int - '0' as int
  }

  function DigitChar(d: nat): (c: char)
    requires d < 10
    ensures IsDigit(c) && DigitValue(c) == d
  {
    (d + '0' as int) as char
  }

  /** `%d` of a non-negative value: its shortest decimal numeral. */
  function Decimal(n: nat): (s: seq<char>)
    ensures AllDigits(s) && NulFree(s)
    ensures 1 <= |s|
    ensures n < 10 <==> |s| == 1
    ensures 10 <= n < 100 <==> |s| == 2
    ensures 100 <= n < 1000 <==> |s| == 3
    ensures |s| > 1 ==> s[0] != '0'
  {
    if n < 10 then [DigitChar(n)] else Decimal(n / 10) + [DigitChar(n % 10)]
  }

  /** The value a run of digits denotes, most significant first. */
  function ValueOf(s: seq<char>): nat
    requires AllDigits(s)
  {
    if |s| == 0 then 0 else ValueOf(s[..|s| - 1]) * 10 + DigitValue(s[|s| - 1])
  }

  /** Reading back the numeral `%d` prints gives the printed value. */
  lemma {:induction false} DecimalRoundTrip(n: nat)
    ensures ValueOf(Decimal(n)) == n
  {
    if n >= 10 {
      var s := Decimal(n);
      assert s[..|s| - 1] == Decimal(n / 10);
      DecimalRoundTrip(n / 10);
    }
  }

  /** The first digit of the numeral of n: the most significant one. */
  lemma {:induction false} DecimalLeadingDigit(n: nat)
    ensures 10 <= n < 100 ==> Decimal(n)[0] == DigitChar(n / 10)
    ensures 100 <= n < 1000 ==> Decimal(n)[0] == DigitChar(n / 100)
  {
    if 100 <= n < 1000 {
      DecimalLeadingDigit(n / 10);
    }
  }

  /** Length of the run of digits at the front of s. */
  function DigitRun(s: seq<char>): (k: nat)
    ensures k <= |s| && AllDigits(s[..k])
    ensures k < |s| ==> !IsDigit(s[k])
  {
    if |s| == 0 || !IsDigit(s[0]) then 0
    else
      var k := DigitRun(s[1..]);
      assert s[..k + 1] == [s[0]] + s[1..][..k];
      1 + k
  }

  /** The white-space characters of the C locale. */
  predicate IsSpace(c: char) {
    c == ' ' || 9 <= c as int <= 13
  }

  /** The value of the leading digit run of s (0 when there is none). */
  function LeadingValue(s: seq<char>): nat {
    ValueOf(s[..DigitRun(s)])
  }

  /**
   `atoi`: skips white space, accepts one sign, then reads digits up to the
   first non-digit. The result is unbounded; the caller decides whether it
   fits a C `int` (overflow is undefined behaviour in C).
   */
  function Atoi(s: seq<char>): (r: int)
    ensures (forall i :: 0 <= i < |s| ==> !IsDigit(s[i])) ==> r == 0
    ensures r < 0 ==> '-' in s
  {
    if |s| == 0 then 0
    else if IsSpace(s[0]) then Atoi(s[1..])
    else if s[0] == '-' then -(LeadingValue(s[1..]) as int)
    else if s[0] == '+' then LeadingValue(s[1..])
    else LeadingValue(s)
  }

  /** A digit run ends where the text stops being digits. */
  lemma {:induction false} DigitRunOfDigits(d: seq<char>, rest: seq<char>)
    requires AllDigits(d)
    requires rest == [] || !IsDigit(rest[0])
    ensures DigitRun(d + rest) == |d|
  {
    if |d| > 0 {
      assert (d + rest)[1..] == d[1..] + rest;
      DigitRunOfDigits(d[1..], rest);
    } else {
      assert d + rest == rest;
    }
  }

  /** The leading value of digits followed by a non-digit is their value. */
  lemma {:induction false} LeadingValueOfDigits(d: seq<char>, rest: seq<char>)
    requires AllDigits(d)
    requires rest == [] || !IsDigit(rest[0])
    ensures LeadingValue(d + rest) == ValueOf(d)
  {
    DigitRunOfDigits(d, rest);
    assert (d + rest)[..|d|] == d;
  }

  /** `atoi` passes over one leading white-space character. */
  lemma AtoiSkipsSpace(c: char, s: seq<char>)
    requires IsSpace(c)
    ensures Atoi([c] + s) == Atoi(s)
  {
    assert ([c] + s)[1..] == s;
  }

  /** Without white space or sign, `atoi` reads the leading digit run. */
  lemma AtoiOfDigits(d: seq<char>, rest: seq<char>)
    requires 0 < |d| && AllDigits(d)
    requires rest == [] || !IsDigit(rest[0])
    ensures Atoi(d + rest) == ValueOf(d)
  {
    var s := d + rest;
    assert s[0] == d[0] && IsDigit(s[0]) && !IsSpace(s[0]);
    assert Atoi(s) == LeadingValue(s);
    LeadingValueOfDigits(d, rest);
  }

  /**
   Reading a printed numeral back with `atoi`, after any white space and
   with anything that is not a digit after it, gives the printed value.
   */
  lemma {:induction false} AtoiOfDecimal(spaces: seq<char>, n: nat, rest: seq<char>)
    requires forall i :: 0 <= i < |spaces| ==> IsSpace(spaces[i])
    requires rest == [] || !IsDigit(rest[0])
    ensures Atoi(spaces + Decimal(n) + rest) == n
    decreases |spaces|
  {
    var d := Decimal(n);
    if |spaces| > 0 {
      assert spaces + d + rest == [spaces[0]] + (spaces[1..] + d + rest);
      AtoiSkipsSpace(spaces[0], spaces[1..] + d + rest);
      AtoiOfDecimal(spaces[1..], n, rest);
    } else {
      assert spaces + d + rest == d + rest;
      AtoiOfDigits(d, rest);
      DecimalRoundTrip(n);
    }
  }

  /** A minus sign negates the numeral that follows it. */
  lemma {:induction false} AtoiOfNegative(n: nat, rest: seq<char>)
    requires rest == [] || !IsDigit(rest[0])
    ensures Atoi(['-'] + Decimal(n) + rest) == -(n as int)
  {
    var d := Decimal(n);
    var s := ['-'] + d + rest;
    assert s[0] == '-' && !IsSpace(s[0]);
    assert s[1..] == d + rest;
    assert Atoi(s) == -(LeadingValue(d + rest) as int);
    LeadingValueOfDigits(d, rest);
    DecimalRoundTrip(n);
  }
}
