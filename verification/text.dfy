/**
 * Decimal rendering of numbers inside template strings (`${n}`), and readers that
 * recover the numbers from a rendered label. The readers exist to state that each
 * label the views build can be read back: they are the inverse partner of the
 * renderers.
 */
module Text {
  import opened Wrappers

  predicate IsDigit(c: char) {
    '0' <= c <= '9'
  }

  predicate AllDigits(s: string) {
    forall i :: 0 <= i < |s| ==> IsDigit(s[i])
  }

  /** A label that does not continue a number: empty, or starting with a non-digit. */
  predicate Boundary(s: string) {
    s == [] || !IsDigit(s[0])
  }

  function Digit(d: nat): (c: char)
    requires d < 10
    ensures IsDigit(c)
  {
    ('0' as int + d) as char
  }

  function DigitValue(c: char): (d: nat)
    requires IsDigit(c)
    ensures d < 10 && Digit(d) == c
  {
    c as int - '0' as int
  }

  /** `${n}` for a non-negative integer: its decimal digits, without leading zeros. */
  function NatToString(n: nat): (r: string)
    ensures |r| >= 1 && AllDigits(r)
    ensures r[0] == '0' ==> n == 0
    decreases n
  {
    if n < 10 then [Digit(n)] else NatToString(n / 10) + [Digit(n % 10)]
  }

  /** `${i}` for any integer: a minus sign before the digits of a negative number. */
  function IntToString(i: int): (r: string)
    ensures |r| >= 1 && (IsDigit(r[0]) || r[0] == '-')
  {
    if i < 0 then "-" + NatToString(-i) else NatToString(i)
  }

  /** The number a string of decimal digits denotes. */
  function DigitsValue(s: string): nat
    requires AllDigits(s)
    decreases |s|
  {
    if s == [] then 0 else DigitsValue(s[..|s| - 1]) * 10 + DigitValue(s[|s| - 1])
  }

  /** The length of the run of digits at the head of s. */
  function DigitRun(s: string): (k: nat)
    ensures k <= |s| && AllDigits(s[..k]) && Boundary(s[k..])
    decreases |s|
  {
    if s == [] || !IsDigit(s[0]) then 0
    else
      var k := 1 + DigitRun(s[1..]);
      assert s[..k] == [s[0]] + s[1..][..k - 1];
      assert s[k..] == s[1..][k - 1..];
      k
  }

  /** Reads the decimal number at the head of s; gives it and what follows it. */
  function ReadNat(s: string): (r: Option<(nat, string)>)
    ensures r.None? <==> Boundary(s)
    ensures r.Some? ==> |r.value.1| < |s| && Boundary(r.value.1)
  {
    var k := DigitRun(s);
    if k == 0 then None else Some((DigitsValue(s[..k]), s[k..]))
  }

  /** Reads an optionally negative decimal number at the head of s. */
  function ReadInt(s: string): (r: Option<(int, string)>)
    ensures r.Some? ==> |r.value.1| < |s| && Boundary(r.value.1)
  {
    if |s| > 0 && s[0] == '-' then
      match ReadNat(s[1..])
      case Some((n, rest)) => var v: int := -(n as int); Some((v, rest))
      case None => None
    else
      match ReadNat(s)
      case Some((n, rest)) => var v: int := n; Some((v, rest))
      case None => None
  }

  /** Removes the fixed text `lit` from the head of s, if it is there. */
  function Skip(s: string, lit: string): (r: Option<string>)
    ensures r.Some? ==> s == lit + r.value
    ensures r.None? ==> !(|lit| <= |s| && s[..|lit|] == lit)
  {
    if |lit| <= |s| && s[..|lit|] == lit then Some(s[|lit|..]) else None
  }

  lemma SkipLiteral(lit: string, rest: string)
    ensures Skip(lit + rest, lit) == Some(rest)
  {
    assert (lit + rest)[..|lit|] == lit;
    assert (lit + rest)[|lit|..] == rest;
  }

  /** Reading the digits of n back gives n. */
  lemma {:induction false} DigitsValueOfNatToString(n: nat)
    ensures DigitsValue(NatToString(n)) == n
    decreases n
  {
    if n >= 10 {
      var s := NatToString(n);
      assert s[..|s| - 1] == NatToString(n / 10);
      DigitsValueOfNatToString(n / 10);
    }
  }

  lemma {:induction false} DigitRunOfDigits(d: string, rest: string)
    requires AllDigits(d) && Boundary(rest)
    ensures DigitRun(d + rest) == |d|
    decreases |d|
  {
    if d == [] {
      assert d + rest == rest;
    } else {
      assert (d + rest)[1..] == d[1..] + rest;
      DigitRunOfDigits(d[1..], rest);
    }
  }

  /** `${n}` followed by anything that does not continue the number reads back as n. */
  lemma ReadNatToString(n: nat, rest: string)
    requires Boundary(rest)
    ensures ReadNat(NatToString(n) + rest) == Some((n, rest))
  {
    var d := NatToString(n);
    DigitRunOfDigits(d, rest);
    assert (d + rest)[..|d|] == d;
    assert (d + rest)[|d|..] == rest;
    DigitsValueOfNatToString(n);
  }

  /** `${i}` followed by anything that does not continue the number reads back as i. */
  lemma ReadIntToString(i: int, rest: string)
    requires Boundary(rest)
    ensures ReadInt(IntToString(i) + rest) == Some((i, rest))
  {
    if i < 0 {
      assert IntToString(i) + rest == "-" + (NatToString(-i) + rest);
      ReadNegative(-i, rest);
    } else {
      ReadNonNegative(i, rest);
    }
  }

  lemma ReadNegative(n: nat, rest: string)
    requires Boundary(rest)
    ensures ReadInt("-" + (NatToString(n) + rest)) == Some((-(n as int), rest))
  {
    var t := NatToString(n) + rest;
    var s := "-" + t;
    assert s[0] == '-' && s[1..] == t;
    ReadNatToString(n, rest);
  }

  lemma ReadNonNegative(n: nat, rest: string)
    requires Boundary(rest)
    ensures ReadInt(NatToString(n) + rest) == Some((n as int, rest))
  {
    var s := NatToString(n) + rest;
    assert s[0] == NatToString(n)[0];
    assert IsDigit(s[0]);
    ReadNatToString(n, rest);
  }
}
