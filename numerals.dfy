/** Decimal text of integers, as a template literal `${n}` writes an integer
    number of magnitude below 10^21: an optional '-' then the digits without
    leading zeros (larger numbers are written in exponent form, which is not
    modelled). A reader for that text is given beside it, to prove the
    formatting loses nothing. */
module Numerals {
  import opened Wrappers

  predicate IsDigit(ch: char)
  {
    '0' <= ch <= '9'
  }

  predicate AllDigits(s: string)
  {
    forall i :: 0 <= i < |s| ==> IsDigit(s[i])
  }

  function DigitChar(d: nat): (ch: char)
    requires d < 10
    ensures IsDigit(ch)
  {
    ['0', '1', '2', '3', '4', '5', '6', '7', '8', '9'][d]
  }

  function DigitValue(ch: char): (d: nat)
    requires IsDigit(ch)
    ensures d < 10
  {
    (ch as int - '0' as int) as nat
  }

  lemma DigitRoundTrip(d: nat)
    requires d < 10
    ensures DigitValue(DigitChar(d)) == d
  {
  }

  /** The decimal digits of `n`, most significant first. */
  function NatToString(n: nat): (s: string)
    ensures |s| >= 1 && AllDigits(s)
    ensures |s| > 1 ==> s[0] != '0'
  {
    if n < 10 then [DigitChar(n)] else NatToString(n / 10) + [DigitChar(n % 10)]
  }

  /** The decimal text of `i`. */
  function IntToString(i: int): (s: string)
    ensures |s| >= 1
    ensures i >= 0 ==> s == NatToString(i)
    ensures i < 0 ==> s[0] == '-' && s[1..] == NatToString(-i)
  {
    if i < 0 then "-" + NatToString(-i) else NatToString(i)
  }

  /** The value of a string of digits, most significant first. */
  function DigitsValue(s: string): nat
    requires AllDigits(s)
  {
    if s == [] then 0 else DigitsValue(s[..|s| - 1]) * 10 + DigitValue(s[|s| - 1])
  }

  /** The length of the longest prefix of `s` made of digits. */
  function DigitRun(s: string): (k: nat)
    ensures k <= |s|
    ensures AllDigits(s[..k])
    ensures k < |s| ==> !IsDigit(s[k])
  {
    if |s| > 0 && IsDigit(s[0]) then 1 + DigitRun(s[1..]) else 0
  }

  /** Reads a non-negative integer off the front of `s`: at least one digit,
      as many as there are. */
  ghost function ReadNat(s: string): (r: Option<Read<nat>>)
    ensures r.Some? ==> |r.value.rest| < |s|
  {
    var k := DigitRun(s);
    if k == 0 then None else Some(Read(DigitsValue(s[..k]), s[k..]))
  }

  /** Reads an integer off the front of `s`: an optional '-' and then a
      non-negative integer. */
  ghost function ReadInt(s: string): (r: Option<Read<int>>)
    ensures r.Some? ==> |r.value.rest| < |s|
  {
    var negative := |s| > 0 && s[0] == '-';
    var n :- ReadNat(if negative then s[1..] else s);
    Some(Read(if negative then -(n.value as int) else n.value as int, n.rest))
  }

  /** Text that cannot continue a number. */
  predicate Stops(rest: string)
  {
    rest == [] || !IsDigit(rest[0])
  }

  lemma {:induction false} DigitsValueOfNat(n: nat)
    ensures DigitsValue(NatToString(n)) == n
  {
    var s := NatToString(n);
    if n >= 10 {
      DigitsValueOfNat(n / 10);
      assert s[..|s| - 1] == NatToString(n / 10);
      DigitRoundTrip(n % 10);
    } else {
      DigitRoundTrip(n);
    }
  }

  lemma {:induction false} DigitRunOf(d: string, rest: string)
    requires AllDigits(d) && Stops(rest)
    ensures DigitRun(d + rest) == |d|
  {
    if d == [] {
      assert d + rest == rest;
    } else {
      assert (d + rest)[1..] == d[1..] + rest;
      DigitRunOf(d[1..], rest);
    }
  }

  /** Reading the text of a non-negative integer gives the integer back and
      leaves exactly what followed it. */
  lemma {:induction false} ReadNatOf(n: nat, rest: string)
    requires Stops(rest)
    ensures ReadNat(NatToString(n) + rest) == Some(Read(n, rest))
  {
    var d := NatToString(n);
    DigitRunOf(d, rest);
    assert (d + rest)[..|d|] == d;
    assert (d + rest)[|d|..] == rest;
    DigitsValueOfNat(n);
  }

  /** Reading the text of an integer gives the integer back and leaves
      exactly what followed it. */
  lemma {:induction false} ReadIntOf(i: int, rest: string)
    requires Stops(rest)
    ensures ReadInt(IntToString(i) + rest) == Some(Read(i, rest))
  {
    if i < 0 {
      ReadNegativeOf(-i, rest);
      assert IntToString(i) == "-" + NatToString(-i);
    } else {
      ReadNonNegativeOf(i, rest);
    }
  }

  lemma {:induction false} ReadNegativeOf(n: nat, rest: string)
    requires Stops(rest) && n > 0
    ensures ReadInt("-" + NatToString(n) + rest) == Some(Read(-(n as int), rest))
  {
    var d := NatToString(n);
    var s := "-" + d + rest;
    assert s[1..] == d + rest;
    ReadNatOf(n, rest);
  }

  lemma {:induction false} ReadNonNegativeOf(n: nat, rest: string)
    requires Stops(rest)
    ensures ReadInt(NatToString(n) + rest) == Some(Read(n as int, rest))
  {
    var d := NatToString(n);
    assert (d + rest)[0] == d[0];
    ReadNatOf(n, rest);
  }

  /** Different integers have different texts. */
  lemma IntToStringInjective(i: int, j: int)
    requires IntToString(i) == IntToString(j)
    ensures i == j
  {
    ReadIntOf(i, []);
    ReadIntOf(j, []);
    assert IntToString(i) + [] == IntToString(i);
    assert IntToString(j) + [] == IntToString(j);
  }
}
