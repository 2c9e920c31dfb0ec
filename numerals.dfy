/** Decimal integers and "N/D" ratios as the probe writes them.

    The analyser reads a packet size with Python's int() and a frame rate or
    time base such as "30000/1001" with eval(). This module replaces both by
    an explicit parser for an optionally signed decimal integer and for
    either one integer or two integers separated by a single slash, with the
    ratio evaluated exactly. */
module Numerals {
  import opened Common

  predicate IsDigit(c: char) {
    '0' <= c <= '9'
  }

  predicate AllDigits(s: string) {
    forall i :: 0 <= i < |s| ==> IsDigit(s[i])
  }

  function DigitValue(c: char): (d: nat)
    requires IsDigit(c)
    ensures d < 10
  {
    (c as int) - ('0' as int)
  }

  function DigitChar(d: nat): (c: char)
    requires d < 10
    ensures IsDigit(c) && DigitValue(c) == d
  {
    (('0' as int) + d) as char
  }

  /** The decimal spelling of n, without leading zeros. */
  function NatToString(n: nat): (s: string)
    ensures |s| >= 1 && AllDigits(s)
  {
    if n < 10 then [DigitChar(n)] else NatToString(n / 10) + [DigitChar(n % 10)]
  }

  /** The decimal spelling of n, with a leading '-' when n is negative. */
  function IntToString(n: int): (s: string)
    ensures |s| >= 1
    ensures n >= 0 ==> AllDigits(s)
    ensures n < 0 ==> s[0] == '-' && AllDigits(s[1..])
  {
    if n < 0 then "-" + NatToString(-n) else NatToString(n)
  }

  /** The value of a string of digits, most significant first. */
  function DigitsValue(s: string): nat
    requires AllDigits(s)
  {
    if |s| == 0 then 0 else DigitsValue(s[..|s| - 1]) * 10 + DigitValue(s[|s| - 1])
  }

  function ParseNat(s: string): (r: Result<nat>)
    ensures r.Ok? <==> |s| > 0 && AllDigits(s)
  {
    if |s| > 0 && AllDigits(s) then Ok(DigitsValue(s)) else Err(NotANumber(s))
  }

  /** int() of a string: an optional sign followed by at least one digit. */
  function ParseInt(s: string): (r: Result<int>)
    ensures r.Ok? <==>
      (|s| > 0 && AllDigits(s)) ||
      (|s| > 1 && (s[0] == '-' || s[0] == '+') && AllDigits(s[1..]))
    ensures r.Err? ==> r.error == NotANumber(s)
    ensures r.Ok? && |s| > 0 && s[0] == '-' ==> r.value <= 0
    ensures r.Ok? && |s| > 0 && s[0] != '-' ==> r.value >= 0
  {
    if |s| > 0 && (s[0] == '-' || s[0] == '+') then
      match ParseNat(s[1..])
      case Ok(n) => Ok(if s[0] == '-' then -(n as int) else n as int)
      case Err(_) => Err(NotANumber(s))
    else
      ParseNat(s)
  }

  /** The position of the first '/' in s, if any. */
  function SlashIndex(s: string): (r: Option<nat>)
    ensures r.None? ==> forall i :: 0 <= i < |s| ==> s[i] != '/'
    ensures r.Some? ==> r.value < |s| && s[r.value] == '/' &&
                        forall i :: 0 <= i < r.value ==> s[i] != '/'
  {
    if |s| == 0 then None
    else if s[0] == '/' then Some(0)
    else match SlashIndex(s[1..])
      case None => None
      case Some(k) => Some(k + 1)
  }

  /** n / d as an exact real. */
  function Quotient(n: int, d: int): (q: real)
    requires d != 0
    ensures q * d as real == n as real
  {
    n as real / d as real
  }

  /** A ratio field: "N" gives N, "N/D" gives N / D, evaluated exactly. */
  function ParseRatio(s: string): (r: Result<real>)
    ensures SlashIndex(s).None? ==>
      && (r.Ok? <==> ParseInt(s).Ok?)
      && (r.Ok? ==> r.value == ParseInt(s).value as real)
      && (r.Err? ==> r.error == BadRatio(s))
    ensures SlashIndex(s).Some? ==>
      var k := SlashIndex(s).value;
      var n, d := ParseInt(s[..k]), ParseInt(s[k + 1..]);
      && (r.Ok? <==> n.Ok? && d.Ok? && d.value != 0)
      && (r.Ok? ==> r.value == Quotient(n.value, d.value))
      && (n.Ok? && d == Ok(0) ==> r == Err(DivisionByZero))
      && (!(n.Ok? && d.Ok?) ==> r == Err(BadRatio(s)))
  {
    if SlashIndex(s).None? then
      if ParseInt(s).Ok? then Ok(ParseInt(s).value as real) else Err(BadRatio(s))
    else
      var k := SlashIndex(s).value;
      var n, d := ParseInt(s[..k]), ParseInt(s[k + 1..]);
      if n.Err? || d.Err? then Err(BadRatio(s))
      else if d.value == 0 then Err(DivisionByZero)
      else Ok(Quotient(n.value, d.value))
  }

  lemma {:induction false} DigitsValueOfNatToString(n: nat)
    ensures DigitsValue(NatToString(n)) == n
  {
    var s := NatToString(n);
    if n >= 10 {
      var p := NatToString(n / 10);
      assert s == p + [DigitChar(n % 10)];
      assert s[..|s| - 1] == p;
      DigitsValueOfNatToString(n / 10);
    }
  }

  /** Reading back the decimal spelling of any integer gives that integer. */
  lemma ParseIntRoundTrip(n: int)
    ensures ParseInt(IntToString(n)) == Ok(n)
  {
    var s := IntToString(n);
    if n < 0 {
      assert s[1..] == NatToString(-n);
      DigitsValueOfNatToString(-n);
    } else {
      DigitsValueOfNatToString(n);
    }
  }

  lemma NoSlashInIntToString(n: int)
    ensures SlashIndex(IntToString(n)).None?
  {
    var s := IntToString(n);
    forall i | 0 <= i < |s| ensures s[i] != '/' {
      if n < 0 && i > 0 {
        assert s[i] == s[1..][i - 1];
      }
    }
  }

  lemma {:induction false} SlashIndexAfter(a: string, b: string)
    requires SlashIndex(a).None?
    ensures SlashIndex(a + "/" + b) == Some(|a|)
  {
    if |a| > 0 {
      assert (a + "/" + b)[1..] == a[1..] + "/" + b;
      SlashIndexAfter(a[1..], b);
    }
  }

  /** Spelling a numerator and a denominator as "N/D" and parsing the ratio
      gives N / D exactly, or a division by zero when D is 0. */
  lemma RatioRoundTrip(n: int, d: int)
    ensures ParseRatio(IntToString(n) + "/" + IntToString(d)) ==
            if d == 0 then Err(DivisionByZero) else Ok(n as real / d as real)
  {
    var a, b := IntToString(n), IntToString(d);
    var s := a + "/" + b;
    NoSlashInIntToString(n);
    SlashIndexAfter(a, b);
    assert s[..|a|] == a;
    assert s[|a| + 1..] == b;
    ParseIntRoundTrip(n);
    ParseIntRoundTrip(d);
  }

  /** A ratio field written as a plain integer denotes that integer. */
  lemma PlainRatio(n: int)
    ensures ParseRatio(IntToString(n)) == Ok(n as real)
  {
    NoSlashInIntToString(n);
    ParseIntRoundTrip(n);
  }
}
