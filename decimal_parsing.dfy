/** The decimal-number reading that `parseFloat` performs on a price once
    its currency symbol is dropped, and the price format the catalogue
    serves ("$32.04"), with the proof that the one reads back the other. */
module DecimalParsing {

  datatype Option<T> = None | Some(value: T)

  predicate IsDigit(c: char) {
    '0' <= c <= '9'
  }

  predicate AllDigits(s: string) {
    forall i :: 0 <= i < |s| ==> IsDigit(s[i])
  }

  function DigitValue(c: char): (d: nat)
    requires IsDigit(c)
    ensures d < 10
  {
    c as int - '0' as int
  }

  function DigitChar(d: nat): (c: char)
    requires d < 10
    ensures IsDigit(c) && DigitValue(c) == d
  {
    ('0' as int + d) as char
  }

  /** Length of the longest prefix of `s` made of decimal digits. */
  function DigitRun(s: string): (n: nat)
    ensures n <= |s|
    ensures n < |s| ==> !IsDigit(s[n])
  {
    if s != [] && IsDigit(s[0]) then 1 + DigitRun(s[1..]) else 0
  }

  lemma {:induction false} DigitRunIsDigits(s: string)
    ensures AllDigits(s[..DigitRun(s)])
  {
    if s != [] && IsDigit(s[0]) {
      DigitRunIsDigits(s[1..]);
      assert s[..DigitRun(s)] == [s[0]] + s[1..][..DigitRun(s[1..])];
    }
  }

  /** The natural number a string of decimal digits denotes, most significant digit first. */
  function DigitsValue(ds: string): nat
    requires AllDigits(ds)
  {
    if ds == [] then 0
    else 10 * DigitsValue(ds[..|ds| - 1]) + DigitValue(ds[|ds| - 1])
  }

  /** The value of the digits after a decimal point: "25" is 0.25. */
  function FractionValue(ds: string): (v: real)
    requires AllDigits(ds)
    ensures 0.0 <= v < 1.0
  {
    if ds == [] then 0.0
    else (DigitValue(ds[0]) as real + FractionValue(ds[1..])) / 10.0
  }

  /** `parseFloat(s)` on the longest prefix of `s` of the form
      [sign] digits [. digits] that holds at least one digit; None stands
      for the NaN that `parseFloat` returns when there is no such prefix. */
  function ParseFloat(s: string): (r: Option<real>)
    ensures s == [] ==> r == None
    ensures r.Some? && (s == [] || s[0] != '-') ==> r.value >= 0.0
  {
    var negative := s != [] && s[0] == '-';
    var unsigned := if s != [] && (s[0] == '-' || s[0] == '+') then s[1..] else s;
    var whole := unsigned[..DigitRun(unsigned)];
    var afterWhole := unsigned[|whole|..];
    var afterPoint := if afterWhole != [] && afterWhole[0] == '.' then afterWhole[1..] else [];
    var fraction := afterPoint[..DigitRun(afterPoint)];
    if whole == [] && fraction == [] then None
    else
      DigitRunIsDigits(unsigned);
      DigitRunIsDigits(afterPoint);
      var magnitude := DigitsValue(whole) as real + FractionValue(fraction);
      Some(if negative then -magnitude else magnitude)
  }

  /** Decimal digits of `n`, most significant first, without leading zeros. */
  function NatDigits(n: nat): (ds: string)
    ensures ds != [] && AllDigits(ds)
  {
    if n < 10 then [DigitChar(n)] else NatDigits(n / 10) + [DigitChar(n % 10)]
  }

  /** An amount written the way the catalogue writes prices after the
      currency symbol: whole units, a point, and two digits of cents. */
  function FormatAmount(units: nat, cents: nat): (s: string)
    requires cents < 100
  {
    NatDigits(units) + "." + [DigitChar(cents / 10), DigitChar(cents % 10)]
  }

  lemma {:induction false} NatDigitsValue(n: nat)
    ensures DigitsValue(NatDigits(n)) == n
  {
    if n >= 10 {
      var ds := NatDigits(n);
      assert ds[..|ds| - 1] == NatDigits(n / 10);
      NatDigitsValue(n / 10);
    }
  }

  lemma {:induction false} DigitRunStopsAtNonDigit(ds: string, rest: string)
    requires AllDigits(ds)
    requires rest != [] && !IsDigit(rest[0])
    ensures DigitRun(ds + rest) == |ds|
  {
    if ds != [] {
      assert (ds + rest)[1..] == ds[1..] + rest;
      DigitRunStopsAtNonDigit(ds[1..], rest);
    }
  }

  /** Reading a formatted amount back gives exactly that amount. */
  lemma ParseFloatOfFormattedAmount(units: nat, cents: nat)
    requires cents < 100
    ensures ParseFloat(FormatAmount(units, cents)) == Some(units as real + cents as real / 100.0)
  {
    var ds := NatDigits(units);
    var frac := [DigitChar(cents / 10), DigitChar(cents % 10)];
    var s := FormatAmount(units, cents);
    assert s == ds + ("." + frac);
    DigitRunStopsAtNonDigit(ds, "." + frac);
    assert s[..|ds|] == ds;
    assert s[|ds|..] == "." + frac;
    assert ("." + frac)[1..] == frac;
    assert DigitRun(frac) == 2;
    assert frac[..2] == frac;
    assert frac[1..] == [DigitChar(cents % 10)] && frac[1..][1..] == [];
    var tens, ones := cents / 10, cents % 10;
    assert FractionValue(frac[1..]) == ones as real / 10.0;
    assert cents as real == 10.0 * tens as real + ones as real;
    assert FractionValue(frac) == cents as real / 100.0;
    NatDigitsValue(units);
  }
}
