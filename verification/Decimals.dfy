// Numbers of JSON text: exact decimals, written the way ECMAScript's Number::toString lays
// out the shortest digits of a number, and read back by one scanner that serves both the JSON
// grammar (strict) and an HTML number field (which also takes ".5" and leading zeros).
module Decimals {
  import opened Wrappers

  // ---------------------------------------------------------------- digits

  predicate IsDigit(c: char) { '0' <= c <= '9' }

  function DigitChar(d: nat): (c: char)
    requires d < 10
    ensures IsDigit(c) && DigitValue(c) == d
  {
    ('0' as int + d) as char
  }

  function DigitValue(c: char): (d: nat)
    requires IsDigit(c)
    ensures d < 10
  {
    c as int - '0' as int
  }

  predicate AllDigits(s: string) { forall i :: 0 <= i < |s| ==> IsDigit(s[i]) }

  function Digits(n: nat): (s: string)
    ensures |s| > 0 && AllDigits(s)
    ensures n > 0 ==> s[0] != '0'
    ensures n == 0 ==> s == "0"
    ensures NatOf(s) == n
  {
    if n < 10 then [DigitChar(n)] else Digits(n / 10) + [DigitChar(n % 10)]
  }

  function NatOf(s: string): nat
    requires AllDigits(s)
  {
    if s == "" then 0 else NatOf(s[..|s| - 1]) * 10 + DigitValue(s[|s| - 1])
  }

  function Zeros(k: nat): (s: string)
    ensures |s| == k && AllDigits(s) && forall i :: 0 <= i < k ==> s[i] == '0'
  {
    seq(k, _ => '0')
  }

  function Pow10(k: nat): (p: nat)
    ensures p > 0
  {
    if k == 0 then 1 else 10 * Pow10(k - 1)
  }

  lemma {:induction false} NatOfZeros(k: nat)
    ensures NatOf(Zeros(k)) == 0
  {
    if k > 0 {
      assert Zeros(k)[..k - 1] == Zeros(k - 1);
      NatOfZeros(k - 1);
    }
  }

  lemma {:induction false} NatOfConcat(a: string, b: string)
    requires AllDigits(a) && AllDigits(b)
    ensures AllDigits(a + b) && NatOf(a + b) == NatOf(a) * Pow10(|b|) + NatOf(b)
    decreases |b|
  {
    if b == "" {
      assert a + b == a;
    } else {
      var b' := b[..|b| - 1];
      NatOfConcat(a, b');
      assert (a + b)[..|a + b| - 1] == a + b';
      assert NatOf(a + b) == NatOf(a + b') * 10 + DigitValue(b[|b| - 1]);
      ScaleSum(NatOf(a), Pow10(|b'|), NatOf(b'));
    }
  }

  lemma ScaleSum(x: nat, p: nat, y: nat)
    ensures (x * p + y) * 10 == x * (10 * p) + y * 10
  {
  }

  // ---------------------------------------------------------------- decimals

  // The value (neg ? -1 : 1) * mantissa * 10^exponent, with no trailing zero in the mantissa.
  datatype Decimal = Decimal(neg: bool, mantissa: nat, exponent: int) {
    predicate Normal() {
      if mantissa == 0 then !neg && exponent == 0 else mantissa % 10 != 0
    }

    predicate IsInteger() { exponent >= 0 }
  }

  type Number = d: Decimal | d.Normal() witness Decimal(false, 0, 0)

  function Normalise(neg: bool, mantissa: nat, exponent: int): Number
    decreases mantissa
  {
    if mantissa == 0 then Decimal(false, 0, 0)
    else if mantissa % 10 == 0 then Normalise(neg, mantissa / 10, exponent + 1)
    else Decimal(neg, mantissa, exponent)
  }

  lemma Tenfold(m: nat, p: nat)
    requires m > 0 && p > 0
    ensures m * (10 * p) > 0 && m * (10 * p) % 10 == 0 && m * (10 * p) / 10 == m * p
  {
    var rest := m * p;
    assert m * (10 * p) == 10 * rest && rest > 0;
  }

  lemma {:induction false} NormaliseScaled(neg: bool, mantissa: nat, k: nat, exponent: int)
    requires mantissa > 0
    ensures Normalise(neg, mantissa * Pow10(k), exponent) == Normalise(neg, mantissa, exponent + k)
    decreases k
  {
    if k > 0 {
      Tenfold(mantissa, Pow10(k - 1));
      NormaliseScaled(neg, mantissa, k - 1, exponent + 1);
    }
  }

  // ---------------------------------------------------------------- printing

  function SignText(neg: bool): string { if neg then "-" else "" }

  function NumberText(d: Number): string {
    if d.mantissa == 0 then "0"
    else
      var p := Arrange(Digits(d.mantissa), d.exponent);
      SignText(d.neg) + Layout(p.whole, p.fraction, p.power)
  }

  // A number text in parts: integer digits, digits after the point, decimal exponent.
  datatype Parts = Parts(whole: string, fraction: string, power: Option<int>)

  // ECMAScript Number::toString, radix 10: k digits, with the decimal point after the first n.
  function Arrange(ds: string, exponent: int): (p: Parts)
    requires AllDigits(ds) && ds != ""
    ensures AllDigits(p.whole) && AllDigits(p.fraction) && p.whole != ""
  {
    var n := |ds| + exponent;
    if |ds| <= n <= 21 then Parts(ds + Zeros(n - |ds|), "", None)
    else if 0 < n <= 21 then Parts(ds[..n], ds[n..], None)
    else if -6 < n <= 0 then Parts("0", Zeros(-n) + ds, None)
    else Parts(ds[..1], ds[1..], Some(n - 1))
  }

  // The common layout of a number text: integer digits, optional fraction, optional exponent.
  function Layout(whole: string, fraction: string, power: Option<int>): string {
    whole + FractionText(fraction) + PowerText(power)
  }

  function FractionText(fraction: string): string {
    if fraction == "" then "" else "." + fraction
  }

  function PowerText(power: Option<int>): string {
    match power
    case None => ""
    case Some(x) => if x < 0 then "e-" + Digits(-x) else "e+" + Digits(x)
  }

  lemma DigitsOnly(s: string)
    requires AllDigits(s)
    ensures 'e' !in s
  {
  }

  // A number is written with an exponent exactly when it is 10^21 or more, or less than 10^-6, in size.
  lemma ExponentShown(d: Number)
    requires d.mantissa > 0
    ensures 'e' in NumberText(d) <==>
            |Digits(d.mantissa)| + d.exponent > 21 || |Digits(d.mantissa)| + d.exponent <= -6
  {
    hide Digits, Zeros;
    var p := Arrange(Digits(d.mantissa), d.exponent);
    DigitsOnly(p.whole);
    DigitsOnly(p.fraction);
  }

  // Characters of number texts; the JSON weight of the Scalars module gives them weight zero.
  predicate IsNumberChar(c: char) { IsDigit(c) || c == '+' || c == '-' || c == '.' || c == 'e' || c == 'E' }

  predicate AllNumberChars(s: string) { forall i :: 0 <= i < |s| ==> IsNumberChar(s[i]) }

  lemma {:induction false} LayoutChars(neg: bool, whole: string, fraction: string, power: Option<int>)
    requires AllDigits(whole) && AllDigits(fraction) && whole != ""
    ensures var t := SignText(neg) + Layout(whole, fraction, power);
            && AllNumberChars(t)
            && (t[0] == '-' || IsDigit(t[0]))
            && IsDigit(t[|t| - 1])
  {
    assert AllNumberChars(PowerText(power)) && (power.Some? ==> IsDigit(PowerText(power)[|PowerText(power)| - 1]));
    assert AllNumberChars(whole) && AllNumberChars(FractionText(fraction));
  }

  lemma {:induction false} NumberTextChars(d: Number)
    ensures |NumberText(d)| > 0 && AllNumberChars(NumberText(d))
    ensures NumberText(d)[0] == '-' || IsDigit(NumberText(d)[0])
    ensures IsDigit(NumberText(d)[|NumberText(d)| - 1])
  {
    if d.mantissa > 0 {
      var p := Arrange(Digits(d.mantissa), d.exponent);
      LayoutChars(d.neg, p.whole, p.fraction, p.power);
    }
  }

  // ---------------------------------------------------------------- scanning

  function DigitRun(s: string): (n: nat)
    ensures n <= |s| && AllDigits(s[..n])
    ensures n < |s| ==> !IsDigit(s[n])
  {
    if s != "" && IsDigit(s[0]) then
      var n := 1 + DigitRun(s[1..]);
      assert s[..n] == [s[0]] + s[1..][..n - 1];
      n
    else 0
  }

  // The result of scanning a number at the front of a text.
  datatype Scan = NoNumber | Scanned(number: Number, strict: bool, rest: string)

  function ScanNumber(s: string): (r: Scan)
    ensures r.Scanned? ==> |r.rest| < |s|
  {
    if s != "" && s[0] == '-' then ScanUnsigned(true, s[1..]) else ScanUnsigned(false, s)
  }

  function ScanUnsigned(neg: bool, t: string): (r: Scan)
    ensures r.Scanned? ==> |r.rest| < |t|
  {
    var i := DigitRun(t);
    var whole, after := t[..i], ScanFraction(t[i..]);
    var power := ScanPower(after.1);
    if i == 0 && after.0 == "" then NoNumber
    else Scanned(ScannedValue(neg, whole, after.0, power.0), i == 1 || (i > 1 && t[0] != '0'), power.1)
  }

  function ScannedValue(neg: bool, whole: string, fraction: string, power: int): Number
    requires AllDigits(whole) && AllDigits(fraction)
  {
    Normalise(neg, NatOf(whole + fraction), power - |fraction|)
  }

  function ScanFraction(s: string): (r: (string, string))
    ensures AllDigits(r.0)
    ensures r.0 == "" ==> r.1 == s
    ensures r.0 != "" ==> s == "." + r.0 + r.1
  {
    if s != "" && s[0] == '.' then
      var n := DigitRun(s[1..]);
      if n == 0 then ("", s) else (s[1..][..n], s[1..][n..])
    else ("", s)
  }

  function ScanPower(s: string): (r: (int, string))
    ensures |r.1| <= |s|
  {
    if s != "" && (s[0] == 'e' || s[0] == 'E') then
      var signed := |s| > 1 && (s[1] == '+' || s[1] == '-');
      var t := if signed then s[2..] else s[1..];
      var n := DigitRun(t);
      if n == 0 then (0, s)
      else (if signed && s[1] == '-' then -(NatOf(t[..n]) as int) else NatOf(t[..n]), t[n..])
    else (0, s)
  }

  // What may follow a number in JSON text without being taken for a part of it.
  predicate Stops(rest: string) {
    rest == "" || (!IsDigit(rest[0]) && rest[0] != '.' && rest[0] != 'e' && rest[0] != 'E')
  }

  lemma {:induction false} DigitRunOf(ds: string, rest: string)
    requires AllDigits(ds)
    requires rest == "" || !IsDigit(rest[0])
    ensures DigitRun(ds + rest) == |ds|
    ensures (ds + rest)[..|ds|] == ds && (ds + rest)[|ds|..] == rest
  {
    if ds == "" {
      assert ds + rest == rest;
    } else {
      assert (ds + rest)[1..] == ds[1..] + rest;
      DigitRunOf(ds[1..], rest);
    }
  }

  lemma {:induction false} ScanPowerOf(power: Option<int>, rest: string)
    requires Stops(rest)
    ensures ScanPower(PowerText(power) + rest) == (PowerValue(power), rest)
  {
    match power {
      case None => assert PowerText(power) + rest == rest;
      case Some(x) => ScanPowerDigits(x < 0, Digits(if x < 0 then -x else x), rest);
    }
  }

  function PowerValue(power: Option<int>): int {
    if power.Some? then power.value else 0
  }

  lemma {:induction false} ScanPowerDigits(minus: bool, ds: string, rest: string)
    requires AllDigits(ds) && ds != "" && Stops(rest)
    ensures ScanPower((if minus then "e-" else "e+") + ds + rest)
         == (if minus then -(NatOf(ds) as int) else NatOf(ds), rest)
  {
    var s := (if minus then "e-" else "e+") + ds + rest;
    assert s[0] == 'e' && s[1] == (if minus then '-' else '+');
    assert s[2..] == ds + rest;
    DigitRunOf(ds, rest);
  }

  lemma {:induction false} ScanFractionOf(fraction: string, rest: string)
    requires AllDigits(fraction)
    requires rest == "" || (!IsDigit(rest[0]) && rest[0] != '.')
    ensures ScanFraction(FractionText(fraction) + rest) == (fraction, rest)
  {
    if fraction == "" {
      assert "" + rest == rest;
    } else {
      var s := "." + fraction + rest;
      assert s[1..] == fraction + rest;
      DigitRunOf(fraction, rest);
    }
  }

  // Scanning undoes a layout: digits, fraction and exponent are found where they were put.
  lemma {:induction false} ScanLayout(neg: bool, whole: string, fraction: string, power: Option<int>, rest: string)
    requires AllDigits(whole) && AllDigits(fraction) && whole != ""
    requires Stops(rest)
    ensures ScanNumber(SignText(neg) + Layout(whole, fraction, power) + rest)
         == Scanned(ScannedValue(neg, whole, fraction, PowerValue(power)), |whole| == 1 || whole[0] != '0', rest)
  {
    var v := PowerText(power) + rest;
    var u := FractionText(fraction) + v;
    SplitLayout(neg, whole, fraction, power, rest, whole + u);
    DigitRunOf(whole, u);
    assert v == "" || (!IsDigit(v[0]) && v[0] != '.') by {
      if power.Some? { assert v[0] == 'e'; } else { assert v == rest; }
    }
    ScanFractionOf(fraction, v);
    ScanPowerOf(power, rest);
    hide Layout, SignText, FractionText, PowerText, PowerValue, DigitRun, ScanFraction, ScanPower, ScannedValue, Stops;
    var s := SignText(neg) + Layout(whole, fraction, power) + rest;
    ScanParts(neg, s, whole, u, fraction, v, PowerValue(power), rest);
  }

  // The scanner's steps, each with what it finds.
  lemma {:induction false} ScanParts(neg: bool, s: string, whole: string, u: string, fraction: string, v: string,
                                     power: int, rest: string)
    requires AllDigits(whole) && whole != ""
    requires (s != "" && s[0] == '-' <==> neg) && (if neg then s[1..] else s) == whole + u
    requires DigitRun(whole + u) == |whole| && (whole + u)[..|whole|] == whole && (whole + u)[|whole|..] == u
    requires ScanFraction(u) == (fraction, v) && ScanPower(v) == (power, rest)
    ensures ScanNumber(s)
         == Scanned(ScannedValue(neg, whole, fraction, power), |whole| == 1 || whole[0] != '0', rest)
  {
    hide DigitRun, ScanFraction, ScanPower, ScannedValue;
  }

  lemma {:induction false} SplitLayout(neg: bool, whole: string, fraction: string, power: Option<int>, rest: string,
                                       t: string)
    requires AllDigits(whole) && whole != ""
    requires t == whole + (FractionText(fraction) + (PowerText(power) + rest))
    ensures var s := SignText(neg) + Layout(whole, fraction, power) + rest;
            && (s != "" && s[0] == '-' <==> neg)
            && (if neg then s[1..] else s) == t
  {
    Regroup(SignText(neg), whole, FractionText(fraction), PowerText(power), rest);
    assert IsDigit(t[0]);
  }

  lemma {:induction false} Regroup(a: string, b: string, c: string, d: string, e: string)
    ensures a + (b + c + d) + e == a + (b + (c + (d + e)))
  {
  }

  // The scanner reads back exactly the number that was printed, and takes it as strict JSON.
  lemma {:induction false} NumberRoundTrip(d: Number, rest: string)
    requires Stops(rest)
    ensures ScanNumber(NumberText(d) + rest) == Scanned(d, true, rest)
  {
    if d.mantissa == 0 {
      ScanLayout(false, "0", "", None, rest);
      assert "0" + "" == "0" && SignText(false) + Layout("0", "", None) == "0";
      assert NatOf("0") == 0;
    } else {
      var p := Arrange(Digits(d.mantissa), d.exponent);
      ScanLayout(d.neg, p.whole, p.fraction, p.power, rest);
      ArrangedValue(d, Digits(d.mantissa));
    }
  }

  // However the digits are laid out, they denote the number they came from.
  lemma {:induction false} ArrangedValue(d: Number, ds: string)
    requires d.mantissa > 0 && AllDigits(ds) && ds != "" && ds[0] != '0' && NatOf(ds) == d.mantissa
    ensures var p := Arrange(ds, d.exponent);
            && ScannedValue(d.neg, p.whole, p.fraction, PowerValue(p.power)) == d
            && (|p.whole| == 1 || p.whole[0] != '0')
  {
    hide NatOf, Pow10, Normalise;
    NormalStays(d);
    var n := |ds| + d.exponent;
    if |ds| <= n <= 21 {
      TrailingZeros(d, ds);
    } else if 0 < n <= 21 {
      assert ds[..n] + ds[n..] == ds;
    } else if -6 < n <= 0 {
      LeadingZeros(ds, -n);
    } else {
      assert ds[..1] + ds[1..] == ds;
    }
  }

  lemma NormalStays(d: Number)
    ensures Normalise(d.neg, d.mantissa, d.exponent) == d
  {
  }

  lemma TrailingZeros(d: Number, ds: string)
    requires d.mantissa > 0 && d.exponent >= 0 && AllDigits(ds) && NatOf(ds) == d.mantissa
    ensures AllDigits(ds + Zeros(d.exponent) + "")
    ensures Normalise(d.neg, NatOf(ds + Zeros(d.exponent) + ""), 0) == d
  {
    hide Normalise;
    var z := Zeros(d.exponent);
    assert ds + z + "" == ds + z;
    NatOfConcat(ds, z);
    NatOfZeros(d.exponent);
    NormaliseScaled(d.neg, d.mantissa, d.exponent, 0);
    NormalStays(d);
  }

  lemma {:induction false} LeadingZeros(ds: string, k: nat)
    requires AllDigits(ds)
    ensures AllDigits("0" + (Zeros(k) + ds)) && NatOf("0" + (Zeros(k) + ds)) == NatOf(ds)
  {
    assert "0" + (Zeros(k) + ds) == Zeros(k + 1) + ds;
    NatOfZeros(k + 1);
    NatOfConcat(Zeros(k + 1), ds);
  }
}
