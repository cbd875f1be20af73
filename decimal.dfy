/** Exact decimal amounts: the reading of an amount string, the running sum
    of deferred credits, and its rendering in the plain notation of a
    double's `toString()` (at least one fractional digit, no trailing
    zeros otherwise). */
module Decimal {
  import opened Wrappers
  import opened Json

  /** The number units / 10^scale. */
  datatype Decimal = Decimal(units: int, scale: nat)

  const Zero: Decimal := Decimal(0, 0)

  function Pow10(n: nat): (p: nat)
    ensures p >= 1
  {
    if n == 0 then 1 else 10 * Pow10(n - 1)
  }

  /** u * 10^n, one digit at a time. */
  function Scale(u: int, n: nat): (r: int)
    ensures u >= 0 ==> r >= 0
  {
    if n == 0 then u else Scale(u, n - 1) * 10
  }

  /** x / 10^n, one digit at a time. */
  ghost function Shift(x: real, n: nat): real {
    if n == 0 then x else Shift(x, n - 1) / 10.0
  }

  /** The number a decimal denotes: units / 10^scale. */
  ghost function Value(d: Decimal): real {
    Shift(d.units as real, d.scale)
  }

  lemma {:induction false} ScaleAdd(u: int, v: int, n: nat)
    ensures Scale(u + v, n) == Scale(u, n) + Scale(v, n)
  {
    if n > 0 {
      ScaleAdd(u, v, n - 1);
    }
  }

  lemma {:induction false} ScaleScale(u: int, a: nat, b: nat)
    ensures Scale(Scale(u, a), b) == Scale(u, a + b)
  {
    if b > 0 {
      ScaleScale(u, a, b - 1);
    }
  }

  lemma {:induction false} ScaleZero(n: nat)
    ensures Scale(0, n) == 0
  {
    if n > 0 {
      ScaleZero(n - 1);
    }
  }

  lemma {:induction false} ShiftAdd(x: real, y: real, n: nat)
    ensures Shift(x + y, n) == Shift(x, n) + Shift(y, n)
  {
    if n > 0 {
      ShiftAdd(x, y, n - 1);
    }
  }

  lemma {:induction false} ShiftNeg(x: real, n: nat)
    ensures Shift(-x, n) == -Shift(x, n)
  {
    if n > 0 {
      ShiftNeg(x, n - 1);
    }
  }

  lemma {:induction false} ShiftTen(x: real, n: nat)
    ensures Shift(x * 10.0, n + 1) == Shift(x, n)
  {
    if n > 0 {
      ShiftTen(x, n - 1);
    }
  }

  /** Rescaling keeps the value. */
  lemma {:induction false} Rescale(u: int, s: nat, d: nat)
    ensures Value(Decimal(Scale(u, d), s + d)) == Value(Decimal(u, s))
  {
    if d > 0 {
      var v := Scale(u, d - 1);
      assert Scale(u, d) as real == v as real * 10.0;
      ShiftTen(v as real, s + d - 1);
      Rescale(u, s, d - 1);
    }
  }

  // ---------------------------------------------------------------------
  // Reading an amount.

  /** The position of the first '.', or |s| when there is none. */
  function IndexOfDot(s: string): (k: nat)
    ensures k <= |s|
    ensures k < |s| ==> s[k] == '.'
    ensures forall i :: 0 <= i < k ==> s[i] != '.'
  {
    if s == [] then 0
    else if s[0] == '.' then 0
    else 1 + IndexOfDot(s[1..])
  }

  /** Digits and an optional fraction: "12", "12.5", "12." and ".5". */
  function ParseUnsigned(s: string): (r: Option<Decimal>)
    ensures r.Some? ==> r.value.units >= 0
  {
    var k := IndexOfDot(s);
    if k == |s| then
      if |s| > 0 && AllDigits(s) then Some(Decimal(DigitsValue(s), 0)) else None
    else
      var whole, frac := s[..k], s[k + 1..];
      if (|whole| > 0 || |frac| > 0) && AllDigits(whole + frac) then
        Some(Decimal(DigitsValue(whole + frac), |frac|))
      else None
  }

  /** The same number with the opposite sign. */
  function Negate(d: Decimal): (r: Decimal)
    ensures r.units == -d.units && r.scale == d.scale
  {
    Decimal(-d.units, d.scale)
  }

  /** `toDoubleOrNull()` on an amount: an optional sign, digits, and an
      optional fraction; anything else is null. */
  function ParseDecimal(s: string): (r: Option<Decimal>)
    ensures s == [] ==> r == None
  {
    if |s| > 0 && (s[0] == '-' || s[0] == '+') then
      match ParseUnsigned(s[1..])
      case None => None
      case Some(u) => if s[0] == '-' then Some(Negate(u)) else Some(u)
    else ParseUnsigned(s)
  }

  // ---------------------------------------------------------------------
  // Summing.

  /** Exact addition, at the larger of the two scales. */
  function Add(a: Decimal, b: Decimal): (r: Decimal)
    ensures r.scale == if a.scale <= b.scale then b.scale else a.scale
  {
    if a.scale <= b.scale then
      Decimal(Scale(a.units, b.scale - a.scale) + b.units, b.scale)
    else
      Decimal(a.units + Scale(b.units, a.scale - b.scale), a.scale)
  }

  /** Exact addition denotes the sum of the two numbers. */
  lemma AddValue(a: Decimal, b: Decimal)
    ensures Value(Add(a, b)) == Value(a) + Value(b)
  {
    if a.scale <= b.scale {
      var d := b.scale - a.scale;
      Rescale(a.units, a.scale, d);
      ShiftAdd(Scale(a.units, d) as real, b.units as real, b.scale);
    } else {
      var d := a.scale - b.scale;
      Rescale(b.units, b.scale, d);
      ShiftAdd(a.units as real, Scale(b.units, d) as real, a.scale);
    }
  }

  /** `sumOf`, left to right from zero. */
  function Sum(ds: seq<Decimal>): (r: Decimal)
    ensures forall i :: 0 <= i < |ds| ==> ds[i].scale <= r.scale
    ensures ds == [] ==> r == Zero
  {
    if ds == [] then Zero else Add(Sum(ds[..|ds| - 1]), ds[|ds| - 1])
  }

  ghost function SumValues(ds: seq<Decimal>): real {
    if ds == [] then 0.0 else SumValues(ds[..|ds| - 1]) + Value(ds[|ds| - 1])
  }

  /** The running sum is exact: it denotes the sum of the amounts. */
  lemma {:induction false} SumValue(ds: seq<Decimal>)
    ensures Value(Sum(ds)) == SumValues(ds)
  {
    if ds != [] {
      SumValue(ds[..|ds| - 1]);
      AddValue(Sum(ds[..|ds| - 1]), ds[|ds| - 1]);
    }
  }

  // ---------------------------------------------------------------------
  // Rendering.

  function Zeros(n: nat): (s: string)
    ensures |s| == n && AllDigits(s)
  {
    if n == 0 then "" else Zeros(n - 1) + "0"
  }

  /** Left-pads with zeros to at least n characters. */
  function PadLeft(s: string, n: nat): (r: string)
    requires AllDigits(s)
    ensures |r| == if |s| < n then n else |s|
  {
    if |s| < n then Zeros(n - |s|) + s else s
  }

  /** Drops trailing zeros. */
  function TrimZeros(s: string): (r: string)
    ensures |r| <= |s|
    ensures r == [] || r[|r| - 1] != '0'
  {
    if s != [] && s[|s| - 1] == '0' then TrimZeros(s[..|s| - 1]) else s
  }

  /** The fractional digits of fp / 10^k, without trailing zeros. */
  function FracDigits(fp: nat, k: nat): string {
    TrimZeros(PadLeft(NatToString(fp), k))
  }

  /** What is written after the '.': the fractional digits, or "0". */
  function FracText(fp: nat, k: nat): (r: string)
    ensures |r| > 0
  {
    var frac := FracDigits(fp, k);
    if frac == [] then "0" else frac
  }

  /** The whole part and the last k digits of a. */
  function Split(a: nat, k: nat): (r: (nat, nat))
    ensures a == Scale(r.0, k) + r.1 && r.1 < Pow10(k)
  {
    if k == 0 then (a, 0)
    else
      var (q, m) := Split(a / 10, k - 1);
      (q, m * 10 + a % 10)
  }

  /** The text of ip + fp / 10^k: whole part, '.', fractional text. */
  function Body(ip: nat, fp: nat, k: nat): string {
    NatToString(ip) + "." + FracText(fp, k)
  }

  /** A double's `toString()` in plain notation: integer part, '.', and the
      fractional digits, "0" when there are none. */
  function Format(d: Decimal): (r: string)
    ensures |r| > 0 && (r[0] == '-' <==> d.units < 0)
  {
    var a: nat := if d.units < 0 then -d.units else d.units;
    var (ip, fp) := Split(a, d.scale);
    var body := Body(ip, fp, d.scale);
    assert IsDigit(body[0]) by {
      assert body[0] == NatToString(ip)[0];
    }
    if d.units < 0 then "-" + body else body
  }

  // ---------------------------------------------------------------------
  // Reading back a rendered amount gives the same number.

  lemma AllDigitsConcat(a: string, b: string)
    requires AllDigits(a) && AllDigits(b)
    ensures AllDigits(a + b)
  {
    forall i | 0 <= i < |a + b|
      ensures IsDigit((a + b)[i])
    {
      if i < |a| {
        assert (a + b)[i] == a[i];
      } else {
        assert (a + b)[i] == b[i - |a|];
      }
    }
  }

  /** Digits written after others shift them left. */
  lemma {:induction false} DigitsValueConcat(a: string, b: string)
    requires AllDigits(a) && AllDigits(b)
    ensures AllDigits(a + b)
    ensures DigitsValue(a + b) == Scale(DigitsValue(a), |b|) + DigitsValue(b)
  {
    AllDigitsConcat(a, b);
    if b != [] {
      var b' := b[..|b| - 1];
      assert (a + b)[..|a + b| - 1] == a + b';
      assert (a + b)[|a + b| - 1] == b[|b| - 1];
      DigitsValueConcat(a, b');
    } else {
      assert a + b == a;
    }
  }

  lemma {:induction false} ZerosValue(n: nat)
    ensures DigitsValue(Zeros(n)) == 0
  {
    if n > 0 {
      assert Zeros(n)[..n - 1] == Zeros(n - 1);
      ZerosValue(n - 1);
    }
  }

  lemma PadLeftValue(s: string, n: nat)
    requires AllDigits(s)
    ensures AllDigits(PadLeft(s, n))
    ensures DigitsValue(PadLeft(s, n)) == DigitsValue(s)
  {
    if |s| < n {
      var z := Zeros(n - |s|);
      DigitsValueConcat(z, s);
      ZerosValue(n - |s|);
      ScaleZero(|s|);
    }
  }

  lemma {:induction false} NatToStringLength(n: nat, k: nat)
    requires k >= 1 && n < Pow10(k)
    ensures |NatToString(n)| <= k
  {
    if n >= 10 {
      NatToStringLength(n / 10, k - 1);
    }
  }

  lemma {:induction false} TrimZerosValue(s: string)
    requires AllDigits(s)
    ensures AllDigits(TrimZeros(s))
    ensures DigitsValue(s) == Scale(DigitsValue(TrimZeros(s)), |s| - |TrimZeros(s)|)
  {
    if s != [] && s[|s| - 1] == '0' {
      var s' := s[..|s| - 1];
      TrimZerosValue(s');
    }
  }

  /** With no digit places, the only fraction is zero and it is written
      with no digits. */
  lemma FracDigitsNone(fp: nat)
    requires fp < Pow10(0)
    ensures FracDigits(fp, 0) == []
  {
    assert fp == 0;
    assert NatToString(fp) == "0";
    assert PadLeft("0", 0) == "0";
    assert TrimZeros("0") == TrimZeros("");
  }

  /** k places hold the digits of fp padded to k, less trailing zeros. */
  lemma FracDigitsPlaces(fp: nat, k: nat)
    requires k >= 1 && fp < Pow10(k)
    ensures AllDigits(PadLeft(NatToString(fp), k))
    ensures |PadLeft(NatToString(fp), k)| == k
    ensures DigitsValue(PadLeft(NatToString(fp), k)) == fp
  {
    NatToStringValue(fp);
    NatToStringLength(fp, k);
    PadLeftValue(NatToString(fp), k);
  }

  lemma FracDigitsValue(fp: nat, k: nat)
    requires fp < Pow10(k)
    ensures AllDigits(FracDigits(fp, k)) && |FracDigits(fp, k)| <= k
    ensures Scale(DigitsValue(FracDigits(fp, k)), k - |FracDigits(fp, k)|) == fp
  {
    if k == 0 {
      FracDigitsNone(fp);
      assert fp == 0;
    } else {
      FracDigitsPlaces(fp, k);
      TrimZerosValue(PadLeft(NatToString(fp), k));
    }
  }

  lemma FracTextDigits(fp: nat, k: nat)
    requires fp < Pow10(k)
    ensures AllDigits(FracText(fp, k))
  {
    FracDigitsValue(fp, k);
  }

  /** Digits, '.', digits: the number of all the digits, scaled by the
      number after the '.'. */
  lemma ParseUnsignedParts(whole: string, frac: string)
    requires |whole| > 0 && |frac| > 0 && AllDigits(whole) && AllDigits(frac)
    ensures AllDigits(whole + frac)
    ensures ParseUnsigned(whole + "." + frac) == Some(Decimal(DigitsValue(whole + frac), |frac|))
  {
    var s := whole + "." + frac;
    assert forall i :: 0 <= i < |whole| ==> s[i] == whole[i];
    assert s[|whole|] == '.';
    var k := IndexOfDot(s);
    assert k == |whole|;
    assert s[..k] == whole;
    assert s[k + 1..] == frac;
    AllDigitsConcat(whole, frac);
  }

  /** The decimal Body's text reads back as. */
  function BodyDecimal(ip: nat, fp: nat, k: nat): Decimal
    requires fp < Pow10(k)
  {
    var t := FracText(fp, k);
    FracTextDigits(fp, k);
    AllDigitsConcat(NatToString(ip), t);
    Decimal(DigitsValue(NatToString(ip) + t), |t|)
  }

  lemma BodyParses(ip: nat, fp: nat, k: nat)
    requires fp < Pow10(k)
    ensures ParseUnsigned(Body(ip, fp, k)) == Some(BodyDecimal(ip, fp, k))
  {
    FracTextDigits(fp, k);
    ParseUnsignedParts(NatToString(ip), FracText(fp, k));
  }

  /** The units of BodyDecimal: the whole part shifted past the fraction. */
  lemma BodyUnits(ip: nat, fp: nat, k: nat)
    requires fp < Pow10(k)
    ensures AllDigits(FracText(fp, k))
    ensures BodyDecimal(ip, fp, k).units == Scale(ip, |FracText(fp, k)|) + DigitsValue(FracText(fp, k))
        && BodyDecimal(ip, fp, k).scale == |FracText(fp, k)|
  {
    var t := FracText(fp, k);
    FracTextDigits(fp, k);
    DigitsValueConcat(NatToString(ip), t);
    NatToStringValue(ip);
  }

  /** Whole part and fractional digits together denote ip + fp / 10^k. */
  lemma FracValue(ip: nat, fp: nat, k: nat, f: string)
    requires AllDigits(f) && |f| <= k
    requires Scale(DigitsValue(f), k - |f|) == fp
    ensures Value(Decimal(Scale(ip, |f|) + DigitsValue(f), |f|)) == Value(Decimal(Scale(ip, k) + fp, k))
  {
    var e: nat := k - |f|;
    var u := Scale(ip, |f|) + DigitsValue(f);
    Rescale(u, |f|, e);
    ScaleAdd(Scale(ip, |f|), DigitsValue(f), e);
    ScaleScale(ip, |f|, e);
  }

  /** With no fraction digits left, the body is the whole part and ".0". */
  lemma BodyNoFraction(ip: nat, fp: nat, k: nat)
    requires fp < Pow10(k) && FracDigits(fp, k) == []
    ensures fp == 0 && BodyDecimal(ip, fp, k) == Decimal(Scale(ip, 1), 1)
  {
    BodyUnits(ip, fp, k);
    assert FracText(fp, k) == "0";
    assert DigitsValue("0") == 0;
    FracDigitsValue(fp, k);
    ScaleZero(k);
  }

  lemma BodyValueNoFraction(ip: nat, fp: nat, k: nat)
    requires fp < Pow10(k) && FracDigits(fp, k) == []
    ensures Value(BodyDecimal(ip, fp, k)) == Value(Decimal(Scale(ip, k) + fp, k))
  {
    BodyNoFraction(ip, fp, k);
    Rescale(ip, 0, k);
    Rescale(ip, 0, 1);
  }

  lemma BodyValueFraction(ip: nat, fp: nat, k: nat)
    requires fp < Pow10(k) && FracDigits(fp, k) != []
    ensures Value(BodyDecimal(ip, fp, k)) == Value(Decimal(Scale(ip, k) + fp, k))
  {
    var f := FracDigits(fp, k);
    BodyUnits(ip, fp, k);
    assert FracText(fp, k) == f;
    FracDigitsValue(fp, k);
    assert BodyDecimal(ip, fp, k) == Decimal(Scale(ip, |f|) + DigitsValue(f), |f|);
    FracValue(ip, fp, k, f);
  }

  /** Body's text denotes the number ip + fp / 10^k it was made from. */
  lemma BodyValue(ip: nat, fp: nat, m: Decimal)
    requires fp < Pow10(m.scale) && m.units == Scale(ip, m.scale) + fp
    ensures Value(BodyDecimal(ip, fp, m.scale)) == Value(m)
  {
    var k := m.scale;
    if FracDigits(fp, k) == [] {
      BodyValueNoFraction(ip, fp, k);
    } else {
      BodyValueFraction(ip, fp, k);
    }
    assert Decimal(Scale(ip, k) + fp, k) == m;
  }

  lemma NegValue(d: Decimal)
    ensures Value(Negate(d)) == -Value(d)
  {
    ShiftNeg(d.units as real, d.scale);
  }

  /** A leading '-' negates what follows it. */
  lemma ParseNegative(body: string, x: Decimal)
    requires ParseUnsigned(body) == Some(x)
    ensures ParseDecimal("-" + body) == Some(Negate(x))
  {
    assert ("-" + body)[1..] == body;
  }

  /** A negative amount is written '-' and the text of its magnitude. */
  lemma ParseFormatNegative(d: Decimal) returns (ip: nat, fp: nat)
    requires d.units < 0
    ensures fp < Pow10(d.scale) && Scale(ip, d.scale) + fp == -d.units
    ensures ParseDecimal(Format(d)) == Some(Negate(BodyDecimal(ip, fp, d.scale)))
  {
    var r := Split(-d.units, d.scale);
    ip, fp := r.0, r.1;
    var body := Body(ip, fp, d.scale);
    assert Format(d) == "-" + body;
    BodyParses(ip, fp, d.scale);
    ParseNegative(body, BodyDecimal(ip, fp, d.scale));
  }

  /** Any other amount is written as the text of its value. */
  lemma ParseFormatNonNegative(d: Decimal) returns (ip: nat, fp: nat)
    requires d.units >= 0
    ensures fp < Pow10(d.scale) && Scale(ip, d.scale) + fp == d.units
    ensures ParseDecimal(Format(d)) == Some(BodyDecimal(ip, fp, d.scale))
  {
    var r := Split(d.units, d.scale);
    ip, fp := r.0, r.1;
    var body := Body(ip, fp, d.scale);
    assert Format(d) == body;
    assert IsDigit(body[0]) by {
      assert body[0] == NatToString(ip)[0];
    }
    BodyParses(ip, fp, d.scale);
  }

  /** A negative amount reads back as its value. */
  lemma FormatRoundTripNegative(d: Decimal)
    requires d.units < 0
    ensures ParseDecimal(Format(d)).Some?
    ensures Value(ParseDecimal(Format(d)).value) == Value(d)
  {
    var ip, fp := ParseFormatNegative(d);
    var b := BodyDecimal(ip, fp, d.scale);
    BodyValue(ip, fp, Negate(d));
    NegValue(b);
    NegValue(d);
  }

  /** A non-negative amount reads back as its value. */
  lemma FormatRoundTripNonNegative(d: Decimal)
    requires d.units >= 0
    ensures ParseDecimal(Format(d)).Some?
    ensures Value(ParseDecimal(Format(d)).value) == Value(d)
  {
    var ip, fp := ParseFormatNonNegative(d);
    BodyValue(ip, fp, d);
  }

  /** Rendering then reading an amount preserves its value. */
  lemma FormatRoundTrip(d: Decimal)
    ensures ParseDecimal(Format(d)).Some?
    ensures Value(ParseDecimal(Format(d)).value) == Value(d)
  {
    if d.units < 0 {
      FormatRoundTripNegative(d);
    } else {
      FormatRoundTripNonNegative(d);
    }
  }

  /** Zero is written "0.0", as a double zero is. */
  lemma FormatZero()
    ensures Format(Zero) == "0.0"
  {
    FracDigitsNone(0);
    assert Split(0, 0) == (0, 0);
    assert NatToString(0) == "0";
  }
}
