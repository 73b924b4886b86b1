/** Reading back the numbers that encoding/json writes for float32 values. */
module Decimals {
  import opened Floats
  import opened Json
  import opened Models
  import opened Text

  /** t before its first c, and after it; all of t and nothing if there is no c. */
  function Cut(t: string, c: char): (string, string) {
    if t == "" then ("", "")
    else if t[0] == c then ("", t[1..])
    else ([t[0]] + Cut(t[1..], c).0, Cut(t[1..], c).1)
  }

  lemma {:induction false} CutAt(a: string, c: char, b: string)
    requires c !in a
    ensures Cut(a + [c] + b, c) == (a, b)
  {
    var t := a + [c] + b;
    if a == "" {
      assert t[1..] == b;
    } else {
      assert t[1..] == a[1..] + [c] + b;
      CutAt(a[1..], c, b);
      assert [a[0]] + a[1..] == a;
    }
  }

  lemma {:induction false} CutNowhere(a: string, c: char)
    requires c !in a
    ensures Cut(a, c) == (a, "")
  {
    if a != "" {
      CutNowhere(a[1..], c);
      assert [a[0]] + a[1..] == a;
    }
  }

  /** The value of digits, perhaps with a point among them, times 10^exp, as that many times 10^-53. */
  function ReadFixed(t: string, exp: int): Option<int> {
    var (whole, fraction) := Cut(t, '.');
    var place := LEAST_PLACE + exp - |fraction|;
    if whole == "" || !AllDigits(whole + fraction) || place < 0 then None
    else Some(Natural(whole + fraction) * Pow10(place))
  }

  /** A JSON number without its sign. */
  function ReadUnsigned(t: string): Option<int> {
    var (mantissa, exponent) := Cut(t, 'e');
    var exp := if exponent == "" then Some(0) else Atoi(exponent);
    if exp.None? then None else ReadFixed(mantissa, exp.value)
  }

  /** The value of a JSON number as that many times 10^-53; None if it is no such whole number. */
  function ReadDecimal(t: string): Option<int> {
    if t != "" && t[0] == '-' then
      match ReadUnsigned(t[1..])
      case None => None
      case Some(n) => Some(-n)
    else ReadUnsigned(t)
  }

  // ---- what is read is what was written -----------------------------------------------------------

  lemma {:induction false} PowerOfSum(a: nat, b: nat)
    ensures Pow10(a + b) == Pow10(a) * Pow10(b)
  {
    if a > 0 {
      PowerOfSum(a - 1, b);
      TimesTen(Pow10(b), Pow10(a - 1));
    }
  }

  lemma {:induction false} LeadingZeros(n: nat, s: string)
    requires AllDigits(s)
    ensures AllDigits(Zeros(n) + s) && Natural(Zeros(n) + s) == Natural(s)
    decreases |s| + n
  {
    var t := Zeros(n) + s;
    if s != "" {
      LeadingZeros(n, s[..|s| - 1]);
      assert t[..|t| - 1] == Zeros(n) + s[..|s| - 1];
    } else if n > 0 {
      LeadingZeros(n - 1, "");
      assert t[..|t| - 1] == Zeros(n - 1) + "";
    }
  }

  lemma WholeIsRead(t: string, exp: int)
    requires t != "" && AllDigits(t) && LEAST_PLACE + exp >= 0
    ensures ReadFixed(t, exp) == Some(Natural(t) * Pow10(LEAST_PLACE + exp))
  {
    CutNowhere(t, '.');
    assert t + "" == t;
  }

  lemma PointIsRead(whole: string, fraction: string, exp: int)
    requires whole != "" && AllDigits(whole) && AllDigits(fraction) && LEAST_PLACE + exp - |fraction| >= 0
    ensures AllDigits(whole + fraction)
    ensures ReadFixed(whole + "." + fraction, exp) ==
            Some(Natural(whole + fraction) * Pow10(LEAST_PLACE + exp - |fraction|))
  {
    hide Natural;
    CutAt(whole, '.', fraction);
  }

  lemma FixedIsRead(f: Float32)
    requires f.Number? && (f.digits == "" || -5 <= f.point <= 21)
    ensures ReadFixed(Fixed(f), 0) == Some(Natural(f.digits) * Pow10(LEAST_PLACE + f.point - |f.digits|))
    ensures forall c :: c in Fixed(f) ==> IsDigit(c) || c == '.'
  {
    hide Natural, Pow10, ReadFixed;
    var n := |f.digits|;
    if f.point >= n {
      WholeFixedIsRead(f);
    } else if f.point > 0 {
      assert f.digits[..f.point] + f.digits[f.point..] == f.digits;
      PointIsRead(f.digits[..f.point], f.digits[f.point..], 0);
    } else {
      var fraction := Zeros(-f.point) + f.digits;
      LeadingZeros(-f.point, f.digits);
      PointIsRead("0", fraction, 0);
      assert "0." + Zeros(-f.point) + f.digits == "0" + "." + fraction;
      assert "0" + fraction == Zeros(1 - f.point) + f.digits;
      LeadingZeros(1 - f.point, f.digits);
    }
  }

  lemma WholeFixedIsRead(f: Float32)
    requires f.Number? && f.point >= |f.digits| && (f.digits == "" || f.point <= 21)
    ensures ReadFixed(Fixed(f), 0) == Some(Natural(f.digits) * Pow10(LEAST_PLACE + f.point - |f.digits|))
    ensures forall c :: c in Fixed(f) ==> IsDigit(c) || c == '.'
  {
    hide ReadFixed, Pow10;
    var k := f.point - |f.digits|;
    WholeIsRead(Fixed(f), 0);
    if f.digits == "" {
      assert Natural("0") == 0 by { assert "0"[..0] == ""; }
    } else {
      NaturalWithZeros(f.digits, k);
      PowerOfSum(k, LEAST_PLACE);
      Reassociate(Natural(f.digits), Pow10(k), Pow10(LEAST_PLACE));
    }
  }

  lemma Reassociate(a: int, b: int, c: int)
    ensures a * b * c == a * (b * c)
  {
  }

  function ExponentText(exp: int): string {
    if exp < 0 then "-" + Digits(-exp) else "+" + (if exp < 10 then "0" else "") + Digits(exp)
  }

  lemma ExponentIsRead(exp: int)
    requires -100 <= exp <= 100
    ensures ExponentText(exp) != "" && Atoi(ExponentText(exp)) == Some(exp)
  {
    var t := ExponentText(exp);
    var d := Digits(if exp < 0 then -exp else exp);
    if exp < 0 {
      assert t[1..] == d;
    } else if exp < 10 {
      LeadingZeros(1, d);
      assert t[1..] == Zeros(1) + d;
    } else {
      assert t[1..] == d;
    }
  }

  lemma ExponentHasDigits(exp: int)
    ensures forall c :: c in ExponentText(exp) ==> IsDigit(c) || c == '-' || c == '+'
  {
    var d := Digits(if exp < 0 then -exp else exp);
    assert forall c :: c in d ==> IsDigit(c);
  }

  function Mantissa(digits: string): string
    requires digits != ""
  {
    digits[..1] + if |digits| > 1 then "." + digits[1..] else ""
  }

  lemma MantissaIsRead(f: Float32)
    requires f.Number? && f.digits != ""
    ensures ReadFixed(Mantissa(f.digits), f.point - 1) ==
            Some(Natural(f.digits) * Pow10(LEAST_PLACE + f.point - |f.digits|))
    ensures forall c :: c in Mantissa(f.digits) ==> IsDigit(c) || c == '.'
  {
    hide ReadFixed, Natural, Pow10;
    var d := f.digits;
    if |d| == 1 {
      assert d[..1] == d && Mantissa(d) == d;
      WholeIsRead(d, f.point - 1);
    } else {
      assert d[..1] + d[1..] == d && Mantissa(d) == d[..1] + "." + d[1..];
      PointIsRead(d[..1], d[1..], f.point - 1);
    }
  }

  lemma ScientificIsRead(f: Float32)
    requires f.Number? && f.digits != ""
    ensures ReadUnsigned(Scientific(f)) == Some(Natural(f.digits) * Pow10(LEAST_PLACE + f.point - |f.digits|))
    ensures forall c :: c in Scientific(f) ==> IsDigit(c) || c == '.' || c == 'e' || c == '-' || c == '+'
    ensures Scientific(f) != "" && IsDigit(Scientific(f)[0])
  {
    hide ReadFixed, Natural, Pow10, Atoi;
    var (mantissa, exponent) := (Mantissa(f.digits), ExponentText(f.point - 1));
    assert Scientific(f) == mantissa + "e" + exponent by { hide Digits; }
    MantissaIsRead(f);
    ExponentIsRead(f.point - 1);
    ExponentHasDigits(f.point - 1);
    hide Mantissa, ExponentText;
    CutAt(mantissa, 'e', exponent);
    assert 'e' !in mantissa;
  }

  /** A finite float32 is written with exactly its value. */
  lemma FloatIsRead(f: Float32)
    requires f.Number?
    ensures FloatText(f).Some? && ReadDecimal(FloatText(f).value) == Some(Units(f))
    ensures FloatText(f).value != "" && forall c :: c in FloatText(f).value ==> Numeric(c)
  {
    hide Scientific, Fixed, Natural, Pow10, ReadFixed;
    var abs := if f.digits != "" && (f.point < -5 || f.point > 21) then Scientific(f) else Fixed(f);
    UnsignedIsRead(f, abs);
    var t := FloatText(f).value;
    hide ReadUnsigned;
    if f.neg { assert t == "-" + abs && t[1..] == abs; }
  }

  lemma UnsignedIsRead(f: Float32, abs: string)
    requires f.Number? && abs == if f.digits != "" && (f.point < -5 || f.point > 21) then Scientific(f) else Fixed(f)
    ensures ReadUnsigned(abs) == Some(Natural(f.digits) * Pow10(LEAST_PLACE + f.point - |f.digits|))
    ensures abs != "" && IsDigit(abs[0]) && forall c :: c in abs ==> Numeric(c)
  {
    hide Scientific, Natural, Pow10, ReadFixed;
    if f.digits != "" && (f.point < -5 || f.point > 21) {
      ScientificIsRead(f);
    } else {
      FixedIsRead(f);
      FixedStarts(f);
      hide Fixed;
      CutNowhere(abs, 'e');
    }
  }

  lemma FixedStarts(f: Float32)
    requires f.Number? && (f.digits == "" || -5 <= f.point <= 21)
    ensures Fixed(f) != "" && IsDigit(Fixed(f)[0])
  {
  }
}
