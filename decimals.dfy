/**
 * java.math.BigDecimal as a scaled integer: Decimal(u, s) is the number u / 10^s.
 * Only what the catalog uses: numeric comparison (compareTo), a.divide(b, scale, HALF_UP),
 * the string constructor and the plain toString form.
 */
module Decimals {
  import opened Wrappers

  datatype Decimal = Decimal(unscaled: int, scale: nat)

  function Pow10(n: nat): (r: nat)
    ensures r >= 1
  {
    if n == 0 then 1 else 10 * Pow10(n - 1)
  }

  function Abs(x: int): nat
  {
    if x < 0 then -x else x
  }

  predicate IsZero(a: Decimal)
  {
    a.unscaled == 0
  }

  /** a.compareTo(b) <= 0: compares values, whatever the scales. */
  predicate LessEq(a: Decimal, b: Decimal)
  {
    a.unscaled * Pow10(b.scale) <= b.unscaled * Pow10(a.scale)
  }

  // ---------------------------------------------------------------------------
  // Division with RoundingMode.HALF_UP

  /** a / b rounded to the nearest natural, a tie rounded up. */
  function HalfUpNat(a: nat, b: nat): (m: nat)
    requires b > 0
    ensures 2 * Abs(a - m * b) <= b
    ensures 2 * Abs(a - m * b) == b ==> m * b > a
  {
    var q, r := a / b, a % b;
    assert a == q * b + r && 0 <= r < b;
    if 2 * r >= b then
      assert (q + 1) * b == q * b + b;
      q + 1
    else
      q
  }

  /** Multiplying by a negated factor negates the product. */
  lemma MulNegations(x: int, y: int)
    ensures x * (-y) == -(x * y) && (-x) * y == -(x * y) && (-x) * (-y) == x * y
  {
  }

  /**
   * n / d rounded to an integer as BigDecimal's HALF_UP does: to the nearest integer,
   * and a tie away from zero (so the sign of a negative quotient is handled explicitly).
   */
  function DivHalfUp(n: int, d: int): (q: int)
    requires d != 0
    ensures 2 * Abs(n - q * d) <= Abs(d)
    ensures 2 * Abs(n - q * d) == Abs(d) ==> Abs(q * d) > Abs(n)
  {
    var m: int := HalfUpNat(Abs(n), Abs(d));
    var q := if (n < 0) == (d < 0) then m else -m;
    SignedQuotient(n, d, m, q);
    q
  }

  /** Multiplying back the signed quotient gives the unsigned one's product, with n's sign. */
  lemma SignedQuotient(n: int, d: int, m: int, q: int)
    requires d != 0 && m >= 0
    requires q == if (n < 0) == (d < 0) then m else -m
    ensures Abs(q * d) == m * Abs(d) && Abs(n - q * d) == Abs(Abs(n) - m * Abs(d))
  {
    var a: int, b: int := Abs(n), Abs(d);
    MulNegations(m, b);
    if n < 0 && d < 0 {
      assert d == -b && n == -a && q == m;
      assert q * d == -(m * b);
      assert n - q * d == -(a - m * b);
    } else if n < 0 {
      assert d == b && n == -a && q == -m;
      assert q * d == -(m * b);
      assert n - q * d == -(a - m * b);
    } else if d < 0 {
      assert d == -b && n == a && q == -m;
      assert q * d == m * b;
    } else {
      assert q * d == m * b;
    }
  }

  /**
   * q is the quotient a / b to q.scale fractional digits, HALF_UP: with the denominators
   * cleared, |q - a/b| is at most half a unit of q's last place, and a tie lies below |q|.
   */
  predicate IsHalfUpQuotient(q: Decimal, a: Decimal, b: Decimal)
  {
    var n := a.unscaled * Pow10(b.scale) * Pow10(q.scale);
    var d := b.unscaled * Pow10(a.scale);
    && 2 * Abs(n - q.unscaled * d) <= Abs(d)
    && (2 * Abs(n - q.unscaled * d) == Abs(d) ==> Abs(q.unscaled * d) > Abs(n))
  }

  /** a.divide(b, scale, RoundingMode.HALF_UP); None stands for the ArithmeticException on a zero divisor. */
  function Divide(a: Decimal, b: Decimal, scale: nat): (r: Option<Decimal>)
    ensures r.None? <==> IsZero(b)
    ensures r.Some? ==> r.value.scale == scale && IsHalfUpQuotient(r.value, a, b)
  {
    if b.unscaled == 0 then None
    else Some(Decimal(DivHalfUp(a.unscaled * Pow10(b.scale) * Pow10(scale), b.unscaled * Pow10(a.scale)), scale))
  }

  // ---------------------------------------------------------------------------
  // Text: new BigDecimal(String) and toString

  predicate IsDigit(c: char)
  {
    '0' <= c <= '9'
  }

  predicate AllDigits(s: string)
  {
    forall i :: 0 <= i < |s| ==> IsDigit(s[i])
  }

  function DigitValue(c: char): nat
    requires IsDigit(c)
  {
    (c as int) - ('0' as int)
  }

  function DigitChar(n: nat): (c: char)
    requires n < 10
    ensures IsDigit(c) && DigitValue(c) == n
  {
    (('0' as int) + n) as char
  }

  /** The number a string of decimal digits spells, most significant digit first. */
  function DigitsValue(s: string): nat
    requires AllDigits(s)
  {
    if s == [] then 0 else DigitsValue(s[..|s| - 1]) * 10 + DigitValue(s[|s| - 1])
  }

  /** The decimal digits of n, left-padded with '0' to at least width characters (at least one). */
  function Digits(n: nat, width: nat): (s: string)
    ensures AllDigits(s) && |s| >= width && |s| >= 1
    ensures DigitsValue(s) == n
    decreases n + width
  {
    if n < 10 && width <= 1 then
      [DigitChar(n)]
    else
      var s := Digits(n / 10, if width == 0 then 0 else width - 1) + [DigitChar(n % 10)];
      assert s[..|s| - 1] == Digits(n / 10, if width == 0 then 0 else width - 1);
      s
  }

  /** BigDecimal.toString for a non-negative scale, in plain (not exponent) notation. */
  function Format(d: Decimal): string
  {
    (if d.unscaled < 0 then "-" else "") + FormatMagnitude(d)
  }

  /** The digits of |unscaled|, with a point before the last scale of them (padded so one digit precedes it). */
  function FormatMagnitude(d: Decimal): string
  {
    var t := Digits(Abs(d.unscaled), d.scale + 1);
    if d.scale == 0 then t else t[..|t| - d.scale] + ['.'] + t[|t| - d.scale..]
  }

  /** The index of the first '.' in s, or |s| if there is none. */
  function FirstDot(s: string): (k: nat)
    ensures k <= |s|
    ensures k < |s| ==> s[k] == '.'
    ensures forall i :: 0 <= i < k ==> s[i] != '.'
  {
    if s == [] then 0 else if s[0] == '.' then 0 else 1 + FirstDot(s[1..])
  }

  /** FirstDot is the one index meeting its own postconditions. */
  lemma {:induction false} FirstDotAt(s: string, k: nat)
    requires k <= |s| && (k < |s| ==> s[k] == '.')
    requires forall i :: 0 <= i < k ==> s[i] != '.'
    ensures FirstDot(s) == k
  {
    if k > 0 {
      FirstDotAt(s[1..], k - 1);
    }
  }

  /** Digits with at most one '.', at least one digit in all; the scale is the number of digits after the point. */
  function ParseUnsigned(s: string): (r: Option<Decimal>)
    ensures r.Some? ==> r.value.unscaled >= 0
    ensures r.Some? ==> |s| > 0 && forall i :: 0 <= i < |s| ==> IsDigit(s[i]) || s[i] == '.'
  {
    var k := FirstDot(s);
    var whole := s[..k];
    var fraction := if k < |s| then s[k + 1..] else "";
    if AllDigits(whole + fraction) && |whole + fraction| > 0 then
      assert forall i :: 0 <= i < |s| ==> IsDigit(s[i]) || s[i] == '.' by {
        forall i | 0 <= i < |s| ensures IsDigit(s[i]) || s[i] == '.' {
          if i < k { assert s[i] == (whole + fraction)[i]; }
          else if i > k { assert s[i] == (whole + fraction)[i - 1]; }
        }
      }
      Some(Decimal(DigitsValue(whole + fraction), |fraction|))
    else
      None
  }

  /** new BigDecimal(s): an optional sign and then ParseUnsigned; None stands for NumberFormatException. */
  function ParseDecimal(s: string): (r: Option<Decimal>)
    ensures r.Some? ==> |s| > 0 && forall i :: 0 <= i < |s| ==> IsDigit(s[i]) || s[i] == '.' || (i == 0 && (s[i] == '-' || s[i] == '+'))
  {
    if |s| > 0 && s[0] == '-' then
      match ParseUnsigned(s[1..])
      case Some(d) => Some(Decimal(-d.unscaled, d.scale))
      case None => None
    else if |s| > 0 && s[0] == '+' then ParseUnsigned(s[1..])
    else ParseUnsigned(s)
  }

  /** A digit string without a point reads as its value at scale 0. */
  lemma ParseWholeDigits(t: string)
    requires AllDigits(t) && |t| > 0
    ensures ParseUnsigned(t) == Some(Decimal(DigitsValue(t), 0))
  {
    FirstDotAt(t, |t|);
    assert t[..|t|] + "" == t;
  }

  /** With the first point at k, the string reads as the digits around it, scaled by those after it. */
  lemma ParseAtDot(s: string, t: string, k: nat)
    requires AllDigits(t) && |t| > 0 && k < |s| && FirstDot(s) == k
    requires s[..k] + s[k + 1..] == t
    ensures ParseUnsigned(s) == Some(Decimal(DigitsValue(t), |s| - k - 1))
  {
  }

  /** Digits with a point before the last |t| - k of them read as the value of all digits at scale |t| - k. */
  lemma ParsePointedDigits(t: string, k: nat, s: string)
    requires AllDigits(t) && |t| > 0 && k <= |t|
    requires s == t[..k] + ['.'] + t[k..]
    ensures ParseUnsigned(s) == Some(Decimal(DigitsValue(t), |t| - k))
  {
    assert |s| == |t| + 1 && s[k] == '.';
    forall i | 0 <= i < k ensures s[i] != '.' {
      assert s[i] == t[i];
    }
    FirstDotAt(s, k);
    assert s[..k] + s[k + 1..] == t by {
      assert s[..k] == t[..k];
      assert s[k + 1..] == t[k..];
      assert t[..k] + t[k..] == t;
    }
    ParseAtDot(s, t, k);
  }

  /** The magnitude's text starts with a digit and reads back as |unscaled| at the same scale. */
  lemma ParseMagnitude(d: Decimal, body: string)
    requires body == FormatMagnitude(d)
    ensures |body| > 0 && IsDigit(body[0])
    ensures ParseUnsigned(body) == Some(Decimal(Abs(d.unscaled), d.scale))
  {
    var t := Digits(Abs(d.unscaled), d.scale + 1);
    if d.scale == 0 {
      ParseWholeDigits(t);
    } else {
      ParsePointedDigits(t, |t| - d.scale, body);
      assert body[0] == t[0];
    }
  }

  /** Whatever Format spells, the string constructor reads back as the same value and scale. */
  lemma ParseFormat(d: Decimal)
    ensures ParseDecimal(Format(d)) == Some(d)
  {
    var body := FormatMagnitude(d);
    ParseMagnitude(d, body);
    ParseSigned(Format(d), body, d.unscaled < 0);
  }

  /** A leading '-' negates what the unsigned remainder reads as; without a sign the text reads as it is. */
  lemma ParseSigned(s: string, body: string, negative: bool)
    requires |body| > 0 && IsDigit(body[0]) && ParseUnsigned(body).Some?
    requires s == (if negative then "-" else "") + body
    ensures ParseDecimal(s) == Some(
      if negative then Decimal(-ParseUnsigned(body).value.unscaled, ParseUnsigned(body).value.scale)
      else ParseUnsigned(body).value)
  {
    if negative {
      assert s[0] == '-' && s[1..] == body;
    } else {
      assert s == body && s[0] != '-' && s[0] != '+';
    }
  }

  /** Digits w, a point and digits f (not both empty) read as the value of w + f at scale |f|. */
  lemma ParsePointedBody(w: string, f: string, body: string)
    requires AllDigits(w) && AllDigits(f) && |w + f| > 0
    requires body == w + ['.'] + f
    ensures |body| > 0 && body[0] != '-' && body[0] != '+'
    ensures ParseUnsigned(body) == Some(Decimal(DigitsValue(w + f), |f|))
  {
    var t := w + f;
    assert AllDigits(t) by {
      forall i | 0 <= i < |t| ensures IsDigit(t[i]) {
        if i < |w| { assert t[i] == w[i]; } else { assert t[i] == f[i - |w|]; }
      }
    }
    assert t[..|w|] == w && t[|w|..] == f;
    ParsePointedDigits(t, |w|, body);
    if |w| > 0 { assert body[0] == w[0]; } else { assert body[0] == '.'; }
  }

  /** An optional sign before an unsigned numeral: '-' negates it, '+' and no sign keep it. */
  lemma ParseSignedNumeral(sign: string, body: string, s: string)
    requires sign == "" || sign == "+" || sign == "-"
    requires |body| > 0 && body[0] != '-' && body[0] != '+' && ParseUnsigned(body).Some?
    requires s == sign + body
    ensures ParseDecimal(s) == Some(Decimal(
      (if sign == "-" then -1 else 1) * ParseUnsigned(body).value.unscaled, ParseUnsigned(body).value.scale))
  {
    if sign == "-" {
      assert s[0] == '-' && s[1..] == body;
    } else if sign == "+" {
      assert s[0] == '+' && s[1..] == body;
    } else {
      assert s == body;
    }
  }

  /**
   * Every pointed numeral the string constructor reads: an optional sign, digits w, a point
   * and digits f (either side possibly empty, not both) is the value of w + f at scale |f|.
   */
  lemma ParsePointedNumeral(sign: string, w: string, f: string, body: string, s: string)
    requires sign == "" || sign == "+" || sign == "-"
    requires AllDigits(w) && AllDigits(f) && |w + f| > 0
    requires body == w + ['.'] + f && s == sign + body
    ensures ParseDecimal(s) == Some(Decimal((if sign == "-" then -1 else 1) * DigitsValue(w + f), |f|))
  {
    ParsePointedBody(w, f, body);
    ParseSignedNumeral(sign, body, s);
  }

  /** Every numeral without a point: an optional sign and digits w read as the value of w at scale 0. */
  lemma ParseWholeNumeral(sign: string, w: string, s: string)
    requires sign == "" || sign == "+" || sign == "-"
    requires AllDigits(w) && |w| > 0
    requires s == sign + w
    ensures ParseDecimal(s) == Some(Decimal((if sign == "-" then -1 else 1) * DigitsValue(w), 0))
  {
    ParseWholeDigits(w);
    assert IsDigit(w[0]);
    ParseSignedNumeral(sign, w, s);
  }
}
