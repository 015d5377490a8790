/**
 Numeric literals. The tokenizer gathers ASCII digits and '.' characters
 and hands each gathered run to double.Parse with the invariant culture;
 here that parse is a function from a string to an optional real.
 It accepts exactly the strings made of digits with at most one decimal
 point and at least one digit ("12", "1.5", "5.", ".5") and rejects the
 others ("1.2.3", ".").
 */
module Numerals {
  import opened Tokens

  predicate IsDigit(c: char) {
    '0' <= c <= '9'
  }

  /** The characters the tokenizer gathers into a pending number. */
  predicate IsNumChar(c: char) {
    IsDigit(c) || c == '.'
  }

  predicate AllDigits(s: string) {
    forall k :: 0 <= k < |s| ==> IsDigit(s[k])
  }

  /** The grammar double.Parse accepts on runs of digits and dots. */
  predicate IsNumeral(s: string) {
    && (forall k :: 0 <= k < |s| ==> IsNumChar(s[k]))
    && (forall i, j :: 0 <= i < j < |s| && s[i] == '.' ==> s[j] != '.')
    && (exists k :: 0 <= k < |s| && IsDigit(s[k]))
  }

  function DigitValue(c: char): (d: nat)
    requires IsDigit(c)
    ensures d < 10
  {
    (c as int) - ('0' as int)
  }

  /** The value of a string of decimal digits, most significant first. */
  function DigitsValue(s: string): nat
    requires AllDigits(s)
  {
    if s == [] then 0 else 10 * DigitsValue(s[..|s| - 1]) + DigitValue(s[|s| - 1])
  }

  function Pow10(n: nat): (p: nat)
    ensures p >= 1
  {
    if n == 0 then 1 else 10 * Pow10(n - 1)
  }

  /** The digits of a followed by those of b: a shifted left by |b| places, plus b. */
  lemma {:induction false} DigitsValueAppend(a: string, b: string)
    requires AllDigits(a) && AllDigits(b)
    ensures AllDigits(a + b)
    ensures DigitsValue(a + b) == DigitsValue(a) * Pow10(|b|) + DigitsValue(b)
    decreases |b|
  {
    if b == [] {
      assert a + b == a;
    } else {
      var b0 := b[..|b| - 1];
      var c := b[|b| - 1];
      assert AllDigits(b0);
      assert (a + b)[..|a + b| - 1] == a + b0 && (a + b)[|a + b| - 1] == c;
      DigitsValueAppend(a, b0);
      var x, y, z, w := DigitsValue(a), Pow10(|b0|), DigitsValue(b0), DigitValue(c);
      assert DigitsValue(a + b) == 10 * (x * y + z) + w;
      ShiftDigit(x, y, z, w);
    }
  }

  /** Appending digit w to x * y + z is appending it to z, with x shifted one place further. */
  lemma ShiftDigit(x: int, y: int, z: int, w: int)
    ensures 10 * (x * y + z) + w == x * (10 * y) + (10 * z + w)
  {
  }

  /** A whole part x and a fraction z / y, scaled up by y, are the integer n = x * y + z. */
  /** A value shifted left by k decimal places. */
  function Scaled(v: real, k: nat): real
  {
    v * Pow10(k) as real
  }

  lemma ScaledValue(v: real, x: nat, k: nat, z: nat, n: nat)
    requires n == x * Pow10(k) + z
    requires v == x as real + z as real / Pow10(k) as real
    ensures Scaled(v, k) == n as real
  {
    var y := Pow10(k);
    assert (z as real / y as real) * y as real == z as real;
    assert (x * y) as real == x as real * y as real;
  }

  /** The position of the first '.', or |s| when there is none. */
  function DotIndex(s: string): (d: nat)
    ensures d <= |s|
    ensures forall k :: 0 <= k < d ==> s[k] != '.'
    ensures d < |s| ==> s[d] == '.'
  {
    if s == [] || s[0] == '.' then 0 else 1 + DotIndex(s[1..])
  }

  /** The digits of a numeral with its point, if any, taken out. */
  function Unpointed(s: string): (t: string)
    requires IsNumeral(s)
    ensures AllDigits(t)
  {
    var d := DotIndex(s);
    var t := if d == |s| then s else s[..d] + s[d + 1..];
    assert AllDigits(t) by {
      forall k | 0 <= k < |t| ensures IsDigit(t[k]) {
        if k < d {
          assert t[k] == s[k];
        } else {
          assert t[k] == s[k + 1] && s[k + 1] != '.';
        }
      }
    }
    t
  }

  /** The number of digits after the point; none when there is no point. */
  function Places(s: string): nat {
    if DotIndex(s) < |s| then |s| - DotIndex(s) - 1 else 0
  }

  /**
   double.Parse on a run of digits and dots: the integer part before the
   point plus the fraction after it, or None where the parse throws.
   */
  function ParseNumber(s: string): (r: Option<real>)
    ensures r.Some? <==> IsNumeral(s)
    ensures r.Some? ==> r.value >= 0.0
    ensures r.Some? && AllDigits(s) ==> r.value == DigitsValue(s) as real
  {
    if !IsNumeral(s) then None
    else
      var d := DotIndex(s);
      assert AllDigits(s[..d]) by {
        forall k | 0 <= k < d ensures IsDigit(s[..d][k]) {
          assert IsNumChar(s[k]) && s[k] != '.';
        }
      }
      var whole := DigitsValue(s[..d]) as real;
      if d == |s| then
        assert s[..d] == s;
        Some(whole)
      else
        var frac := s[d + 1..];
        assert AllDigits(frac) by {
          forall k | 0 <= k < |frac| ensures IsDigit(frac[k]) {
            assert IsNumChar(s[d + 1 + k]) && s[d + 1 + k] != '.';
          }
        }
        Some(whole + DigitsValue(frac) as real / Pow10(|frac|) as real)
  }

  /** The two digit runs around a numeral's point, and what they are worth. */
  lemma {:induction false} PointedParts(s: string)
    requires IsNumeral(s) && DotIndex(s) < |s|
    ensures AllDigits(s[..DotIndex(s)]) && AllDigits(s[DotIndex(s) + 1..])
    ensures ParseNumber(s).value
      == DigitsValue(s[..DotIndex(s)]) as real + DigitsValue(s[DotIndex(s) + 1..]) as real / Pow10(Places(s)) as real
    ensures DigitsValue(Unpointed(s))
      == DigitsValue(s[..DotIndex(s)]) * Pow10(Places(s)) + DigitsValue(s[DotIndex(s) + 1..])
  {
    var d := DotIndex(s);
    var whole, frac := s[..d], s[d + 1..];
    assert AllDigits(whole) by {
      forall k | 0 <= k < d ensures IsDigit(whole[k]) {
        assert IsNumChar(s[k]) && s[k] != '.';
      }
    }
    assert AllDigits(frac) by {
      forall k | 0 <= k < |frac| ensures IsDigit(frac[k]) {
        assert IsNumChar(s[d + 1 + k]) && s[d + 1 + k] != '.';
      }
    }
    DigitsValueAppend(whole, frac);
    assert Unpointed(s) == whole + frac && Places(s) == |frac|;
  }

  /**
   The value of a numeral, scaled up by ten for each digit after its point,
   is the integer its digits spell without the point.
   */
  lemma {:induction false} ParseScaled(s: string)
    requires IsNumeral(s)
    ensures Scaled(ParseNumber(s).value, Places(s)) == DigitsValue(Unpointed(s)) as real
  {
    var d := DotIndex(s);
    if d == |s| {
      assert Unpointed(s) == s && Places(s) == 0 && Pow10(0) == 1;
    } else {
      PointedParts(s);
      ScaledValue(ParseNumber(s).value, DigitsValue(s[..d]), Places(s),
        DigitsValue(s[d + 1..]), DigitsValue(Unpointed(s)));
    }
  }

  /** The decimal digits of a natural number, without leading zeros. */
  function NatDigits(n: nat): (s: string)
    ensures |s| > 0 && AllDigits(s)
    ensures DigitsValue(s) == n
  {
    var last := [('0' as int + n % 10) as char];
    if n < 10 then last
    else
      var s := NatDigits(n / 10) + last;
      assert s[..|s| - 1] == NatDigits(n / 10);
      s
  }

  /** Printing a natural number and parsing it back gives the number. */
  lemma ParseNatDigits(n: nat)
    ensures ParseNumber(NatDigits(n)) == Some(n as real)
  {
    var s := NatDigits(n);
    assert IsDigit(s[0]);
    assert IsNumeral(s);
  }
}
