/**
 * The numeric part of a size expression.  parser.go converts it with
 * `strconv.ParseFloat(_, 64)`, which fails only when the correctly rounded
 * float64 overflows; the value of the literal itself is exact here.
 */
module Literal {
  import opened Grammar

  function Pow10(n: nat): (p: nat)
    ensures p >= 1
  {
    if n == 0 then 1 else 10 * Pow10(n - 1)
  }

  function DigitValue(c: char): (d: nat)
    requires IsDigit(c)
    ensures d <= 9
  {
    c as int - '0' as int
  }

  /** The value of a string of decimal digits, most significant first. */
  function DigitsValue(s: string): (v: nat)
    requires AllDigits(s)
    ensures v < Pow10(|s|)
  {
    if s == [] then 0
    else 10 * DigitsValue(s[..|s| - 1]) + DigitValue(s[|s| - 1])
  }

  /** The index of the first dot, or |n| when there is none. */
  function DotIndex(n: string): (d: nat)
    ensures d <= |n|
    ensures forall i | 0 <= i < d :: n[i] != '.'
    ensures d < |n| ==> n[d] == '.'
  {
    if n == [] || n[0] == '.' then 0 else 1 + DotIndex(n[1..])
  }

  /** A number literal is its digits before the dot, then, when there is a dot, digits after it. */
  lemma NumberParts(n: string)
    requires NumberPattern(n)
    ensures AllDigits(n[..DotIndex(n)])
    ensures DotIndex(n) < |n| ==> AllDigits(n[DotIndex(n) + 1..])
    ensures DotIndex(n) == |n| <==> IntegerPattern(n)
  {
    if IntegerPattern(n) {
      NoDotInInteger(n);
      assert n[..|n|] == n;
    } else {
      var j :| 0 <= j < |n| && n[j] == '.' && AllDigits(n[..j]) && IntegerPattern(n[j + 1..]);
      DotAfterDigits(n, j);
    }
  }

  lemma NoDotInInteger(n: string)
    requires IntegerPattern(n)
    ensures DotIndex(n) == |n|
  {
    assert DotIndex(n) < |n| ==> IsDigit(n[DotIndex(n)]);
  }

  lemma DotAfterDigits(n: string, j: nat)
    requires j < |n| && n[j] == '.' && AllDigits(n[..j])
    ensures DotIndex(n) == j
  {
    forall i | 0 <= i < j ensures n[i] != '.' {
      assert n[i] == n[..j][i];
    }
    FirstDotAt(n, j);
  }

  /** The exact rational value of a number literal: its whole digits plus its fraction digits over 10^(their count). */
  function LiteralValue(n: string): (v: real)
    requires NumberPattern(n)
    ensures v >= 0.0
  {
    NumberParts(n);
    var d := DotIndex(n);
    if d == |n| then DigitsValue(n) as real
    else
      var fraction := n[d + 1..];
      FractionBelowOne(fraction);
      DigitsValue(n[..d]) as real + DigitsValue(fraction) as real / Pow10(|fraction|) as real
  }

  /** A literal written as whole digits w, a dot and fraction digits f is w plus f over 10^|f|. */
  lemma FractionLiteralValue(w: string, f: string)
    requires AllDigits(w) && IntegerPattern(f)
    ensures NumberPattern(w + "." + f)
    ensures LiteralValue(w + "." + f) ==
      DigitsValue(w) as real + DigitsValue(f) as real / Pow10(|f|) as real
  {
    var n := w + "." + f;
    DottedLiteral(w, f);
    LiteralParts(n, |w|);
  }

  /** w + "." + f is a fraction literal whose first dot is at |w|. */
  lemma DottedLiteral(w: string, f: string)
    requires AllDigits(w) && IntegerPattern(f)
    ensures var n := w + "." + f;
      FractionPattern(n) && DotIndex(n) == |w| && n[..|w|] == w && n[|w| + 1..] == f
  {
    var n := w + "." + f;
    assert n[..|w|] == w && n[|w|] == '.' && n[|w| + 1..] == f;
    assert AllDigits(n[..|w|]) && IntegerPattern(n[|w| + 1..]);
    forall i | 0 <= i < |w| ensures n[i] != '.' {
      assert n[i] == w[i];
    }
    FirstDotAt(n, |w|);
  }

  /** The value of a literal whose first dot is at d. */
  lemma LiteralParts(n: string, d: nat)
    requires NumberPattern(n) && d < |n| && DotIndex(n) == d
    ensures AllDigits(n[..d]) && AllDigits(n[d + 1..])
    ensures LiteralValue(n) ==
      DigitsValue(n[..d]) as real + DigitsValue(n[d + 1..]) as real / Pow10(|n[d + 1..]|) as real
  {
    NumberParts(n);
  }

  lemma FirstDotAt(n: string, j: nat)
    requires j < |n| && n[j] == '.'
    requires forall i | 0 <= i < j :: n[i] != '.'
    ensures DotIndex(n) == j
  {
  }

  /** Fraction digits f stand for a value in [0, 1). */
  lemma FractionBelowOne(f: string)
    requires AllDigits(f)
    ensures 0.0 <= DigitsValue(f) as real / Pow10(|f|) as real < 1.0
  {
    QuotientBelowOne(DigitsValue(f) as real, Pow10(|f|) as real);
  }

  lemma QuotientBelowOne(a: real, b: real)
    requires 0.0 <= a < b
    ensures 0.0 <= a / b < 1.0
  {
  }

  /** A literal is below 10 to the number of its whole digits. */
  lemma LiteralBelowPower(n: string)
    requires NumberPattern(n)
    ensures LiteralValue(n) < Pow10(DotIndex(n)) as real
  {
    NumberParts(n);
    var d := DotIndex(n);
    if d < |n| {
      FractionBelowOne(n[d + 1..]);
      assert DigitsValue(n[..d]) + 1 <= Pow10(d);
    } else {
      assert n[..d] == n;
    }
  }

  /**
   * 2^1024 - 2^970, half-way between the largest float64, (2 - 2^-52) * 2^1023,
   * and 2^1024: (2^54 - 1) * 2^970, and 2^970 is 2^10 * (2^64)^15.  Rounding to nearest with ties to even sends
   * this value and everything above it to +Inf, which ParseFloat reports as
   * a range error.
   */
  const OverflowThreshold: nat :=
    var w := 0x1_0000_0000_0000_0000;  // 2^64
    0x3F_FFFF_FFFF_FFFF * 0x400 * w * w * w * w * w * w * w * w * w * w * w * w * w * w * w

  /** 2^53: every integer below it is a float64. */
  const MaxExactInteger: nat := 0x20_0000_0000_0000

  /** ParseFloat(n, 64) fails with a range error; that takes more than 12 digits before the dot. */
  predicate Overflows(n: string): (r: bool)
    requires NumberPattern(n)
    ensures r ==> DotIndex(n) > 12
  {
    ShortLiteralFits(n);
    LiteralValue(n) >= OverflowThreshold as real
  }

  /** A literal with at most 12 digits before its dot is below the overflow threshold. */
  lemma ShortLiteralFits(n: string)
    requires NumberPattern(n)
    ensures DotIndex(n) <= 12 ==> LiteralValue(n) < OverflowThreshold as real
  {
    LiteralBelowPower(n);
    if DotIndex(n) <= 12 {
      Pow10Monotone(DotIndex(n), 12);
    }
    Pow10Of12();
    ThresholdAbove12Digits();
  }

  lemma Pow10Of12()
    ensures Pow10(12) == 1_000_000_000_000
  {
  }

  lemma ThresholdAbove12Digits()
    ensures OverflowThreshold > 1_000_000_000_000
  {
  }

  lemma {:induction false} Pow10Monotone(a: nat, b: nat)
    requires a <= b
    ensures Pow10(a) <= Pow10(b)
    decreases b
  {
    if a < b {
      Pow10Monotone(a, b - 1);
    }
  }

  /** An integer literal below 2^53 never overflows. */
  lemma SmallIntegerFits(n: string)
    requires IntegerPattern(n) && DigitsValue(n) < MaxExactInteger
    ensures !Overflows(n)
  {
  }
}
