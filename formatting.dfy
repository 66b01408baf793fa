/**
 * `BytesToSize`: choose the unit of defaultMeasure at which the size is
 * rendered.  The size is a float64; dividing a value of at least 1024 by
 * 1024 is exact in float64, so the walk up the ladder is modelled on reals
 * without loss.
 */
module Formatting {
  import opened Outcomes
  import opened Measuring

  /**
   * What BytesToSize renders: the literal "0B", or the magnitude rounded to
   * `precision` decimals and printed with that many digits, then the unit.
   */
  datatype Rendering =
    | Verbatim(text: string)
    | Rounded(magnitude: real, precision: nat, unit: string)

  /** The size expressed in the k-th unit of the ladder. */
  function Scaled(size: real, k: nat): real {
    size / Pow1024(k) as real
  }

  /** The unit index reached by climbing from index k while the size is at least 1024 of the current unit. */
  function LadderFrom(size: real, k: nat): (i: nat)
    requires k < |DefaultMeasure|
    ensures k <= i < |DefaultMeasure|
    ensures i < |DefaultMeasure| - 1 ==> Scaled(size, i) < 1024.0
    ensures forall j | k <= j < i :: Scaled(size, j) >= 1024.0
    decreases |DefaultMeasure| - k
  {
    if Scaled(size, k) < 1024.0 || k == |DefaultMeasure| - 1 then k
    else LadderFrom(size, k + 1)
  }

  /**
   * The unit BytesToSize settles on: the first index at which the size is
   * below 1024 of that unit, or the last one ("EB") when there is none.
   */
  function LadderIndex(size: real): (i: nat)
    ensures i < |DefaultMeasure|
    ensures i < |DefaultMeasure| - 1 ==> Scaled(size, i) < 1024.0
    ensures forall j | 0 <= j < i :: Scaled(size, j) >= 1024.0
  {
    LadderFrom(size, 0)
  }

  /** The two conditions of LadderIndex single out one index. */
  lemma LadderIndexUnique(size: real, i: nat)
    requires i < |DefaultMeasure|
    requires i < |DefaultMeasure| - 1 ==> Scaled(size, i) < 1024.0
    requires forall j | 0 <= j < i :: Scaled(size, j) >= 1024.0
    ensures i == LadderIndex(size)
  {
  }

  /** Climbing one unit divides the scaled size by 1024. */
  lemma ScaledStep(size: real, k: nat)
    ensures Scaled(size, k + 1) == Scaled(size, k) / 1024.0
  {
    var p := Pow1024(k) as real;
    assert Pow1024(k + 1) as real == 1024.0 * p;
    assert size / (1024.0 * p) == (size / p) / 1024.0;
  }

  /**
   * Above the byte unit the chosen magnitude is at least 1: the size is
   * rendered as a value in [1, 1024) of its unit, except in "B" and "EB".
   */
  lemma {:induction false} MagnitudeIsHumanScale(size: real)
    requires LadderIndex(size) > 0
    ensures Scaled(size, LadderIndex(size)) >= 1.0
    ensures LadderIndex(size) < |DefaultMeasure| - 1 ==> Scaled(size, LadderIndex(size)) < 1024.0
  {
    var i := LadderIndex(size);
    assert Scaled(size, i - 1) >= 1024.0;
    ScaledStep(size, i - 1);
  }

  /**
   * `BytesToSize`: zero is rendered as "0B"; any other size walks up
   * defaultMeasure, dividing by 1024, until the magnitude is below 1024 or
   * the unit is "EB".  The error return after the loop cannot be reached.
   */
  method BytesToSize(size: real, precision: nat) returns (r: Result<Rendering>)
    ensures size == 0.0 ==> r == Ok(Verbatim("0B"))
    ensures size != 0.0 ==>
      r == Ok(Rounded(Scaled(size, LadderIndex(size)), precision, DefaultMeasure[LadderIndex(size)]))
  {
    if size == 0.0 {
      return Ok(Verbatim("0B"));
    }
    var magnitude := size;
    var i := 0;
    while i < |DefaultMeasure|
      invariant 0 <= i < |DefaultMeasure|
      invariant magnitude == Scaled(size, i)
      invariant forall j | 0 <= j < i :: Scaled(size, j) >= 1024.0
    {
      if magnitude < 1024.0 || i == |DefaultMeasure| - 1 {
        LadderIndexUnique(size, i);
        return Ok(Rounded(magnitude, precision, DefaultMeasure[i]));
      }
      ScaledStep(size, i);
      magnitude := magnitude / 1024.0;
      i := i + 1;
    }
    r := Err("unable convert");
  }
}
