/**
 The battery percentage: piecewise linear over the resting curve of a single LiPo cell, cut off to whole
 percents. Voltages are reals here; a value that is not a finite number is `None`.
 */
module Battery {
  import opened Wrappers

  /** Millivolts and percents, in rising order. */
  const CURVE: seq<(int, int)> :=
    [(3000, 0), (3300, 1), (3400, 2), (3500, 3), (3600, 5), (3650, 7), (3700, 13), (3750, 25), (3800, 40),
     (3850, 55), (3900, 65), (4000, 78), (4100, 90), (4200, 100)]

  const MIN_USABLE_MV := 2000

  function Mv(i: nat): (mv: real)
    requires i < |CURVE|
  {
    CURVE[i].0 as real
  }

  function Pct(i: nat): (p: real)
    requires i < |CURVE|
  {
    CURVE[i].1 as real
  }

  /** The straight line from point `i` to the next. */
  function Line(i: nat, mv: real): (p: real)
    requires i + 1 < |CURVE|
  {
    CurveRises(i);
    Pct(i) + (mv - Mv(i)) * (Pct(i + 1) - Pct(i)) / (Mv(i + 1) - Mv(i))
  }

  lemma CurveRises(i: nat)
    requires i + 1 < |CURVE|
    ensures Mv(i) < Mv(i + 1) && Pct(i) <= Pct(i + 1)
  {
  }

  lemma {:induction false} CurveRisesFar(i: nat, j: nat)
    requires i <= j < |CURVE|
    ensures Mv(i) <= Mv(j) && Pct(i) <= Pct(j)
    decreases j - i
  {
    if i < j {
      CurveRises(j - 1);
      CurveRisesFar(i, j - 1);
    }
  }

  /** The segment of the curve a voltage lies on, counted from `i`. */
  function Segment(i: nat, mv: real): (k: nat)
    requires i + 1 < |CURVE| && Mv(i) < mv <= Mv(|CURVE| - 1)
    ensures i <= k && k + 1 < |CURVE| && Mv(k) < mv <= Mv(k + 1)
    decreases |CURVE| - i
  {
    if mv <= Mv(i + 1) then i else Segment(i + 1, mv)
  }

  /** The curve as a function of the voltage, before cutting off. */
  function Curve(mv: real): (p: real)
  {
    if mv <= Mv(0) then Pct(0)
    else if mv >= Mv(|CURVE| - 1) then Pct(|CURVE| - 1)
    else Line(Segment(0, mv), mv)
  }

  function Percentage(volts: Option<real>): (p: Option<int>)
  {
    if volts.None? then None else PercentageAt(Millivolts(volts.value))
  }

  function Millivolts(volts: real): (mv: real)
  {
    volts * 1000.0
  }

  function PercentageAt(mv: real): (p: Option<int>)
  {
    if mv < MIN_USABLE_MV as real then None else Some(Curve(mv).Floor)
  }

  /** `battery_percentage`, with its walk over the table. */
  method BatteryPercentage(volts: Option<real>) returns (p: Option<int>)
    ensures p == Percentage(volts)
  {
    if volts.None? {
      return None;
    }
    var mv := Millivolts(volts.value);
    if mv < MIN_USABLE_MV as real {
      return None;
    }
    if mv <= Mv(0) {
      return Some(0);
    }
    if mv >= Mv(|CURVE| - 1) {
      return Some(100);
    }
    var i := OnCurve(mv);
    p := Some(Line(i, mv).Floor);
  }

  /** The walk itself; it always ends on a segment, because the voltage is below the last point. */
  method OnCurve(mv: real) returns (i: nat)
    requires Mv(0) < mv < Mv(|CURVE| - 1)
    ensures i + 1 < |CURVE| && i == Segment(0, mv)
  {
    i := 0;
    while mv > Mv(i + 1)
      invariant i + 1 < |CURVE| && Mv(i) < mv && Segment(i, mv) == Segment(0, mv)
      decreases |CURVE| - i
    {
      i := i + 1;
    }
  }

  // -------------------------------------------------------------- properties

  lemma LineRises(i: nat, a: real, b: real)
    requires i + 1 < |CURVE| && a <= b
    ensures Line(i, a) <= Line(i, b)
  {
    CurveRises(i);
  }

  lemma LineEnds(i: nat)
    requires i + 1 < |CURVE|
    ensures Line(i, Mv(i)) == Pct(i) && Line(i, Mv(i + 1)) == Pct(i + 1)
  {
    CurveRises(i);
    var k, c := Pct(i + 1) - Pct(i), Mv(i + 1) - Mv(i);
    assert c * k / c == k;
  }

  lemma LineWithin(i: nat, mv: real)
    requires i + 1 < |CURVE| && Mv(i) <= mv <= Mv(i + 1)
    ensures Pct(i) <= Line(i, mv) <= Pct(i + 1)
  {
    LineEnds(i);
    LineRises(i, Mv(i), mv);
    LineRises(i, mv, Mv(i + 1));
  }

  lemma CurveBounded(mv: real)
    ensures 0.0 <= Curve(mv) <= 100.0
  {
    if Mv(0) < mv < Mv(|CURVE| - 1) {
      var k := Segment(0, mv);
      LineWithin(k, mv);
      CurveRisesFar(0, k);
      CurveRisesFar(k + 1, |CURVE| - 1);
    }
  }

  /** A higher voltage never reads as a lower percentage, across all the bends of the curve. */
  lemma CurveMonotone(a: real, b: real)
    requires a <= b
    ensures Curve(a) <= Curve(b)
  {
    CurveBounded(a);
    CurveBounded(b);
    if Mv(0) < a && b < Mv(|CURVE| - 1) {
      var i, j := Segment(0, a), Segment(0, b);
      if i == j {
        LineRises(i, a, b);
      } else {
        if j < i {
          CurveRisesFar(j + 1, i);
        }
        LineWithin(i, a);
        LineWithin(j, b);
        CurveRisesFar(i + 1, j);
      }
    }
  }

  /** The curve passes through every point of its table. */
  lemma CurveThroughPoints(i: nat)
    requires i < |CURVE|
    ensures Curve(Mv(i)) == Pct(i)
  {
    if 0 < i < |CURVE| - 1 {
      CurveRisesFar(0, i - 1);
      CurveRises(i - 1);
      CurveRisesFar(i, |CURVE| - 1);
      CurveRises(|CURVE| - 2);
      CurveRisesFar(i, |CURVE| - 2);
      var k := Segment(0, Mv(i));
      if k < i - 1 {
        CurveRisesFar(k + 1, i - 1);
      } else if i <= k {
        CurveRisesFar(i, k);
      }
      LineEnds(i - 1);
    }
  }

  /** Cutting off to whole percents keeps the order, stays within 0 and 100 and never rounds up. */
  lemma CutCurve(a: real, b: real)
    requires a <= b
    ensures 0 <= Curve(a).Floor <= Curve(b).Floor <= 100
    ensures Curve(a).Floor as real <= Curve(a) < Curve(a).Floor as real + 1.0
  {
    CurveBounded(a);
    CurveBounded(b);
    CurveMonotone(a, b);
  }

  lemma PercentageAtMonotone(a: real, b: real)
    requires a <= b && PercentageAt(a).Some?
    ensures PercentageAt(b).Some?
    ensures 0 <= PercentageAt(a).value <= PercentageAt(b).value <= 100
  {
    CutCurve(a, b);
  }

  /** The percentage: none below two volts, otherwise monotone in the voltage and within 0 and 100. */
  lemma PercentageMonotone(v: real, w: real)
    requires v <= w && Percentage(Some(v)).Some?
    ensures Percentage(Some(w)).Some?
    ensures 0 <= Percentage(Some(v)).value <= Percentage(Some(w)).value <= 100
  {
    PercentageAtMonotone(Millivolts(v), Millivolts(w));
  }
}
