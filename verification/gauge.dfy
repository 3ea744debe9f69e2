/**
 * The liquid balance gauge: the balance as a clamped percentage of a
 * reference maximum, and the colour band, status label and liquid level
 * derived from it.
 */
module Gauge {
  import opened Text

  /** The reference maximum when none is given. */
  const DefaultMaxBalance: real := 50000.0

  /** `percentage`: 0 without a maximum, else the balance's share of it, clamped to [0, 100]. */
  function Percentage(balance: real, maxBalance: Option<real>): (p: real)
    ensures 0.0 <= p <= 100.0
    ensures maxBalance == Some(0.0) ==> p == 0.0
    ensures var m := maxBalance.GetOr(DefaultMaxBalance);
      m != 0.0 && 0.0 <= balance / m * 100.0 <= 100.0 ==> p == balance / m * 100.0
    ensures var m := maxBalance.GetOr(DefaultMaxBalance);
      m != 0.0 && balance / m * 100.0 > 100.0 ==> p == 100.0
    ensures var m := maxBalance.GetOr(DefaultMaxBalance);
      m != 0.0 && balance / m * 100.0 < 0.0 ==> p == 0.0
  {
    var m := maxBalance.GetOr(DefaultMaxBalance);
    if m == 0.0 then 0.0
    else
      var p := balance / m * 100.0;
      if p < 0.0 then 0.0 else if p > 100.0 then 100.0 else p
  }

  /** The four bands, from danger (0) to abundance (3), split at 15, 40 and 70. */
  function Band(p: real): (b: int)
    ensures 0 <= b <= 3
    ensures b == 3 <==> p >= 70.0
    ensures b == 2 <==> 40.0 <= p < 70.0
    ensures b == 1 <==> 15.0 <= p < 40.0
    ensures b == 0 <==> p < 15.0
  {
    if p >= 70.0 then 3 else if p >= 40.0 then 2 else if p >= 15.0 then 1 else 0
  }

  /** The hue of the liquid colour. */
  function Hue(p: real): (h: int)
    ensures h == [5, 35, 145, 190][Band(p)]
  {
    if p >= 70.0 then 190 else if p >= 40.0 then 145 else if p >= 15.0 then 35 else 5
  }

  /** The status label. */
  function StatusLabel(p: real): (s: string)
    ensures s == ["Critical • Add Funds", "Low • Spend Wisely", "Healthy • Stable", "Abundant • Invest?"][Band(p)]
  {
    if p >= 70.0 then "Abundant • Invest?"
    else if p >= 40.0 then "Healthy • Stable"
    else if p >= 15.0 then "Low • Spend Wisely"
    else "Critical • Add Funds"
  }

  /** `liquidLevel`: the distance of the surface from the top, in percent. */
  function LiquidLevel(p: real): real
  {
    100.0 - (p * 0.96 + 2.0)
  }

  /** The surface never leaves [2, 98], and a fuller gauge has a lower level value. */
  lemma LiquidLevelBounds(balance: real, maxBalance: Option<real>)
    ensures 2.0 <= LiquidLevel(Percentage(balance, maxBalance)) <= 98.0
    ensures Percentage(balance, maxBalance) == 0.0 ==> LiquidLevel(Percentage(balance, maxBalance)) == 98.0
    ensures Percentage(balance, maxBalance) == 100.0 ==> LiquidLevel(Percentage(balance, maxBalance)) == 2.0
  {
  }

  /**
   * With a positive maximum, a larger balance never moves the gauge to a
   * lower band, so hue and label change together and only upwards.
   */
  lemma BandMonotone(b1: real, b2: real, maxBalance: Option<real>)
    requires b1 <= b2
    requires maxBalance.GetOr(DefaultMaxBalance) > 0.0
    ensures Percentage(b1, maxBalance) <= Percentage(b2, maxBalance)
    ensures Band(Percentage(b1, maxBalance)) <= Band(Percentage(b2, maxBalance))
    ensures LiquidLevel(Percentage(b2, maxBalance)) <= LiquidLevel(Percentage(b1, maxBalance))
  {
    var m := maxBalance.GetOr(DefaultMaxBalance);
    assert b1 / m <= b2 / m;
  }

  /** Half of the default maximum is healthy; a tenth is critical. */
  lemma DefaultExamples()
    ensures Band(Percentage(25000.0, None)) == 2 && Hue(Percentage(25000.0, None)) == 145
    ensures StatusLabel(Percentage(5000.0, None)) == "Critical • Add Funds"
  {
  }
}
