/**
 * Horizontal heat flow by Fourier's law, from the difference between row 1
 * and row 0 of a temperature slice.
 */
module HeatFlow {
  import opened Grid

  function Sum(s: seq<real>): real
  {
    if s == [] then 0.0 else s[0] + Sum(s[1..])
  }

  /** Column-wise difference row1 - row0. */
  function Diff(row0: seq<real>, row1: seq<real>): (d: seq<real>)
    requires |row0| == |row1|
    ensures |d| == |row0|
  {
    seq(|row0|, j requires 0 <= j < |row0| => row1[j] - row0[j])
  }

  /** Heat flux density per column: -lambd * (row1 - row0) / delta_xy. */
  function Flux(lambd: real, deltaXY: real, row0: seq<real>, row1: seq<real>): (qx: seq<real>)
    requires deltaXY != 0.0 && |row0| == |row1|
    ensures |qx| == |row0|
  {
    seq(|row0|, j requires 0 <= j < |row0| => -((row1[j] - row0[j]) / deltaXY) * lambd)
  }

  /**
   * Total heat flow: the sum of the flux densities times delta_xy. The mesh
   * step cancels, leaving -lambd times the summed row difference.
   */
  function HeatFlow(lambd: real, deltaXY: real, u: Field): (q: real)
    requires deltaXY != 0.0 && |u| >= 2 && |u[0]| == |u[1]|
    ensures q == -lambd * Sum(Diff(u[0], u[1]))
  {
    FluxCancelsStep(lambd, deltaXY, u[0], u[1]);
    Sum(Flux(lambd, deltaXY, u[0], u[1])) * deltaXY
  }

  lemma FluxCancelsStep(lambd: real, deltaXY: real, row0: seq<real>, row1: seq<real>)
    requires deltaXY != 0.0 && |row0| == |row1|
    ensures Sum(Flux(lambd, deltaXY, row0, row1)) * deltaXY == -lambd * Sum(Diff(row0, row1))
  {
    var qx := Flux(lambd, deltaXY, row0, row1);
    var d := Diff(row0, row1);
    var c := -(lambd / deltaXY);
    assert Sum(qx) == c * Sum(d) by {
      forall j | 0 <= j < |qx|
        ensures qx[j] == c * d[j]
      {
        FluxTerm(lambd, deltaXY, d[j], c);
      }
      SumScale(qx, d, c);
    }
    StepCancels(Sum(qx), Sum(d), c, deltaXY, lambd);
  }

  /** A sequence that is c times another, column by column, sums to c times its sum. */
  lemma {:induction false} SumScale(s: seq<real>, t: seq<real>, c: real)
    requires |s| == |t|
    requires forall j :: 0 <= j < |s| ==> s[j] == c * t[j]
    ensures Sum(s) == c * Sum(t)
    decreases |s|
  {
    if |s| > 0 {
      SumScale(s[1..], t[1..], c);
      assert Sum(s) == c * t[0] + c * Sum(t[1..]);
    } else {
      assert t == [];
    }
  }

  /** One column: the flux density is the difference scaled by -lambd / delta_xy. */
  lemma FluxTerm(lambd: real, deltaXY: real, e: real, c: real)
    requires deltaXY != 0.0 && c == -(lambd / deltaXY)
    ensures -(e / deltaXY) * lambd == c * e
  {
  }

  /** The mesh step cancels: (-(lambd / delta_xy) * x) * delta_xy is -lambd * x. */
  lemma StepCancels(q: real, x: real, c: real, deltaXY: real, lambd: real)
    requires deltaXY != 0.0 && c == -(lambd / deltaXY) && q == c * x
    ensures q * deltaXY == -lambd * x
  {
    assert c * deltaXY == -lambd;
  }

  /** A sum of positive terms, at least one of them, is positive. */
  lemma {:induction false} SumPositive(s: seq<real>)
    requires |s| > 0 && forall j :: 0 <= j < |s| ==> s[j] > 0.0
    ensures Sum(s) > 0.0
    decreases |s|
  {
    if |s| > 1 {
      SumPositive(s[1..]);
    } else {
      assert s[1..] == [];
    }
  }

  /**
   * When row 1 is warmer than row 0 in every column and the conductivity is
   * positive, the heat flows toward row 0: the result is negative.
   */
  lemma WarmingGivesNegativeFlow(lambd: real, deltaXY: real, u: Field)
    requires deltaXY != 0.0 && |u| >= 2 && |u[0]| == |u[1]| && |u[0]| > 0
    requires lambd > 0.0
    requires forall j :: 0 <= j < |u[0]| ==> u[1][j] > u[0][j]
    ensures HeatFlow(lambd, deltaXY, u) < 0.0
  {
    var d := Diff(u[0], u[1]);
    SumPositive(d);
    assert lambd * Sum(d) > 0.0;
  }
}
