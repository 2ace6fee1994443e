/**
 * A worked configuration: a wall 1.0 m long and 0.3 m wide, lambd = 1.5,
 * delta_xy = 0.1, exterior at -10 with h_ext = 25, interior at 20 with
 * h_int = 8, everything initially at 10.
 */
module Scenario {
  import Arange
  import opened Grid
  import opened Update
  import opened Fdm

  /** The derived mesh and constants of the configuration. */
  lemma ScenarioConstants()
    ensures Arange.Length(0.0, 0.3, 0.1) == 3
    ensures Arange.Length(0.0, 1.0, 0.1) == 10
    ensures DiffusionNumber(1.5, 0.1) == 0.25
    ensures ConvectionNumber(0.1, 1.5, 25.0) == 5.0 / 3.0
    ensures ConvectionNumber(0.1, 1.5, 8.0) == 8.0 / 15.0
  {
    assert 0.3 / 0.1 == 3.0;
    assert 1.0 / 0.1 == 10.0;
  }

  /** A solver object built from the configuration. */
  ghost predicate IsScenario(w: Wall2dFdm)
  {
    && w.Valid()
    && w.lambd == 1.5 && w.deltaXY == 0.1
    && w.tExt == -10.0 && w.hExt == 25.0
    && w.tInt == 20.0 && w.hInt == 8.0
    && w.uInitial == 10.0
    && w.nRows == 3 && w.nCols == 10
  }

  /**
   * After one step only the two convective rows have moved (row 0 to 5/3,
   * row 2 to 34/3) and the middle row is still exactly 10; after a second step
   * the perturbation has reached the middle row, which is then 33/4.
   */
  lemma ScenarioSteps(w: Wall2dFdm, j: nat)
    requires IsScenario(w) && j < 10
    ensures w.Iterate(1)[0][j] == 5.0 / 3.0
    ensures w.Iterate(1)[1][j] == 10.0
    ensures w.Iterate(1)[2][j] == 34.0 / 3.0
    ensures w.Iterate(2)[1][j] == 33.0 / 4.0
  {
    ScenarioConstants();
    assert w.gamma == 0.25 && w.tetaExt == 5.0 / 3.0 && w.tetaInt == 8.0 / 15.0;
    var s1 := w.Iterate(1);
    assert s1 == w.Step(Uniform(3, 10, 10.0));
    forall b | 0 <= b < 10
      ensures s1[0][b] == 5.0 / 3.0 && s1[1][b] == 10.0 && s1[2][b] == 34.0 / 3.0
    {
      w.StepOfUniform(10.0, 0, b);
      w.StepOfUniform(10.0, 1, b);
      w.StepOfUniform(10.0, 2, b);
    }
    w.ResolveRules(s1, 1, j);
    var st := w.Resolve(s1, 1, j);
    assert st == Stencil(34.0 / 3.0, 5.0 / 3.0, 10.0, 10.0, 10.0);
    assert w.Iterate(2)[1][j] == Relax(0.25, st);
  }
}
