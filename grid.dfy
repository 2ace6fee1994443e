/**
 * One time slice of the temperature field: rows i (row 0 is the exterior
 * face, the last row the interior face) of columns j.
 */
module Grid {

  type Field = seq<seq<real>>

  /** s has nRows rows of nCols values each. */
  predicate IsGrid(s: Field, nRows: nat, nCols: nat)
  {
    |s| == nRows && forall i :: 0 <= i < |s| ==> |s[i]| == nCols
  }

  /** The field that holds v at every node. */
  function Uniform(nRows: nat, nCols: nat, v: real): (s: Field)
    ensures IsGrid(s, nRows, nCols)
    ensures forall i, j :: 0 <= i < nRows && 0 <= j < nCols ==> s[i][j] == v
  {
    seq(nRows, _ => seq(nCols, _ => v))
  }

  /**
   * The five-point stencil can be evaluated at every node: either there is no
   * node at all, or there are at least two rows and two columns.
   */
  predicate Stencilable(nRows: nat, nCols: nat)
  {
    nRows > 0 && nCols > 0 ==> nRows >= 2 && nCols >= 2
  }

  /** s and s' hold the same value at every in-range position of ps. */
  predicate AgreeOn(s: Field, s': Field, nRows: nat, nCols: nat, ps: set<(int, int)>)
    requires IsGrid(s, nRows, nCols) && IsGrid(s', nRows, nCols)
  {
    forall p :: p in ps && 0 <= p.0 < nRows && 0 <= p.1 < nCols ==> s[p.0][p.1] == s'[p.0][p.1]
  }

  /** Slice k of a three-dimensional array, as a field value. */
  ghost function SliceOf(u: array3<real>, k: nat): (s: Field)
    reads u
    requires k < u.Length0
    ensures IsGrid(s, u.Length1, u.Length2)
    ensures forall i, j :: 0 <= i < u.Length1 && 0 <= j < u.Length2 ==> s[i][j] == u[k, i, j]
  {
    seq(u.Length1, i reads u requires 0 <= i < u.Length1 =>
      seq(u.Length2, j reads u requires 0 <= j < u.Length2 => u[k, i, j]))
  }

  /** Two fields of the same shape that agree at every node are equal. */
  lemma SameField(a: Field, b: Field, nRows: nat, nCols: nat)
    requires IsGrid(a, nRows, nCols) && IsGrid(b, nRows, nCols)
    requires forall i, j :: 0 <= i < nRows && 0 <= j < nCols ==> a[i][j] == b[i][j]
    ensures a == b
  {
    forall i | 0 <= i < nRows
      ensures a[i] == b[i]
    {
      assert |a[i]| == |b[i]| == nCols;
    }
  }
}
