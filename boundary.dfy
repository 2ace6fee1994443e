/**
 * Which of the nine boundary regimes a node (i, j) of an nRows x nCols grid
 * falls in. Row 0 faces the exterior, row nRows-1 the interior; columns 0 and
 * nCols-1 are adiabatic.
 */
module Boundary {

  /** The nine branches of the casework, in the order the solver tests them. */
  datatype Branch =
    | ExtLeftCorner   // exterior convection and left adiabatic face
    | LeftEdge        // left adiabatic face
    | IntLeftCorner   // left adiabatic face and interior convection
    | IntEdge         // interior convection
    | IntRightCorner  // interior convection and right adiabatic face
    | RightEdge       // right adiabatic face
    | ExtRightCorner  // exterior convection and right adiabatic face
    | ExtEdge         // exterior convection
    | Middle          // no boundary

  /** The solver's chain of tests: the first guard that holds picks the branch. */
  function Classify(i: nat, j: nat, nRows: nat, nCols: nat): (b: Branch)
    ensures i < nRows && j < nCols && nRows >= 2 && nCols >= 2 ==> Region(b, i, j, nRows, nCols)
  {
    if i == 0 && j == 0 then ExtLeftCorner
    else if 1 <= i < nRows - 1 && j == 0 then LeftEdge
    else if i == nRows - 1 && j == 0 then IntLeftCorner
    else if i == nRows - 1 && 1 <= j < nCols - 1 then IntEdge
    else if i == nRows - 1 && j == nCols - 1 then IntRightCorner
    else if 1 <= i < nRows - 1 && j == nCols - 1 then RightEdge
    else if i == 0 && j == nCols - 1 then ExtRightCorner
    else if i == 0 && 1 <= j < nCols - 1 then ExtEdge
    else Middle
  }

  /** The region of the grid each branch stands for, tested on its own. */
  predicate Region(b: Branch, i: nat, j: nat, nRows: nat, nCols: nat)
  {
    match b
    case ExtLeftCorner => i == 0 && j == 0
    case LeftEdge => 1 <= i <= nRows - 2 && j == 0
    case IntLeftCorner => i == nRows - 1 && j == 0
    case IntEdge => i == nRows - 1 && 1 <= j <= nCols - 2
    case IntRightCorner => i == nRows - 1 && j == nCols - 1
    case RightEdge => 1 <= i <= nRows - 2 && j == nCols - 1
    case ExtRightCorner => i == 0 && j == nCols - 1
    case ExtEdge => i == 0 && 1 <= j <= nCols - 2
    case Middle => 1 <= i <= nRows - 2 && 1 <= j <= nCols - 2
  }

  /**
   * On a grid of at least two rows and two columns the nine regions partition
   * the nodes: the chain picks branch b exactly when the node lies in b's region,
   * so every node lies in exactly one region, and the final `else` is taken
   * exactly for the nodes off every face.
   */
  lemma ClassifyExact(i: nat, j: nat, nRows: nat, nCols: nat, b: Branch)
    requires i < nRows && j < nCols && nRows >= 2 && nCols >= 2
    ensures Classify(i, j, nRows, nCols) == b <==> Region(b, i, j, nRows, nCols)
  {
  }

  /**
   * The positions of the current slice each branch reads as real values:
   * the node itself and every neighbour that is neither mirrored nor replaced
   * by a convective substitute.
   */
  function Reads(b: Branch, i: int, j: int): set<(int, int)>
  {
    match b
    case ExtLeftCorner => {(i, j), (i + 1, j), (i, j + 1)}
    case LeftEdge => {(i, j), (i + 1, j), (i - 1, j), (i, j + 1)}
    case IntLeftCorner => {(i, j), (i - 1, j), (i, j + 1)}
    case IntEdge => {(i, j), (i - 1, j), (i, j + 1), (i, j - 1)}
    case IntRightCorner => {(i, j), (i - 1, j), (i, j - 1)}
    case RightEdge => {(i, j), (i + 1, j), (i - 1, j), (i, j - 1)}
    case ExtRightCorner => {(i, j), (i + 1, j), (i, j - 1)}
    case ExtEdge => {(i, j), (i + 1, j), (i, j + 1), (i, j - 1)}
    case Middle => {(i, j), (i + 1, j), (i - 1, j), (i, j + 1), (i, j - 1)}
  }

  /** With at least two rows and two columns every read stays inside the grid. */
  lemma ReadsInBounds(i: nat, j: nat, nRows: nat, nCols: nat, p: (int, int))
    requires i < nRows && j < nCols && nRows >= 2 && nCols >= 2
    requires p in Reads(Classify(i, j, nRows, nCols), i, j)
    ensures 0 <= p.0 < nRows && 0 <= p.1 < nCols
  {
    match Classify(i, j, nRows, nCols)
    case ExtLeftCorner =>
    case LeftEdge =>
    case IntLeftCorner =>
    case IntEdge =>
    case IntRightCorner =>
    case RightEdge =>
    case ExtRightCorner =>
    case ExtEdge =>
    case Middle =>
  }

  /** With a single row, node (0, 0) reads row 1, which does not exist. */
  lemma SingleRowReadsOutside(nCols: nat)
    requires nCols >= 1
    ensures (1, 0) in Reads(Classify(0, 0, 1, nCols), 0, 0)
  {
  }

  /** With a single column, node (0, 0) reads column 1, which does not exist. */
  lemma SingleColumnReadsOutside(nRows: nat)
    requires nRows >= 1
    ensures (0, 1) in Reads(Classify(0, 0, nRows, 1), 0, 0)
  {
  }
}
