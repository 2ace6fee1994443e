/**
 * The explicit finite-difference solver for the two-dimensional heat equation
 * in a rectangular wall: discretisation constants, the per-node boundary
 * treatment and the time-stepping loop over a three-dimensional array.
 */
module Fdm {
  import Arange
  import opened Grid
  import opened Update
  import opened Boundary

  /** The square delta_xy ** 2 of the mesh step. */
  function Square(x: real): real
  {
    x * x
  }

  /** A product of a non-zero real with itself is non-zero. */
  lemma ProductNonZero(x: real, y: real, p: real)
    requires x != 0.0 && y == x && p == x * y
    ensures p != 0.0
  {
  }

  /** The square of a non-zero mesh step is non-zero, so it may be divided by. */
  lemma SquareNonZero(x: real)
    requires x != 0.0
    ensures Square(x) != 0.0
  {
    ProductNonZero(x, x, Square(x));
  }

  /** Multiplying by a non-zero real and dividing by it again gives back the start. */
  lemma DivCancel(a: real, b: real)
    requires b != 0.0
    ensures (a * b) / b == a
  {
  }

  /** Time step delta_xy^2 / (4 lambd), chosen so that the diffusion number is 1/4. */
  function TimeStep(lambd: real, deltaXY: real): (dt: real)
    requires lambd != 0.0
    ensures 4.0 * lambd * dt == Square(deltaXY)
  {
    Square(deltaXY) / (4.0 * lambd)
  }

  /** The diffusion number lambd * delta_t / delta_xy^2, which the time step fixes at 1/4. */
  function DiffusionNumber(lambd: real, deltaXY: real): (g: real)
    requires lambd != 0.0 && deltaXY != 0.0
    ensures g == 0.25
  {
    SquareNonZero(deltaXY);
    DivCancel(0.25, Square(deltaXY));
    assert lambd * TimeStep(lambd, deltaXY) == 0.25 * Square(deltaXY);
    (lambd * TimeStep(lambd, deltaXY)) / Square(deltaXY)
  }

  /** Dimensionless convection number (delta_xy / lambd) * h of a face. */
  function ConvectionNumber(deltaXY: real, lambd: real, h: real): (teta: real)
    requires lambd != 0.0
    ensures teta * lambd == deltaXY * h
  {
    (deltaXY / lambd) * h
  }

  class Wall2dFdm {
    const lambd: real
    const deltaXY: real
    const tExt: real
    const tInt: real
    const hExt: real
    const hInt: real
    const uInitial: real
    const maxIterTime: int
    const nRows: nat
    const nCols: nat
    const nNodes: nat
    const deltaT: real
    const gamma: real
    const tetaExt: real
    const tetaInt: real

    /** The derived constants agree with the physical ones. */
    ghost predicate Valid()
    {
      && lambd != 0.0 && deltaXY != 0.0
      && nNodes == nRows * nCols
      && deltaT == TimeStep(lambd, deltaXY)
      && gamma == DiffusionNumber(lambd, deltaXY)
      && tetaExt == ConvectionNumber(deltaXY, lambd, hExt)
      && tetaInt == ConvectionNumber(deltaXY, lambd, hInt)
    }

    /**
     * Stores the physical parameters and derives the mesh size and constants.
     * A zero mesh step or conductivity would be a division by zero.
     */
    constructor (length: real, larger: real, lambd: real, deltaXY: real, tExt: real, tInt: real,
                 hInt: real, hExt: real, uInitial: real, maxIterTime: int)
      requires deltaXY != 0.0 && lambd != 0.0
      ensures Valid()
      ensures this.lambd == lambd && this.deltaXY == deltaXY
      ensures this.tExt == tExt && this.tInt == tInt && this.hExt == hExt && this.hInt == hInt
      ensures this.uInitial == uInitial && this.maxIterTime == maxIterTime
      ensures nRows == Arange.Length(0.0, larger, deltaXY)
      ensures nCols == Arange.Length(0.0, length, deltaXY)
      ensures gamma == 0.25
      ensures tetaExt * lambd == deltaXY * hExt && tetaInt * lambd == deltaXY * hInt
    {
      this.lambd := lambd;
      this.deltaXY := deltaXY;
      this.tExt := tExt;
      this.tInt := tInt;
      this.hExt := hExt;
      this.hInt := hInt;
      this.uInitial := uInitial;
      this.maxIterTime := maxIterTime;
      var rows := Arange.Length(0.0, larger, deltaXY);
      var cols := Arange.Length(0.0, length, deltaXY);
      nRows := rows;
      nCols := cols;
      nNodes := rows * cols;
      deltaT := TimeStep(lambd, deltaXY);
      gamma := DiffusionNumber(lambd, deltaXY);
      tetaExt := ConvectionNumber(deltaXY, lambd, hExt);
      tetaInt := ConvectionNumber(deltaXY, lambd, hInt);
    }

    /** The stencil of node (i, j) of slice s, resolved branch by branch. */
    function Resolve(s: Field, i: nat, j: nat): (st: Stencil)
      requires IsGrid(s, nRows, nCols) && Stencilable(nRows, nCols)
      requires i < nRows && j < nCols
      ensures st.centre == s[i][j]
    {
      var c := s[i][j];
      match Classify(i, j, nRows, nCols)
      case ExtLeftCorner =>
        Stencil(s[i + 1][j], Robin(tetaExt, c, tExt), s[i][j + 1], c, c)
      case LeftEdge =>
        Stencil(s[i + 1][j], s[i - 1][j], s[i][j + 1], c, c)
      case IntLeftCorner =>
        Stencil(Robin(tetaInt, c, tInt), s[i - 1][j], s[i][j + 1], c, c)
      case IntEdge =>
        Stencil(Robin(tetaInt, c, tInt), s[i - 1][j], s[i][j + 1], s[i][j - 1], c)
      case IntRightCorner =>
        Stencil(Robin(tetaInt, c, tInt), s[i - 1][j], c, s[i][j - 1], c)
      case RightEdge =>
        Stencil(s[i + 1][j], s[i - 1][j], c, s[i][j - 1], c)
      case ExtRightCorner =>
        Stencil(s[i + 1][j], Robin(tetaExt, c, tExt), c, s[i][j - 1], c)
      case ExtEdge =>
        Stencil(s[i + 1][j], Robin(tetaExt, c, tExt), s[i][j + 1], s[i][j - 1], c)
      case Middle =>
        Stencil(s[i + 1][j], s[i - 1][j], s[i][j + 1], s[i][j - 1], c)
    }

    /**
     * The boundary rules the nine branches implement, face by face: above row 0
     * the exterior convective substitute, below the last row the interior one,
     * beyond columns 0 and nCols-1 the node's own value (adiabatic mirror), and
     * the real neighbour everywhere else.
     */
    lemma ResolveRules(s: Field, i: nat, j: nat)
      requires IsGrid(s, nRows, nCols) && Stencilable(nRows, nCols)
      requires i < nRows && j < nCols
      ensures Resolve(s, i, j).centre == s[i][j]
      ensures Resolve(s, i, j).north == if i == 0 then Robin(tetaExt, s[i][j], tExt) else s[i - 1][j]
      ensures Resolve(s, i, j).south == if i == nRows - 1 then Robin(tetaInt, s[i][j], tInt) else s[i + 1][j]
      ensures Resolve(s, i, j).west == if j == 0 then s[i][j] else s[i][j - 1]
      ensures Resolve(s, i, j).east == if j == nCols - 1 then s[i][j] else s[i][j + 1]
    {
    }

    /** The stencil of a node depends on the slice only through the positions its branch reads. */
    lemma ResolveLocal(s: Field, s': Field, i: nat, j: nat)
      requires IsGrid(s, nRows, nCols) && IsGrid(s', nRows, nCols) && Stencilable(nRows, nCols)
      requires i < nRows && j < nCols
      requires AgreeOn(s, s', nRows, nCols, Reads(Classify(i, j, nRows, nCols), i, j))
      ensures Resolve(s, i, j) == Resolve(s', i, j)
    {
      var ps := Reads(Classify(i, j, nRows, nCols), i, j);
      forall p | p in ps
        ensures 0 <= p.0 < nRows && 0 <= p.1 < nCols && s[p.0][p.1] == s'[p.0][p.1]
      {
        ReadsInBounds(i, j, nRows, nCols, p);
      }
    }

    /** One explicit time step: every node of the next slice from slice s alone. */
    function Step(s: Field): (r: Field)
      requires IsGrid(s, nRows, nCols) && Stencilable(nRows, nCols)
      ensures IsGrid(r, nRows, nCols)
    {
      seq(nRows, i requires 0 <= i < nRows =>
        seq(nCols, j requires 0 <= j < nCols => Relax(gamma, Resolve(s, i, j))))
    }

    /** Slice k of the solution: k steps from the uniform initial field. */
    function Iterate(k: nat): (s: Field)
      requires k >= 1 ==> Stencilable(nRows, nCols)
      ensures IsGrid(s, nRows, nCols)
    {
      if k == 0 then Uniform(nRows, nCols, uInitial) else Step(Iterate(k - 1))
    }

    /**
     * One step from a uniform field at v changes only the two convective rows:
     * row 0 moves by gamma * tetaExt * (tExt - v), the last row by
     * gamma * tetaInt * (tInt - v), and every other node keeps v.
     */
    lemma StepOfUniform(v: real, i: nat, j: nat)
      requires Stencilable(nRows, nCols) && i < nRows && j < nCols
      ensures Step(Uniform(nRows, nCols, v))[i][j]
              == v + (if i == 0 then gamma * tetaExt * (tExt - v) else 0.0)
                   + (if i == nRows - 1 then gamma * tetaInt * (tInt - v) else 0.0)
    {
      var s := Uniform(nRows, nCols, v);
      ResolveRules(s, i, j);
      var st := Resolve(s, i, j);
      assert st.centre == v;
      assert st.east == v && st.west == v;
      assert st.north - v == if i == 0 then tetaExt * (tExt - v) else 0.0;
      assert st.south - v == if i == nRows - 1 then tetaInt * (tInt - v) else 0.0;
    }

    /** A uniform field at both ambient temperatures is a fixed point of the step. */
    lemma UniformIsFixedPoint(v: real)
      requires Stencilable(nRows, nCols) && tExt == v && tInt == v
      ensures Step(Uniform(nRows, nCols, v)) == Uniform(nRows, nCols, v)
    {
      var s := Uniform(nRows, nCols, v);
      forall i, j | 0 <= i < nRows && 0 <= j < nCols
        ensures Step(s)[i][j] == s[i][j]
      {
        StepOfUniform(v, i, j);
      }
      SameField(Step(s), s, nRows, nCols);
    }

    /**
     * If the initial temperature equals both ambient temperatures, every slice
     * of the solution is the uniform initial field.
     */
    lemma {:induction false} SteadyWhenAtAmbient(k: nat)
      requires k >= 1 ==> Stencilable(nRows, nCols)
      requires uInitial == tExt == tInt
      ensures Iterate(k) == Uniform(nRows, nCols, uInitial)
    {
      if k > 0 {
        SteadyWhenAtAmbient(k - 1);
        UniformIsFixedPoint(uInitial);
      }
    }

    /**
     * The update of node (i, j) read from slice k of u, whose values are those
     * of the field cur, by the nine-way boundary classification.
     */
    method UpdateNode(u: array3<real>, k: nat, i: nat, j: nat, ghost cur: Field) returns (r: real)
      requires u.Length1 == nRows && u.Length2 == nCols && k < u.Length0
      requires i < nRows && j < nCols && Stencilable(nRows, nCols)
      requires IsGrid(cur, nRows, nCols)
      requires forall a, b :: 0 <= a < nRows && 0 <= b < nCols ==> u[k, a, b] == cur[a][b]
      ensures r == Step(cur)[i][j]
    {
      var south, north, east, west, centre;
      match Classify(i, j, nRows, nCols) {
        case ExtLeftCorner =>
          south := u[k, i + 1, j];
          north := Robin(tetaExt, u[k, i, j], tExt);
          east := u[k, i, j + 1];
          west := u[k, i, j];
          centre := u[k, i, j];
        case LeftEdge =>
          south := u[k, i + 1, j];
          north := u[k, i - 1, j];
          east := u[k, i, j + 1];
          west := u[k, i, j];
          centre := u[k, i, j];
        case IntLeftCorner =>
          south := Robin(tetaInt, u[k, i, j], tInt);
          north := u[k, i - 1, j];
          east := u[k, i, j + 1];
          west := u[k, i, j];
          centre := u[k, i, j];
        case IntEdge =>
          south := Robin(tetaInt, u[k, i, j], tInt);
          north := u[k, i - 1, j];
          east := u[k, i, j + 1];
          west := u[k, i, j - 1];
          centre := u[k, i, j];
        case IntRightCorner =>
          south := Robin(tetaInt, u[k, i, j], tInt);
          north := u[k, i - 1, j];
          east := u[k, i, j];
          west := u[k, i, j - 1];
          centre := u[k, i, j];
        case RightEdge =>
          south := u[k, i + 1, j];
          north := u[k, i - 1, j];
          east := u[k, i, j];
          west := u[k, i, j - 1];
          centre := u[k, i, j];
        case ExtRightCorner =>
          south := u[k, i + 1, j];
          north := Robin(tetaExt, u[k, i, j], tExt);
          east := u[k, i, j];
          west := u[k, i, j - 1];
          centre := u[k, i, j];
        case ExtEdge =>
          south := u[k, i + 1, j];
          north := Robin(tetaExt, u[k, i, j], tExt);
          east := u[k, i, j + 1];
          west := u[k, i, j - 1];
          centre := u[k, i, j];
        case Middle =>
          south := u[k, i + 1, j];
          north := u[k, i - 1, j];
          east := u[k, i, j + 1];
          west := u[k, i, j - 1];
          centre := u[k, i, j];
      }
      r := Relax(gamma, Stencil(south, north, east, west, centre));
    }

    /**
     * Row i of slice k+1 from the field cur that slice k holds: every node of
     * the row receives its update, and no other element of u changes.
     */
    method AdvanceRow(u: array3<real>, k: nat, i: nat, ghost cur: Field)
      requires u.Length1 == nRows && u.Length2 == nCols && k + 1 < u.Length0
      requires i < nRows && Stencilable(nRows, nCols) && IsGrid(cur, nRows, nCols)
      requires forall a, b :: 0 <= a < nRows && 0 <= b < nCols ==> u[k, a, b] == cur[a][b]
      modifies u
      ensures forall k', a, b :: 0 <= k' < u.Length0 && 0 <= a < nRows && 0 <= b < nCols && (k' != k + 1 || a != i)
                ==> u[k', a, b] == old(u[k', a, b])
      ensures forall b :: 0 <= b < nCols ==> u[k + 1, i, b] == Step(cur)[i][b]
    {
      for j := 0 to nCols
        invariant forall k', a, b :: 0 <= k' < u.Length0 && 0 <= a < nRows && 0 <= b < nCols && (k' != k + 1 || a != i)
                    ==> u[k', a, b] == old(u[k', a, b])
        invariant forall b :: 0 <= b < j ==> u[k + 1, i, b] == Step(cur)[i][b]
      {
        var r := UpdateNode(u, k, i, j, cur);
        u[k + 1, i, j] := r;
      }
    }

    /**
     * The body of the time loop for step k: every node of slice k+1 receives
     * the update computed from slice k, and no other slice changes.
     */
    method AdvanceTimeStep(u: array3<real>, k: nat)
      requires u.Length1 == nRows && u.Length2 == nCols && k + 1 < u.Length0
      requires Stencilable(nRows, nCols)
      modifies u
      ensures forall k', i, j :: 0 <= k' < u.Length0 && k' != k + 1 && 0 <= i < nRows && 0 <= j < nCols
                ==> u[k', i, j] == old(u[k', i, j])
      ensures forall i, j :: 0 <= i < nRows && 0 <= j < nCols
                ==> u[k + 1, i, j] == Step(old(SliceOf(u, k)))[i][j]
    {
      ghost var cur := SliceOf(u, k);
      for i := 0 to nRows
        invariant forall k', a, b :: 0 <= k' < u.Length0 && k' != k + 1 && 0 <= a < nRows && 0 <= b < nCols
                    ==> u[k', a, b] == old(u[k', a, b])
        invariant forall a, b :: 0 <= a < i && 0 <= b < nCols ==> u[k + 1, a, b] == Step(cur)[a][b]
      {
        AdvanceRow(u, k, i, cur);
      }
    }

    /**
     * A run of slices that starts from the uniform initial field and in which
     * each slice is one step from the one before.
     */
    ghost predicate IsHistory(h: seq<Field>)
      requires |h| >= 2 ==> Stencilable(nRows, nCols)
    {
      && |h| >= 1
      && h[0] == Uniform(nRows, nCols, uInitial)
      && (forall k :: 0 <= k < |h| ==> IsGrid(h[k], nRows, nCols))
      && (forall k :: 0 <= k < |h| - 1 ==> h[k + 1] == Step(h[k]))
    }

    /** A run followed by one step from its last slice is again a run. */
    lemma HistoryExtends(h: seq<Field>, s: Field)
      requires Stencilable(nRows, nCols) && IsHistory(h) && s == Step(h[|h| - 1])
      ensures IsHistory(h + [s])
    {
    }

    /** Such a run is exactly the sequence of iterates. */
    lemma {:induction false} HistoryIsIterate(h: seq<Field>, k: nat)
      requires |h| >= 2 ==> Stencilable(nRows, nCols)
      requires IsHistory(h) && k < |h|
      ensures h[k] == Iterate(k)
    {
      if k > 0 {
        HistoryIsIterate(h, k - 1);
      }
    }

    /**
     * Allocates the (maxIterTime, nRows, nCols) array, fills it with the
     * initial temperature and computes slice k+1 from slice k for every k.
     * The stencil needs two rows and two columns as soon as one step is taken.
     */
    method CalculateTemperatures() returns (u: array3<real>)
      requires maxIterTime >= 0
      requires maxIterTime >= 2 ==> Stencilable(nRows, nCols)
      ensures fresh(u)
      ensures u.Length0 == maxIterTime && u.Length1 == nRows && u.Length2 == nCols
      ensures forall i, j :: 0 < maxIterTime && 0 <= i < nRows && 0 <= j < nCols ==> u[0, i, j] == uInitial
      ensures forall k, i, j :: 0 <= k < maxIterTime - 1 && 0 <= i < nRows && 0 <= j < nCols
                ==> u[k + 1, i, j] == Step(SliceOf(u, k))[i][j]
      ensures forall k, i, j :: 0 <= k < maxIterTime && 0 <= i < nRows && 0 <= j < nCols
                ==> u[k, i, j] == Iterate(k)[i][j]
    {
      u := new real[maxIterTime, nRows, nCols];
      forall k, i, j | 0 <= k < maxIterTime && 0 <= i < nRows && 0 <= j < nCols {
        u[k, i, j] := uInitial;
      }
      var k := 0;
      ghost var hist: seq<Field> := [Uniform(nRows, nCols, uInitial)];
      while k < maxIterTime - 1
        invariant 0 <= k && (k == 0 || k < maxIterTime)
        invariant |hist| == k + 1 && IsHistory(hist)
        invariant forall k', i, j :: 0 <= k' <= k && k' < maxIterTime && 0 <= i < nRows && 0 <= j < nCols
                    ==> u[k', i, j] == hist[k'][i][j]
      {
        ghost var cur := SliceOf(u, k);
        SameField(cur, hist[k], nRows, nCols);
        AdvanceTimeStep(u, k);
        HistoryExtends(hist, Step(cur));
        hist := hist + [Step(cur)];
        k := k + 1;
      }
      forall k' | 0 <= k' < maxIterTime
        ensures hist[k'] == Iterate(k')
      {
        HistoryIsIterate(hist, k');
      }
      forall k' | 0 <= k' < maxIterTime - 1
        ensures SliceOf(u, k') == hist[k']
      {
        SameField(SliceOf(u, k'), hist[k'], nRows, nCols);
      }
    }
  }
}
