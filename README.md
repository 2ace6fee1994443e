# Explicit finite-difference model of a 2-D wall

This project models `Wall2dFDM`, a solver for the two-dimensional heat
equation in a rectangular wall. It uses an explicit five-point
finite-difference scheme. The wall is meshed with square cells of side
`delta_xy`.

- Row 0 is the exterior face. It exchanges heat by convection with air at `t_ext`, with coefficient `h_ext`.
- The last row is the interior face. It exchanges heat with air at `t_int`, with coefficient `h_int`.
- The left and right columns are adiabatic: the missing neighbour is mirrored by the node itself.

The model covers three parts of the class:

- **Construction** (`Fdm.Wall2dFdm`, a class with `const` fields, because the object is set
  once and never changed). It counts the mesh points as numpy's `arange` does (module
  `Arange`). It derives the time step `delta_xy^2 / (4 lambd)`, the diffusion number
  `gamma` and the two convection numbers `teta_ext` and `teta_int`.
- **Time stepping** (`CalculateTemperatures`). It allocates a `(max_iter_time, n_rows, n_cols)`
  array, fills it with `u_initial`, and computes slice `k+1` from slice `k` node by node.
  - Each node is put into one of nine branches by the same chain of tests as the source
    (module `Boundary`). Its four neighbour values are resolved according to that branch:
    a real neighbour, a mirrored value, or a convective substitute
    `(1 - teta) u + teta t_ambient` (module `Update`).
  - The node is then relaxed by `gamma (S + N + E + W - 4 u) + u`.
  - The imperative loops over the array are proved against a pure specification:
    `Step` for one slice and `Iterate` for the k-th slice. Both are over
    `seq<seq<real>>` fields (module `Grid`).
- **Heat flow** (module `HeatFlow`). This is Fourier's law over rows 0 and 1 of a
  temperature slice: `qx = -((u[1] - u[0]) / delta_xy) lambd`, summed and multiplied by
  `delta_xy`.

Module `Scenario` works through one configuration with concrete values:

- a wall 1.0 m long and 0.3 m wide, with `lambd = 1.5` and `delta_xy = 0.1`;
- `t_ext = -10`, `h_ext = 25`, `t_int = 20`, `h_int = 8`;
- everything initially at 10.

Temperatures, coefficients and lengths are exact reals; IEEE floating point is not
modelled.

### How the code behaves on degenerate input
- The code validates no parameter.
  - A zero `delta_xy` or `lambd` is a ZeroDivisionError (wall_2d_fdm.py:31,39), so the
    constructor requires both to be non-zero.
  - Negative values go through.
  - With a positive `delta_xy`, a non-positive `length` or `larger` gives an empty mesh.
    With a negative `delta_xy`, a negative `length` or `larger` gives a non-empty one
    (`Arange.Length` states both cases).
- `max_iter_time = 0` gives an empty array. A negative count is a numpy ValueError at
  wall_2d_fdm.py:79, so `CalculateTemperatures` requires `maxIterTime >= 0`.
- A single-row or single-column mesh reads outside the grid at wall_2d_fdm.py:88 or :90
  once a step is taken.
  - `Boundary.SingleRowReadsOutside` and `Boundary.SingleColumnReadsOutside` exhibit this.
  - `CalculateTemperatures` therefore requires two rows and two columns when
    `maxIterTime >= 2`, and also allows an empty mesh.
- The heat-flow routine cannot be reached. `calculate_heat_flow` is defined as a function
  nested inside `calculate_temperatures`, after its `return` (wall_2d_fdm.py:159-161).
  Its two formula lines (wall_2d_fdm.py:165-166) are unreachable code of the enclosing
  method. So the class has no such method, and the call at run.py:37 has no target.
  - The model gives the formula as the standalone function `HeatFlow.HeatFlow`.
  - Its argument is the 2-D slice that run.py:32 selects (`u[-1]`), so `u[0]` and `u[1]`
    are rows 0 and 1 of that slice.

## Model

| member | source | states |
|---|---|---|
| Arange.Ceil | wall_2d_fdm.py:31-33 | the result is the least integer not below its argument, which is the rounding arange uses for its length |
| Arange.Length | wall_2d_fdm.py:31-33 | the length of arange(0, dimension, delta_xy): with a positive step it is zero exactly when the stop is not above the start, and with a negative step exactly when the stop is not below it; LengthCountsPoints gives the full count |
| Arange.LengthCountsPoints | wall_2d_fdm.py:31-33 | the mesh count is a half-open count: point m = start + m step is produced exactly when it lies strictly before the stop (strictly beyond it for a negative step) |
| Fdm.TimeStep | wall_2d_fdm.py:39 | the time step satisfies 4 lambd delta_t = delta_xy^2 |
| Fdm.DiffusionNumber | wall_2d_fdm.py:39-40 | with the time step delta_xy^2 / (4 lambd), the diffusion number lambd delta_t / delta_xy^2 is exactly 1/4, for every non-zero mesh step and conductivity |
| Fdm.ConvectionNumber | wall_2d_fdm.py:41-42 | the convection number teta of a face satisfies teta lambd = delta_xy h |
| Fdm.Wall2dFdm.constructor | wall_2d_fdm.py:9-42 | every parameter except length and larger is stored unchanged; n_rows and n_cols are the arange counts over larger and length; n_nodes is their product; gamma is 1/4; the two teta values satisfy the convection relation for h_ext and h_int |
| Boundary.Classify | wall_2d_fdm.py:87-151 | on a grid of at least 2 x 2 the branch the chain picks is one whose region contains the node; ClassifyExact gives the converse |
| Boundary.ClassifyExact | wall_2d_fdm.py:87-151 | on a grid of at least 2 x 2 the if-chain chooses branch b exactly when the node lies in b's region (corner, face or interior), so the nine regions partition the grid |
| Boundary.ReadsInBounds | wall_2d_fdm.py:87-156 | on such a grid every position a branch reads from slice k lies inside the grid |
| Boundary.SingleRowReadsOutside | wall_2d_fdm.py:87-88 | with a single row, the first node reads row 1, which does not exist |
| Boundary.SingleColumnReadsOutside | wall_2d_fdm.py:87-90 | with a single column, the first node reads column 1, which does not exist |
| Update.Robin | wall_2d_fdm.py:89 | the convective substitute moves the node toward the ambient temperature by the fraction teta of the gap, and equals the node when the ambient equals it |
| Update.Relax | wall_2d_fdm.py:158 | the update changes the node by gamma times the summed neighbour-minus-centre differences, and leaves a node whose four neighbours equal it unchanged |
| Fdm.Wall2dFdm.Resolve | wall_2d_fdm.py:87-156 | the branch temporaries of node (i, j): the centre is the node's own value; the four neighbours are characterised by ResolveRules |
| Fdm.Wall2dFdm.ResolveRules | wall_2d_fdm.py:87-156 | the nine branches implement four face rules: above row 0 the exterior substitute, below the last row the interior substitute, beyond the first and last columns the node's own value, and the real neighbour everywhere else |
| Fdm.Wall2dFdm.ResolveLocal | wall_2d_fdm.py:87-156 | a node's resolved stencil depends on the slice only through the positions its branch reads |
| Grid.Uniform | wall_2d_fdm.py:79-81 | the filled slice has n_rows x n_cols nodes, each holding the fill value |
| Fdm.Wall2dFdm.Step | wall_2d_fdm.py:84-158 | one pass over all nodes: the shape is kept; node values are characterised by ResolveRules, Relax, StepOfUniform and UpdateNode |
| Fdm.Wall2dFdm.Iterate | wall_2d_fdm.py:79-158 | slice k of the whole k-loop: the shape is kept; its values are characterised by SteadyWhenAtAmbient, HistoryIsIterate and CalculateTemperatures |
| Fdm.Wall2dFdm.StepOfUniform | wall_2d_fdm.py:87-158 | from a uniform field at v, one step moves row 0 by gamma teta_ext (t_ext - v) and the last row by gamma teta_int (t_int - v), and leaves every other node at v |
| Fdm.Wall2dFdm.UniformIsFixedPoint | wall_2d_fdm.py:87-158 | a uniform field at both ambient temperatures is a fixed point of the step |
| Fdm.Wall2dFdm.SteadyWhenAtAmbient | wall_2d_fdm.py:79-158 | if the initial temperature equals both ambient temperatures, every slice is the uniform initial field |
| Fdm.Wall2dFdm.UpdateNode | wall_2d_fdm.py:86-158 | the value the branch chain computes for node (i, j) from slice k is that node of the step applied to slice k |
| Fdm.Wall2dFdm.AdvanceRow | wall_2d_fdm.py:85-158 | after the loop over the columns of row i, that row of slice k+1 holds the step of slice k, and no other element of the array changes |
| Fdm.Wall2dFdm.AdvanceTimeStep | wall_2d_fdm.py:84-158 | after the loop over the rows, slice k+1 holds the step of the old slice k, and every other slice is unchanged |
| Fdm.Wall2dFdm.HistoryExtends | wall_2d_fdm.py:83-158 | a run of slices, each one step from the one before, stays such a run when one more step is appended |
| Fdm.Wall2dFdm.HistoryIsIterate | wall_2d_fdm.py:79-158 | the k-th slice of such a run is the k-th iterate |
| Fdm.Wall2dFdm.CalculateTemperatures | wall_2d_fdm.py:74-159 | returns a fresh (max_iter_time, n_rows, n_cols) array with slice 0 uniformly u_initial, every slice k+1 the step of slice k, and every slice k equal to the k-th iterate |
| HeatFlow.HeatFlow | wall_2d_fdm.py:165-166 | the summed flux times delta_xy is -lambd times the summed column differences of row 1 minus row 0, so the mesh step cancels |
| HeatFlow.Flux | wall_2d_fdm.py:165 | one flux density per column, as many as the row has; their sum is characterised by FluxCancelsStep |
| HeatFlow.FluxCancelsStep | wall_2d_fdm.py:165-166 | for any two rows of equal length, the flux sum times delta_xy is -lambd times the sum of their differences |
| HeatFlow.SumScale | wall_2d_fdm.py:165-166 | a sequence that is c times another, column by column, sums to c times its sum (the linearity that np.sum of the flux uses) |
| HeatFlow.WarmingGivesNegativeFlow | wall_2d_fdm.py:165-166 | with positive conductivity and row 1 warmer than row 0 in every column, the heat flow is negative |
| Scenario.ScenarioConstants | wall_2d_fdm.py:31-42 | for the worked configuration the mesh is 3 x 10, gamma is 1/4, teta_ext is 5/3 and teta_int is 8/15 |
| Scenario.ScenarioSteps | wall_2d_fdm.py:83-158 | in the worked configuration one step takes row 0 to 5/3 and row 2 to 34/3 and keeps row 1 at 10; the second step takes row 1 to 33/4 |

## Left out
- Plotting: `plot_grid_nodes` and `plot_heat_map` (wall_2d_fdm.py:44-72) only draw with matplotlib and compute nothing the solver uses.
- The shape message printed by the constructor (wall_2d_fdm.py:36) is console output.
- run.py is not part of this model: it reads the configuration from environment variables and drives the class.
- Floating point: all quantities are exact reals, so rounding in `delta_xy ** 2`, in the arange count and in the stencil is not modelled. In particular, the count for 0.3 / 0.1 is exactly 3 here.
- HeatFlow.HeatFlow: rows of unequal length are excluded. numpy would broadcast or fail on them depending on their shapes.
- HeatFlow.HeatFlow: the dead code in the source applies the formula to the 3-D array. The model describes the 2-D slice run.py hands over.
- The uninitialised contents that `np.empty` allocates are not modelled: the fill with `u_initial` follows at once, so no element is ever read before it is written.
