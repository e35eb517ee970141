# A verified model of the sapr bar-chain solver

sapr analyses a straight chain of axial bars. The input form lists:

- node coordinates;
- bars, each given as a pair of 1-based node indices and a section class;
- section classes (area A, modulus E, allowable stress);
- the supported nodes;
- concentrated loads on nodes and distributed loads on bars.

From that form the program builds `Node` and `Bar` records. It then
assembles a stiffness system `A·d = b` in place and hands it to a linear
solver. From the nodal displacements `d` it builds three closed-form
functions per bar: axial displacement `Ux`, axial force `Nx` and normal
stress `Sx`. A small `range` helper produces the sample points at which
those functions are drawn.

The Dafny modules follow the program's files:

- `Store` (`store.dfy`) models `src/store.ts`: the input form, load summation
  per node and per bar, the `Node` and `Bar` constructors, and the
  `length`/`start`/`end` getters. It is written as pure functions.
- `Common` (`common.dfy`) models `range` from `src/helpers/common.ts`. This
  includes the JavaScript length conversion `Array.from` applies.
- `Assembly` (`assembly.dfy`) models the first half of `computeComponents`
  in `src/helpers/processor.ts`. `A` is an `array2<real>` filled in place by
  the same loop and support overrides. `b` is an `array<real>` filled by the
  same loops. Each method is proved against a specification function:
  `StiffnessEntry` for A and `LoadVector` for b.
- `Processor` (`processor.dfy`) models the rest of `computeComponents`:
  - the call to the solver;
  - the rejection of a complex component with "Calculation error";
  - the loop that builds each bar's field functions.
- `Fields` (`fields.dfy`) gives the three field formulas as member functions
  of a `BarField` value, which holds the coefficients each closure captures.
  Lemmas about the formulas come with them.
- `Statics` (`statics.dfy`) states what a solution of the assembled system
  means for the structure:
  - supported nodes stay in place;
  - every free node is in equilibrium;
  - the displacement field is continuous;
  - lumping the distributed loads preserves their total;
  - a chain without supports has no unique solution;
  - one bar fixed at one end moves by `F·L/(E·A)`.
- `Example` (`example.dfy`) works through a three-node chain from the form
  to its unique solution and its forces.

The program does not check its input, and the model does not add checks:

- The program validates no index of the form:
  - An out-of-range section index `Ig` leaves the bar's section undefined
    (`src/store.ts:62`). The solve then fails with a `TypeError` when it
    reads `value.Ig.E` (`src/helpers/processor.ts:13`).
  - An out-of-range node index `I` or `J` raises nothing: the coordinate
    is undefined and the bar's length is `NaN`.
  - A load record naming a missing node or bar is silently ignored by the
    `filter`.
  - Bars that do not form a chain raise nothing either.

  The model states these conditions as preconditions (`BarRefsValid`,
  `Analysable`, `Joins`), not as error results.
- The program has no singularity check of its own. The only failure paths
  are the solver's own failure and a complex component, which becomes
  "Calculation error".

One defect of the program is recorded under Findings. It chooses which
nodal displacement a bar's functions start from by the bar's stored
direction, not by node positions. The statics lemmas use the corrected
choice, `Processor.PlacedFieldOf`. `Processor.ComputeComponents` keeps the
program's choice and proves that the two agree on every bar stored from
node i to node i + 1 (`Chain`).

## Model

| member | source | states |
|---|---|---|
| Store.DecimalString | src/store.ts:43 | the label of a node or bar is a non-empty string of decimal digits, with no leading zero unless the number is 0 |
| Store.DecimalRoundTrip | src/store.ts:43 | reading the label back as a decimal number gives the number it was made from (index + 1) |
| Store.Reduce | src/store.ts:45 | the left-to-right sum of the magnitudes from 0; its meaning is given by `Store.LoadAtAppend` and `Store.LoadAtIsMaskedSum` |
| Store.LoadAt | src/store.ts:45 | the summed load of the records acting on an index, used for a node's concentrated load here and for a bar's distributed load at src/store.ts:63; `Store.LoadAtIsMaskedSum`, `Store.LoadAtAppend`, `Store.LoadAtNone` and `Store.LoadAtNegated` give its meaning |
| Store.Filter | src/store.ts:45 | the filtered records are drawn from the input, all act on the requested index, and are no more than the input |
| Store.FilterKeepsMatches | src/store.ts:45 | `filter` keeps every record acting on the index as often as it occurs in the input, and no other record |
| Store.LoadAtAppend | src/store.ts:45 | one more record changes the summed load at an index by its magnitude if it acts on that index, and not at all otherwise |
| Store.LoadAtIsMaskedSum | src/store.ts:45 | the filter-then-reduce sum equals the sum in which every record counts once with its magnitude if it acts on the index and with 0 otherwise |
| Store.LoadAtNone | src/store.ts:45 | with no record acting on the index the summed load is 0 |
| Store.MakeNode | src/store.ts:42-47 | the label denotes index + 1; `x` is `xr[index]`; `Fx` is the summed concentrated load on node index + 1; `Nb` holds iff index + 1 occurs in `nb` |
| Store.Bar.Start | src/store.ts:71-73 | start is at most both end coordinates and equal to one of them |
| Store.Bar.End | src/store.ts:75-77 | end is at least both end coordinates and equal to one of them |
| Store.Bar.Length | src/store.ts:67-69 | length is non-negative and equals end - start |
| Store.MakeBar | src/store.ts:57-65 | the label denotes index + 1; `x1`/`x2` are the coordinates of nodes I and J; `Ig` is section class Ig; `Qx` is the summed distributed load on bar index + 1, negated exactly when `x1 > x2` |
| Store.BarSwapInvariant | src/store.ts:67-77 | exchanging the two end coordinates leaves length, start and end unchanged |
| Store.LoadAtNegated | src/store.ts:63 | negating the magnitudes of the records acting on an index negates the summed load there |
| Store.FlippedBar | src/store.ts:57-65 | describing a bar from its other end (I and J exchanged, its distributed load records negated) exchanges `x1`/`x2`, keeps section, length, start and end, and for a bar of non-zero length keeps `Qx` |
| Store.ReversedBar | src/store.ts:60-64 | storing a bar as J to I instead of I to J exchanges `x1`/`x2`, keeps section, length, start and end, and flips the sign of `Qx` for a bar of non-zero length |
| Common.Truncate | src/helpers/common.ts:4 | truncation toward zero: the result lies within 1 of x, on the side of 0 |
| Common.ToLength | src/helpers/common.ts:4 | the array length taken from a number: 0 below 1, otherwise the largest integer not above it |
| Common.First | src/helpers/common.ts:3 | the value the progression starts from: `end` when the step is negative, `start` otherwise; `Common.RangeNegativeStep` gives the swap its meaning |
| Common.Last | src/helpers/common.ts:3 | the value the progression runs towards: `start` when the step is negative, `end` otherwise |
| Common.Range | src/helpers/common.ts:1-5 | step 0 gives exactly `[start]`; otherwise start and end are swapped for a negative step, the length is the truncated and clamped `(end - start + step) / step`, and element i is `i·step + start` |
| Common.RangeAscending | src/helpers/common.ts:4 | with a positive step and `start <= end` the samples start at `start`, increase strictly, never pass `end`, and the last lies within one step of `end` |
| Common.RangeIncreases | src/helpers/common.ts:4 | with a positive step the samples increase strictly |
| Common.RangeBelowEnd | src/helpers/common.ts:4 | with a positive step no sample exceeds `end` |
| Common.RangeReachesEnd | src/helpers/common.ts:4 | with a positive step and `start <= end` there is at least one sample, the first is `start` and the last is above `end - step` |
| Common.RangeEmpty | src/helpers/common.ts:4 | with a positive step and `end < start` there are no samples |
| Common.RangeNegativeStep | src/helpers/common.ts:3-4 | a negative step gives as many samples as the opposite positive step, mirrored: sample i is `start + end` minus sample i of the positive-step range |
| Fields.BarField.Ux | src/helpers/processor.ts:64 | the displacement closure; `Fields.DisplacementAtEnds`, `Fields.DisplacementPolynomial` and `Fields.DisplacementSolvesBarEquation` give its meaning |
| Fields.BarField.Nx | src/helpers/processor.ts:65 | the force closure; `Fields.ForceBalance`, `Fields.ForceAtEnds`, `Fields.ForcePolynomial` and `Fields.ForceIsStiffnessTimesStrain` give its meaning |
| Fields.BarField.Sx | src/helpers/processor.ts:66 | the stress closure; `Fields.StressIsForcePerArea` gives its meaning |
| Fields.DisplacementAtEnds | src/helpers/processor.ts:64 | `Ux(0) == U0` and `Ux(L) == UL` |
| Fields.ForceBalance | src/helpers/processor.ts:65 | between any two points the force drops by the distributed load they enclose: `Nx(x) - Nx(y) == q·(y - x)` |
| Fields.ForceDropOverBar | src/helpers/processor.ts:65 | `Nx(0) - Nx(L) == q·L` |
| Fields.ForceAtEnds | src/helpers/processor.ts:65 | the end forces are the stiffness term `E·A/L·(UL - U0)` plus `q·L/2` at x = 0 and minus `q·L/2` at x = L |
| Fields.ForceConstantWithoutLoad | src/helpers/processor.ts:65 | with `q == 0` the force is the same at every x |
| Fields.StressIsForcePerArea | src/helpers/processor.ts:66 | `Sx(x)·A == Nx(x)` |
| Fields.DisplacementPolynomial | src/helpers/processor.ts:64 | `Ux` is the quadratic `U0 + (s + c)·t - (c/L)·t²`, where s = (UL - U0)/L and c = q·L/(2·E·A) |
| Fields.ForcePolynomial | src/helpers/processor.ts:65 | `Nx` is `E·A` times the derivative of that quadratic |
| Fields.ForceIsStiffnessTimesStrain | src/helpers/processor.ts:64-65 | the change of `Ux` between two points times `2·E·A` equals the distance times the sum of `Nx` at them: `Nx` is `E·A·Ux'` |
| Fields.DisplacementSolvesBarEquation | src/helpers/processor.ts:64 | `Ux` solves `E·A·u'' = -q`: its second difference at spacing h, times `E·A`, is `-q·h²` |
| Assembly.Stiffness | src/helpers/processor.ts:13 | the axial stiffness `E·A/L` of each bar; `Statics.SingleUnloadedBar` shows that it is the load per unit elongation |
| Assembly.StiffnessShape | src/helpers/processor.ts:14-34 | the assembled matrix is symmetric and tridiagonal; a supported node has a unit row and column; a free node's diagonal is the summed stiffness of its bars; neighbours are coupled by `-E·A/L` unless either is supported |
| Assembly.PassKeeps | src/helpers/processor.ts:16-28 | a pass of the assembly loop changes only the entries it writes |
| Assembly.PassWrites | src/helpers/processor.ts:17-27 | the values a pass writes: the bar's stiffness on the next diagonal, then either the unit row of a supported node or the accumulated diagonal and the negative coupling |
| Assembly.AssemblePass | src/helpers/processor.ts:16-28 | one pass takes A from the matrix after i passes to the matrix after i + 1 |
| Assembly.AssemblyComplete | src/helpers/processor.ts:30-34 | after the loop A already holds the final matrix, except where a supported last node is overridden, and the override writes the final values |
| Assembly.AssembleStiffness | src/helpers/processor.ts:13-34 | A is N×N and every entry equals the final stiffness entry |
| Assembly.LumpedSums | src/helpers/processor.ts:36-40 | the three load loops sum to the lumped load of each node: half of one bar's q·L at the ends, half of two bars' elsewhere |
| Assembly.AddBarLoads | src/helpers/processor.ts:36-40 | after the loops every entry of b is the node's lumped load |
| Assembly.AssembleLoads | src/helpers/processor.ts:36-44 | b has N entries: 0 at every support and the lumped load elsewhere, which is the load vector the solver receives |
| Processor.ToNumbers | src/helpers/processor.ts:48-53 | succeeds iff no component is complex, and then keeps every component's value in order; otherwise fails with "Calculation error" |
| Processor.FieldOf | src/helpers/processor.ts:61-62 | as written: the field record keeps the bar's L, E, A and q, and its displacement function starts, at x = 0, from the displacement passed for the stored first end when `x1 < x2` and from the other one when `x2 < x1` |
| Processor.Reconstruct | src/helpers/processor.ts:55-67 | one field record per bar i < \|d\| - 1, with `U0`/`UL` taken from `d[i]`/`d[i + 1]` in the order `x1 < x2` dictates |
| Processor.ComputeComponents | src/helpers/processor.ts:11-69 | a solver failure is passed on; a complex component fails with "Calculation error"; otherwise the result has one field record per bar, built from the solved displacements, and on a chain stored from node i to node i + 1 each equals the placed field record |
| Processor.PlacedFieldOf | src/helpers/processor.ts:61-64 | corrected choice: the field record's displacement function starts, at x = 0, from the displacement of whichever of the bar's two nodes lies at the lower coordinate, and ends at x = L at the other's; L, E, A and q are the bar's |
| Processor.ForwardStorageAgrees | src/helpers/processor.ts:62 | on a bar stored from node i to node i + 1 the program's choice of `U0`/`UL` is the placed one |
| Processor.ReverseStorageMirrors | src/helpers/processor.ts:62 | on a bar stored from node i + 1 to node i the program's choice is the placed one with the two displacements exchanged |
| Processor.ReversalMirrorsFields | src/helpers/processor.ts:62 | as written, describing a bar from its other end with its distributed load negated exchanges the displacements its field functions start and end at |
| Processor.ReversedBarMisplaced | src/helpers/processor.ts:62 | on nodes at 0 and 1 with displacements 0 and 1 and a bar stored from node 2 to node 1, the program's displacement at the bar's lower end is 1 while the placed choice gives 0 |
| Processor.ReversalKeepsFields | src/helpers/processor.ts:62-66 | with the placed choice, describing a bar from its other end leaves its field record and hence `Ux`, `Nx` and `Sx` at every x unchanged |
| Statics.RowProduct | src/helpers/processor.ts:14-34 | row r of A·d involves only the entries r - 1, r and r + 1 |
| Statics.SupportedNodeFixed | src/helpers/processor.ts:18-44 | every supported node's displacement in a solution is 0 |
| Statics.FreeRowTotal | src/helpers/processor.ts:16-28 | without supports, every row of A sums to 0 |
| Statics.ShiftedRow | src/helpers/processor.ts:16-28 | without supports, shifting d rigidly leaves every row of A·d unchanged |
| Statics.FloatingChainIsSingular | src/helpers/processor.ts:16-48 | without supports, every rigid shift of a solution is again a solution, so the solution is not unique |
| Statics.AscendingBarForces | src/helpers/processor.ts:59-65 | (corrected choice) on an ascending chain, with bars stored in either direction, a bar's end forces are its stiffness times its elongation, plus or minus half its q·L |
| Statics.LeftForceValue | src/helpers/processor.ts:59-65 | (corrected choice) the force at the far end of the bar left of a node, in terms of stiffness, displacements and load |
| Statics.RightForceValue | src/helpers/processor.ts:59-65 | (corrected choice) the force at the near end of the bar right of a node, in the same terms |
| Statics.FreeRow | src/helpers/processor.ts:16-44 | a free node's row of A·d = b, written with the stiffness of its two bars and its lumped load |
| Statics.FreeNodeBalance | src/helpers/processor.ts:16-44 | that row rearranged: the difference of the two bar-end force expressions is the node's concentrated load |
| Statics.NodeEquilibrium | src/helpers/processor.ts:16-65 | (corrected choice) for a solution, at every free node the force of the left bar at its far end, less the force of the right bar at its near end, equals the concentrated load |
| Statics.FieldFollowsPositions | src/helpers/processor.ts:60-64 | (corrected choice) however a bar is stored, its `Ux` runs from the displacement of the node at its lower coordinate to that of the node at its higher one |
| Statics.DisplacementContinuous | src/helpers/processor.ts:59-64 | (corrected choice) on an ascending chain the displacement functions of the two bars at an inner node agree there with its displacement |
| Statics.LumpingPreservesTotalLoad | src/helpers/processor.ts:36-40 | the lumped nodal loads add up to the concentrated loads plus the whole q·L of every bar |
| Statics.SingleBarSolves | src/helpers/processor.ts:14-44 | for one bar fixed at either node, A·d = b holds iff the supported displacement is 0 and the stiffness times the free one equals the free node's load |
| Statics.SingleBarSolution | src/helpers/processor.ts:11-48 | with the support at either end that system has exactly one solution: 0 at the support and the free node's load over the stiffness at the other node |
| Statics.SingleUnloadedBar | src/helpers/processor.ts:11-48 | with the support at either end and no distributed load, the supported end stays at 0 and the free end moves by exactly `F·L/(E·A)` |
| Example.ExampleNode | src/store.ts:42-47 | the worked form's nodes sit at 0, 1 and 2; only the first is supported and only the last is loaded, with 10 |
| Example.ExampleBar | src/store.ts:57-65 | the worked form's bars run from k to k + 1 with E = 200, A = 1 and no distributed load |
| Example.ExampleBuilt | src/store.ts:42-65 | the records built from the worked form are the chain the remaining lemmas analyse |
| Example.ExampleField | src/helpers/processor.ts:62-66 | under d = [0, 0.05, 0.1] each bar of the worked chain carries force 10 and stress 10 at every x |
| Example.ExampleSolves | src/helpers/processor.ts:13-44 | d = [0, 0.05, 0.1] solves the worked chain's assembled system |
| Example.ExampleUnique | src/helpers/processor.ts:13-44 | no other d solves it |
| Example.ExampleSolution | src/helpers/processor.ts:11-69 | the worked chain is analysable and ascending; it is solved exactly by d = [0, 0.05, 0.1]; both bars then carry a constant force of 10 and a constant stress of 10 |

## Left out

- The linear solve is mathjs `lusolve`, a foreign numerical library. It is a `Solver` function parameter. Its answer is taken as given, and `Solves` says what a correct answer satisfies.
- The unwrapping of the solver's column matrix (`Array.isArray(value) ? value[0] : value`) and the `number(...)` conversion are left out. The solver answers one `Scalar` per unknown.
- The program has no singular-system check for an unsupported chain and relies on the solver. `Statics.FloatingChainIsSingular` proves that such a chain has no unique solution. It does not claim that the solver then fails.
- IEEE-754 rounding, NaN and infinities are left out. All arithmetic is over `real`, where `Math.abs`, `Math.min` and `Math.max` are exact.
- `Array.from` raises a `RangeError` when the length is at least 2^32. That is not modelled.
- `Number.prototype.toString` is modelled only on the non-negative integers that the constructors pass to it.
- Some record shapes are changed:
  - The records' `label` field is called `name`.
  - Concentrated and distributed load records share one `Load` datatype, since they have the same shape.
- The three result arrays of closures (`Ux`, `Nx`, `Sx`) are one sequence of `BarField` values with `Ux`/`Nx`/`Sx` member functions.
- Out-of-range indices in the form, a node count that is not the bar count plus one, and a broken chain are not detected by the code. They are preconditions, not error results.
- Six lemmas in `Statics` require `Joins`: `AscendingBarForces`, `LeftForceValue`, `RightForceValue`, `NodeEquilibrium`, `FieldFollowsPositions` and `DisplacementContinuous`. All but `FieldFollowsPositions` also require `Ascending`:
  - `Joins`: bar i joins node i and node i + 1, stored in either direction.
  - `Ascending`: node coordinates increase along the chain.

  Nothing is claimed about bars that join other nodes.
- `async`, the `Promise` wrapper and the dynamic `import` of mathjs are left out. There are no suspension points in the computation.
- Out of scope:
  - `src/helpers/render.ts`, `src/helpers/pdf.ts` and `src/helpers/chartist.ts` are drawing, report and chart presentation.
  - `src/composables/processor.ts` is an earlier draft whose only effect is console output.

## Findings

| source | as written | input that shows it | evidently intended | confidence | as-written member | corrected member |
|---|---|---|---|---|---|---|
| src/helpers/processor.ts:62 | `U0`/`UL` are picked by the bar's stored `x1 < x2`, but `d[i]` and `d[i + 1]` always belong to nodes i and i + 1 | nodes at 0 and 1 with displacements 0 and 1, one bar stored as I = 2, J = 1: the displacement function is 1 at the bar's lower end, where node 1 with displacement 0 sits; stored as I = 1, J = 2 it is 0 | `U0` is the displacement of whichever of nodes i and i + 1 lies at the lower coordinate, so describing a bar from its other end (with its distributed load negated) leaves `Ux`, `Nx` and `Sx` unchanged (`Processor.ReversalKeepsFields`) | not executed; high | Processor.ReversedBarMisplaced | Processor.PlacedFieldOf |
