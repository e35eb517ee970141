/**
 * What the assembled system means for the structure: a solution of A·d = b
 * keeps every support in place, puts every free node in equilibrium with
 * the bar forces the field functions give, and yields a displacement field
 * that is continuous along the chain; the lumped loads add up to the applied
 * ones; and a chain without supports has no unique solution.
 */
module Statics {
  import opened Store
  import opened Fields
  import opened Assembly
  import opened Processor

  // ---------------------------------------------------------------------------
  // Products of a row with a vector

  function Dot(u: seq<real>, v: seq<real>): real
    requires |u| == |v|
  {
    if u == [] then 0.0 else u[0] * v[0] + Dot(u[1..], v[1..])
  }

  /** Term j of the product, 0 outside the vectors. */
  function Term(u: seq<real>, v: seq<real>, j: int): real
    requires |u| == |v|
  {
    if 0 <= j < |u| then u[j] * v[j] else 0.0
  }

  lemma TermShift(u: seq<real>, v: seq<real>, j: int)
    requires |u| == |v| && u != []
    ensures Term(u[1..], v[1..], j) == if 0 <= j then Term(u, v, j + 1) else 0.0
  {
  }

  /** A row that vanishes outside the band p - 1 .. p + 1 meets the vector only there. */
  lemma {:induction false} DotBand(u: seq<real>, v: seq<real>, p: int)
    requires |u| == |v|
    requires forall j :: 0 <= j < |u| && (j < p - 1 || p + 1 < j) ==> u[j] == 0.0
    ensures Dot(u, v) == Term(u, v, p - 1) + Term(u, v, p) + Term(u, v, p + 1)
    decreases |u|
  {
    if u != [] {
      DotBand(u[1..], v[1..], p - 1);
      TermShift(u, v, p - 2);
      TermShift(u, v, p - 1);
      TermShift(u, v, p);
      if p < -1 || 1 < p {
        assert u[0] == 0.0;
      }
    }
  }

  /** Entry (r, c) of the matrix the solver receives. */
  lemma MatrixEntry(nodes: seq<Node>, bars: seq<Bar>, r: int, c: int)
    requires Analysable(nodes, bars) && 0 <= r < |nodes| && 0 <= c < |nodes|
    ensures |StiffnessMatrix(nodes, bars)| == |nodes| && |StiffnessMatrix(nodes, bars)[r]| == |nodes|
    ensures StiffnessMatrix(nodes, bars)[r][c] == StiffnessEntry(nodes, bars, r, c)
  {
  }

  /** Row r of A vanishes outside the band r - 1 .. r + 1. */
  lemma RowBanded(nodes: seq<Node>, bars: seq<Bar>, r: int)
    requires Analysable(nodes, bars) && 0 <= r < |nodes|
    ensures |StiffnessMatrix(nodes, bars)[r]| == |nodes|
    ensures forall j :: 0 <= j < |nodes| && (j < r - 1 || r + 1 < j) ==> StiffnessMatrix(nodes, bars)[r][j] == 0.0
  {
    MatrixEntry(nodes, bars, r, r);
    forall j | 0 <= j < |nodes| && (j < r - 1 || r + 1 < j)
      ensures StiffnessMatrix(nodes, bars)[r][j] == 0.0
    {
      MatrixEntry(nodes, bars, r, j);
    }
  }

  /** Entry (r, c) of A times d[c], 0 outside the matrix. */
  function Contribution(nodes: seq<Node>, bars: seq<Bar>, r: int, c: int, d: seq<real>): real
    requires Analysable(nodes, bars) && 0 <= r < |nodes| && |d| == |nodes|
  {
    if 0 <= c < |nodes| then StiffnessEntry(nodes, bars, r, c) * d[c] else 0.0
  }

  /** Row r of A times d reduces to the three entries of the band. */
  lemma RowProduct(nodes: seq<Node>, bars: seq<Bar>, r: int, d: seq<real>)
    requires Analysable(nodes, bars) && 0 <= r < |nodes| && |d| == |nodes|
    ensures Dot(StiffnessMatrix(nodes, bars)[r], d) ==
      Contribution(nodes, bars, r, r - 1, d) + Contribution(nodes, bars, r, r, d) + Contribution(nodes, bars, r, r + 1, d)
  {
    var row := StiffnessMatrix(nodes, bars)[r];
    RowBanded(nodes, bars, r);
    DotBand(row, d, r);
    TermEntry(nodes, bars, r, r - 1, d);
    TermEntry(nodes, bars, r, r, d);
    TermEntry(nodes, bars, r, r + 1, d);
  }

  lemma TermEntry(nodes: seq<Node>, bars: seq<Bar>, r: int, c: int, d: seq<real>)
    requires Analysable(nodes, bars) && 0 <= r < |nodes| && |d| == |nodes|
    ensures Term(StiffnessMatrix(nodes, bars)[r], d, c) == Contribution(nodes, bars, r, c, d)
  {
    if 0 <= c < |nodes| {
      MatrixEntry(nodes, bars, r, c);
    }
  }

  /** d solves the assembled system exactly: what a correct solver answers. */
  ghost predicate Solves(nodes: seq<Node>, bars: seq<Bar>, d: seq<real>)
    requires Analysable(nodes, bars)
  {
    |d| == |nodes| &&
    forall r :: 0 <= r < |nodes| ==> Dot(StiffnessMatrix(nodes, bars)[r], d) == LoadVector(nodes, bars)[r]
  }

  // ---------------------------------------------------------------------------
  // Supports

  /** Every supported node stays in place: the unit row and the zero load pin its displacement to 0. */
  lemma SupportedNodeFixed(nodes: seq<Node>, bars: seq<Bar>, d: seq<real>, i: int)
    requires Analysable(nodes, bars) && Solves(nodes, bars, d)
    requires 0 <= i < |nodes| && nodes[i].Nb
    ensures d[i] == 0.0
  {
    RowProduct(nodes, bars, i, d);
    assert Dot(StiffnessMatrix(nodes, bars)[i], d) == LoadVector(nodes, bars)[i];
  }

  /** d shifted rigidly by t. */
  function Shifted(d: seq<real>, t: real): (e: seq<real>)
    ensures |e| == |d|
  {
    seq(|d|, i requires 0 <= i < |d| => d[i] + t)
  }

  /** Entry (r, c) of A, 0 outside the matrix. */
  function Coefficient(nodes: seq<Node>, bars: seq<Bar>, r: int, c: int): real
    requires Analysable(nodes, bars) && 0 <= r < |nodes|
  {
    if 0 <= c < |nodes| then StiffnessEntry(nodes, bars, r, c) else 0.0
  }

  /** Without supports, every row of A sums to 0: a rigid shift strains no bar. */
  lemma FreeRowSum(nodes: seq<Node>, bars: seq<Bar>, r: int)
    requires Analysable(nodes, bars) && 0 <= r < |nodes|
    requires forall i :: 0 <= i < |nodes| ==> !nodes[i].Nb
    ensures Coefficient(nodes, bars, r, r - 1) + Coefficient(nodes, bars, r, r) + Coefficient(nodes, bars, r, r + 1) == 0.0
  {
  }

  /** Sum of the entries of u. */
  function Total(u: seq<real>): real {
    if u == [] then 0.0 else u[0] + Total(u[1..])
  }

  function Ones(n: nat): (o: seq<real>)
    ensures |o| == n && forall i :: 0 <= i < n ==> o[i] == 1.0
  {
    seq(n, _ => 1.0)
  }

  lemma {:induction false} DotOnes(u: seq<real>)
    ensures Dot(u, Ones(|u|)) == Total(u)
  {
    if u != [] {
      assert Ones(|u|)[1..] == Ones(|u| - 1);
      DotOnes(u[1..]);
    }
  }

  /** Shifting v by t adds t times the sum of u to the product. */
  lemma {:induction false} DotShift(u: seq<real>, v: seq<real>, t: real)
    requires |u| == |v|
    ensures Dot(u, Shifted(v, t)) == Dot(u, v) + Total(u) * t
  {
    if u != [] {
      assert Shifted(v, t)[1..] == Shifted(v[1..], t);
      DotShift(u[1..], v[1..], t);
      assert u[0] * (v[0] + t) == u[0] * v[0] + u[0] * t;
      assert (u[0] + Total(u[1..])) * t == u[0] * t + Total(u[1..]) * t;
    }
  }

  lemma ContributionOfOnes(nodes: seq<Node>, bars: seq<Bar>, r: int, c: int)
    requires Analysable(nodes, bars) && 0 <= r < |nodes|
    ensures Contribution(nodes, bars, r, c, Ones(|nodes|)) == Coefficient(nodes, bars, r, c)
  {
  }

  /** Without supports, every row of A sums to 0. */
  lemma FreeRowTotal(nodes: seq<Node>, bars: seq<Bar>, r: int)
    requires Analysable(nodes, bars) && 0 <= r < |nodes|
    requires forall i :: 0 <= i < |nodes| ==> !nodes[i].Nb
    ensures Total(StiffnessMatrix(nodes, bars)[r]) == 0.0
  {
    RowProduct(nodes, bars, r, Ones(|nodes|));
    DotOnes(StiffnessMatrix(nodes, bars)[r]);
    ContributionOfOnes(nodes, bars, r, r - 1);
    ContributionOfOnes(nodes, bars, r, r);
    ContributionOfOnes(nodes, bars, r, r + 1);
    FreeRowSum(nodes, bars, r);
  }

  /** Without supports, a rigid shift leaves every row of A·d unchanged. */
  lemma ShiftedRow(nodes: seq<Node>, bars: seq<Bar>, d: seq<real>, t: real, r: int)
    requires Analysable(nodes, bars) && |d| == |nodes| && 0 <= r < |nodes|
    requires forall i :: 0 <= i < |nodes| ==> !nodes[i].Nb
    ensures Dot(StiffnessMatrix(nodes, bars)[r], Shifted(d, t)) == Dot(StiffnessMatrix(nodes, bars)[r], d)
  {
    MatrixEntry(nodes, bars, r, r);
    DotShift(StiffnessMatrix(nodes, bars)[r], d, t);
    FreeRowTotal(nodes, bars, r);
  }

  /**
   * A chain without supports has no unique solution: every rigid shift of a
   * solution solves the system too, so the solver cannot settle on one.
   */
  lemma FloatingChainIsSingular(nodes: seq<Node>, bars: seq<Bar>, d: seq<real>, t: real)
    requires Analysable(nodes, bars) && Solves(nodes, bars, d)
    requires forall i :: 0 <= i < |nodes| ==> !nodes[i].Nb
    ensures Solves(nodes, bars, Shifted(d, t))
  {
    forall r | 0 <= r < |nodes|
      ensures Dot(StiffnessMatrix(nodes, bars)[r], Shifted(d, t)) == LoadVector(nodes, bars)[r]
    {
      ShiftedRow(nodes, bars, d, t, r);
    }
  }

  // ---------------------------------------------------------------------------
  // Equilibrium and continuity of the reconstructed fields

  /** Node coordinates increase along the chain. */
  predicate Ascending(nodes: seq<Node>) {
    forall i :: 0 <= i < |nodes| - 1 ==> nodes[i].x < nodes[i + 1].x
  }

  /** The field functions of bar i, joining nodes i and i + 1, for the nodal displacements d. */
  function BarFieldOf(nodes: seq<Node>, bars: seq<Bar>, d: seq<real>, i: int): (f: BarField)
    requires 0 <= i < |bars| && |d| == |bars| + 1 && |nodes| == |bars| + 1
    requires 0.0 < bars[i].Length() && bars[i].Ig.E != 0.0 && bars[i].Ig.A != 0.0
    ensures f.Valid()
  {
    PlacedFieldOf(nodes[i].x, nodes[i + 1].x, bars[i], d[i], d[i + 1])
  }

  /** On an ascending chain, bar i's force at its ends, in terms of its stiffness and load. */
  lemma AscendingBarForces(nodes: seq<Node>, bars: seq<Bar>, d: seq<real>, i: int)
    requires Analysable(nodes, bars) && Joins(nodes, bars) && Ascending(nodes)
    requires |d| == |nodes| && 0 <= i < |bars|
    ensures BarFieldOf(nodes, bars, d, i).Nx(0.0) == Stiffness(bars[i]) * (d[i + 1] - d[i]) + EquivalentLoad(bars[i])
    ensures BarFieldOf(nodes, bars, d, i).Nx(bars[i].Length()) == Stiffness(bars[i]) * (d[i + 1] - d[i]) - EquivalentLoad(bars[i])
  {
    var f := BarFieldOf(nodes, bars, d, i);
    assert f.U0 == d[i] && f.UL == d[i + 1];
    assert (f.E * f.A) / f.L == Stiffness(bars[i]);
    assert (f.q * f.L) / 2.0 == EquivalentLoad(bars[i]);
    ForceAtEnds(f);
  }

  /** Stiffness of the bar left of node i, 0 at the first node. */
  function LeftStiffness(nodes: seq<Node>, bars: seq<Bar>, i: int): real
    requires Analysable(nodes, bars) && 0 <= i < |nodes|
  {
    if 0 < i then Stiffness(bars[i - 1]) else 0.0
  }

  /** Stiffness of the bar right of node i, 0 at the last node. */
  function RightStiffness(nodes: seq<Node>, bars: seq<Bar>, i: int): real
    requires Analysable(nodes, bars) && 0 <= i < |nodes|
  {
    if i < |bars| then Stiffness(bars[i]) else 0.0
  }

  /** Half the distributed load of the bar left of node i. */
  function LeftLoad(nodes: seq<Node>, bars: seq<Bar>, i: int): real
    requires Analysable(nodes, bars) && 0 <= i < |nodes|
  {
    if 0 < i then EquivalentLoad(bars[i - 1]) else 0.0
  }

  /** Half the distributed load of the bar right of node i. */
  function RightLoad(nodes: seq<Node>, bars: seq<Bar>, i: int): real
    requires Analysable(nodes, bars) && 0 <= i < |nodes|
  {
    if i < |bars| then EquivalentLoad(bars[i]) else 0.0
  }

  /** Displacement of the node before node i, 0 at the first node. */
  function Before(d: seq<real>, i: int): real
    requires 0 <= i < |d|
  {
    if 0 < i then d[i - 1] else 0.0
  }

  /** Displacement of the node after node i, 0 at the last node. */
  function After(d: seq<real>, i: int): real
    requires 0 <= i < |d|
  {
    if i + 1 < |d| then d[i + 1] else 0.0
  }

  /** The force in the bar left of node i at its far end (x = L); 0 at the first node. */
  function LeftForce(nodes: seq<Node>, bars: seq<Bar>, d: seq<real>, i: int): real
    requires Analysable(nodes, bars) && |d| == |nodes| && 0 <= i < |nodes|
  {
    if 0 < i then BarFieldOf(nodes, bars, d, i - 1).Nx(bars[i - 1].Length()) else 0.0
  }

  /** The force in the bar right of node i at its near end (x = 0); 0 at the last node. */
  function RightForce(nodes: seq<Node>, bars: seq<Bar>, d: seq<real>, i: int): real
    requires Analysable(nodes, bars) && |d| == |nodes| && 0 <= i < |nodes|
  {
    if i < |bars| then BarFieldOf(nodes, bars, d, i).Nx(0.0) else 0.0
  }

  /**
   * The three entries of row i of A·d for a free node i, written with the
   * stiffness of its two bars: a coupling cut by a support multiplies a
   * displacement that is 0 anyway.
   */
  lemma FreeRowEntries(nodes: seq<Node>, bars: seq<Bar>, d: seq<real>, i: int)
    requires Analysable(nodes, bars) && |d| == |nodes| && 0 <= i < |nodes| && !nodes[i].Nb
    requires forall j :: 0 <= j < |nodes| && nodes[j].Nb ==> d[j] == 0.0
    ensures Contribution(nodes, bars, i, i - 1, d) == -(LeftStiffness(nodes, bars, i) * Before(d, i))
    ensures Contribution(nodes, bars, i, i, d) == (LeftStiffness(nodes, bars, i) + RightStiffness(nodes, bars, i)) * d[i]
    ensures Contribution(nodes, bars, i, i + 1, d) == -(RightStiffness(nodes, bars, i) * After(d, i))
  {
  }

  /** Row i of A·d = b for a free node i, written with the stiffness of its two bars. */
  lemma FreeRow(nodes: seq<Node>, bars: seq<Bar>, d: seq<real>, i: int)
    requires Analysable(nodes, bars) && Solves(nodes, bars, d) && 0 <= i < |nodes| && !nodes[i].Nb
    ensures -(LeftStiffness(nodes, bars, i) * Before(d, i))
      + (LeftStiffness(nodes, bars, i) + RightStiffness(nodes, bars, i)) * d[i]
      + -(RightStiffness(nodes, bars, i) * After(d, i))
      == nodes[i].Fx + LeftLoad(nodes, bars, i) + RightLoad(nodes, bars, i)
  {
    RowProduct(nodes, bars, i, d);
    assert Dot(StiffnessMatrix(nodes, bars)[i], d) == LoadVector(nodes, bars)[i];
    forall j | 0 <= j < |nodes| && nodes[j].Nb
      ensures d[j] == 0.0
    {
      SupportedNodeFixed(nodes, bars, d, j);
    }
    FreeRowEntries(nodes, bars, d, i);
  }

  /** On an ascending chain, the force of the bar left of node i at its far end. */
  lemma LeftForceValue(nodes: seq<Node>, bars: seq<Bar>, d: seq<real>, i: int)
    requires Analysable(nodes, bars) && Joins(nodes, bars) && Ascending(nodes)
    requires |d| == |nodes| && 0 <= i < |nodes|
    ensures LeftForce(nodes, bars, d, i) == LeftStiffness(nodes, bars, i) * (d[i] - Before(d, i)) - LeftLoad(nodes, bars, i)
  {
    if 0 < i {
      AscendingBarForces(nodes, bars, d, i - 1);
    }
  }

  /** On an ascending chain, the force of the bar right of node i at its near end. */
  lemma RightForceValue(nodes: seq<Node>, bars: seq<Bar>, d: seq<real>, i: int)
    requires Analysable(nodes, bars) && Joins(nodes, bars) && Ascending(nodes)
    requires |d| == |nodes| && 0 <= i < |nodes|
    ensures RightForce(nodes, bars, d, i) == RightStiffness(nodes, bars, i) * (After(d, i) - d[i]) + RightLoad(nodes, bars, i)
  {
    if i < |bars| {
      AscendingBarForces(nodes, bars, d, i);
    }
  }

  lemma EquilibriumAlgebra(kl: real, kr: real, dl: real, di: real, dr: real, el: real, er: real, F: real, fl: real, fr: real)
    requires -(kl * dl) + (kl + kr) * di + -(kr * dr) == F + el + er
    requires fl == kl * (di - dl) - el && fr == kr * (dr - di) + er
    ensures fl - fr == F
  {
    assert kl * (di - dl) == kl * di - kl * dl;
    assert kr * (dr - di) == kr * dr - kr * di;
    assert (kl + kr) * di == kl * di + kr * di;
  }

  /**
   * Every free node is in equilibrium: the force of the bar on its left at
   * its far end, less the force of the bar on its right at its near end,
   * equals the concentrated load applied at the node.
   */
  lemma NodeEquilibrium(nodes: seq<Node>, bars: seq<Bar>, d: seq<real>, i: int)
    requires Analysable(nodes, bars) && Joins(nodes, bars) && Ascending(nodes)
    requires Solves(nodes, bars, d) && 0 <= i < |nodes| && !nodes[i].Nb
    ensures LeftForce(nodes, bars, d, i) - RightForce(nodes, bars, d, i) == nodes[i].Fx
  {
    FreeNodeBalance(nodes, bars, d, i);
    LeftForceValue(nodes, bars, d, i);
    RightForceValue(nodes, bars, d, i);
  }

  /** Row i of A·d = b for a free node i, rearranged into the difference of the two bar forces. */
  lemma FreeNodeBalance(nodes: seq<Node>, bars: seq<Bar>, d: seq<real>, i: int)
    requires Analysable(nodes, bars) && Solves(nodes, bars, d) && 0 <= i < |nodes| && !nodes[i].Nb
    ensures (LeftStiffness(nodes, bars, i) * (d[i] - Before(d, i)) - LeftLoad(nodes, bars, i))
      - (RightStiffness(nodes, bars, i) * (After(d, i) - d[i]) + RightLoad(nodes, bars, i)) == nodes[i].Fx
  {
    FreeRow(nodes, bars, d, i);
    var kl, kr, dl, dr := LeftStiffness(nodes, bars, i), RightStiffness(nodes, bars, i), Before(d, i), After(d, i);
    var el, er := LeftLoad(nodes, bars, i), RightLoad(nodes, bars, i);
    EquilibriumAlgebra(kl, kr, dl, d[i], dr, el, er, nodes[i].Fx, kl * (d[i] - dl) - el, kr * (dr - d[i]) + er);
  }

  /**
   * However bar i is stored, its displacement function starts, at local
   * x = 0, from the displacement of the node at the bar's lower coordinate,
   * and ends, at x = L, at that of the node at its higher one.
   */
  lemma FieldFollowsPositions(nodes: seq<Node>, bars: seq<Bar>, d: seq<real>, i: int)
    requires Analysable(nodes, bars) && Joins(nodes, bars) && |d| == |nodes| && 0 <= i < |bars|
    ensures var f := BarFieldOf(nodes, bars, d, i);
      && f.L == bars[i].End() - bars[i].Start()
      && (nodes[i].x == bars[i].Start() ==> f.Ux(0.0) == d[i] && f.Ux(f.L) == d[i + 1])
      && (nodes[i + 1].x == bars[i].Start() ==> f.Ux(0.0) == d[i + 1] && f.Ux(f.L) == d[i])
  {
  }

  /** On an ascending chain the displacement field is continuous at every inner node. */
  lemma DisplacementContinuous(nodes: seq<Node>, bars: seq<Bar>, d: seq<real>, i: int)
    requires Analysable(nodes, bars) && Joins(nodes, bars) && Ascending(nodes)
    requires |d| == |nodes| && 0 < i < |bars|
    ensures BarFieldOf(nodes, bars, d, i - 1).Ux(bars[i - 1].Length()) == d[i]
    ensures BarFieldOf(nodes, bars, d, i).Ux(0.0) == d[i]
  {
    FieldFollowsPositions(nodes, bars, d, i - 1);
    FieldFollowsPositions(nodes, bars, d, i);
  }

  // ---------------------------------------------------------------------------
  // The lumped loads add up to the applied ones

  function SumFx(nodes: seq<Node>, n: nat): real
    requires n <= |nodes|
  {
    if n == 0 then 0.0 else SumFx(nodes, n - 1) + nodes[n - 1].Fx
  }

  function SumLumped(nodes: seq<Node>, bars: seq<Bar>, n: nat): real
    requires Analysable(nodes, bars) && n <= |nodes|
  {
    if n == 0 then 0.0 else SumLumped(nodes, bars, n - 1) + LumpedLoad(nodes, bars, n - 1)
  }

  function SumTotalLoads(bars: seq<Bar>, n: nat): real
    requires n <= |bars|
  {
    if n == 0 then 0.0 else SumTotalLoads(bars, n - 1) + TotalLoad(bars[n - 1])
  }

  lemma {:induction false} LumpedPrefix(nodes: seq<Node>, bars: seq<Bar>, n: nat)
    requires Analysable(nodes, bars) && 1 <= n <= |bars|
    ensures SumLumped(nodes, bars, n) == SumFx(nodes, n) + SumTotalLoads(bars, n - 1) + EquivalentLoad(bars[n - 1])
  {
    if 1 < n {
      LumpedPrefix(nodes, bars, n - 1);
    }
  }

  /**
   * Lumping is statically equivalent: before the support override, the
   * nodal loads add up to the concentrated loads plus the whole q·L of
   * every bar.
   */
  lemma LumpingPreservesTotalLoad(nodes: seq<Node>, bars: seq<Bar>)
    requires Analysable(nodes, bars)
    ensures SumLumped(nodes, bars, |nodes|) == SumFx(nodes, |nodes|) + SumTotalLoads(bars, |bars|)
  {
    LumpedPrefix(nodes, bars, |bars|);
  }

  // ---------------------------------------------------------------------------
  // One bar fixed at one end

  /** The two rows of A·d = b for one bar whose node s is supported and whose other node, 1 - s, is free. */
  lemma SingleBarRows(nodes: seq<Node>, bars: seq<Bar>, d: seq<real>, s: int)
    requires Analysable(nodes, bars) && |nodes| == 2 && (s == 0 || s == 1) && nodes[s].Nb && !nodes[1 - s].Nb && |d| == 2
    ensures Dot(StiffnessMatrix(nodes, bars)[s], d) == d[s]
    ensures Dot(StiffnessMatrix(nodes, bars)[1 - s], d) == Stiffness(bars[0]) * d[1 - s]
    ensures LoadVector(nodes, bars)[s] == 0.0
    ensures LoadVector(nodes, bars)[1 - s] == nodes[1 - s].Fx + EquivalentLoad(bars[0])
  {
    RowProduct(nodes, bars, 0, d);
    RowProduct(nodes, bars, 1, d);
    assert LoadVector(nodes, bars)[1 - s] == LumpedLoad(nodes, bars, 1 - s);
  }

  lemma SolveScalar(k: real, x: real, y: real)
    requires k != 0.0
    ensures k * x == y <==> x == y / k
  {
  }

  /** For one bar fixed at node s, A·d = b says d[s] = 0 and k·d[1 - s] equals the load of the free node. */
  lemma SingleBarSolves(nodes: seq<Node>, bars: seq<Bar>, d: seq<real>, s: int)
    requires Analysable(nodes, bars) && |nodes| == 2 && (s == 0 || s == 1) && nodes[s].Nb && !nodes[1 - s].Nb && |d| == 2
    ensures Solves(nodes, bars, d) <==>
      d[s] == 0.0 && Stiffness(bars[0]) * d[1 - s] == nodes[1 - s].Fx + EquivalentLoad(bars[0])
  {
    SingleBarRows(nodes, bars, d, s);
    if d[s] == 0.0 && Stiffness(bars[0]) * d[1 - s] == nodes[1 - s].Fx + EquivalentLoad(bars[0]) {
      forall r | 0 <= r < 2
        ensures Dot(StiffnessMatrix(nodes, bars)[r], d) == LoadVector(nodes, bars)[r]
      {
      }
    }
  }

  /**
   * One bar fixed at either end has exactly one solution: the supported node
   * stays in place and the free one moves by its load, the concentrated one
   * plus half the bar's q·L, divided by the stiffness E·A/L.
   */
  lemma SingleBarSolution(nodes: seq<Node>, bars: seq<Bar>, d: seq<real>, s: int)
    requires Analysable(nodes, bars) && |nodes| == 2 && (s == 0 || s == 1) && nodes[s].Nb && !nodes[1 - s].Nb
    ensures Solves(nodes, bars, d) <==>
      |d| == 2 && d[s] == 0.0 && d[1 - s] == (nodes[1 - s].Fx + EquivalentLoad(bars[0])) / Stiffness(bars[0])
  {
    var k, F := Stiffness(bars[0]), nodes[1 - s].Fx + EquivalentLoad(bars[0]);
    assert k != 0.0;
    if |d| == 2 {
      SingleBarSolves(nodes, bars, d, s);
      SolveScalar(k, d[1 - s], F);
    }
  }

  /** Without distributed load, the free end of one bar fixed at its other end moves by F·L/(E·A). */
  lemma SingleUnloadedBar(nodes: seq<Node>, bars: seq<Bar>, d: seq<real>, s: int)
    requires Analysable(nodes, bars) && |nodes| == 2 && (s == 0 || s == 1) && nodes[s].Nb && !nodes[1 - s].Nb
    requires bars[0].Qx == 0.0
    ensures Solves(nodes, bars, d) <==>
      |d| == 2 && d[s] == 0.0 && d[1 - s] == nodes[1 - s].Fx * bars[0].Length() / (bars[0].Ig.E * bars[0].Ig.A)
  {
    SingleBarSolution(nodes, bars, d, s);
    UnloadedDisplacement(bars[0], nodes[1 - s].Fx);
    SameSolution(Solves(nodes, bars, d), d, s, (nodes[1 - s].Fx + EquivalentLoad(bars[0])) / Stiffness(bars[0]),
      nodes[1 - s].Fx * bars[0].Length() / (bars[0].Ig.E * bars[0].Ig.A));
  }

  lemma SameSolution(solves: bool, d: seq<real>, s: int, x: real, y: real)
    requires (s == 0 || s == 1) && x == y && (solves <==> |d| == 2 && d[s] == 0.0 && d[1 - s] == x)
    ensures solves <==> |d| == 2 && d[s] == 0.0 && d[1 - s] == y
  {
  }

  lemma UnloadedDisplacement(bar: Bar, F: real)
    requires 0.0 < bar.Length() && bar.Ig.E != 0.0 && bar.Ig.A != 0.0 && bar.Qx == 0.0
    ensures (F + EquivalentLoad(bar)) / Stiffness(bar) == F * bar.Length() / (bar.Ig.E * bar.Ig.A)
  {
    assert EquivalentLoad(bar) == 0.0;
    Flexibility(F, EquivalentLoad(bar), Stiffness(bar), bar.Ig.E * bar.Ig.A, bar.Length());
  }

  lemma Flexibility(F: real, e: real, k: real, EA: real, L: real)
    requires EA != 0.0 && L != 0.0 && e == 0.0 && k == EA / L
    ensures (F + e) / k == F * L / EA
  {
  }
}
