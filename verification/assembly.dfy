/**
 * Assembly of the global system A·d = b of a chain of N nodes and N - 1
 * bars, bar i joining node i and node i + 1: the stiffness matrix with its
 * support rows, and the load vector with the lumped distributed loads.
 */
module Assembly {
  import opened Store

  /**
   * What the solver relies on and never checks: at least two nodes, one bar
   * fewer than nodes, and every bar of positive length with non-zero modulus
   * and area.
   */
  predicate Analysable(nodes: seq<Node>, bars: seq<Bar>) {
    2 <= |nodes| && |bars| == |nodes| - 1 &&
    forall i :: 0 <= i < |bars| ==>
      0.0 < bars[i].Length() && bars[i].Ig.E != 0.0 && bars[i].Ig.A != 0.0
  }

  /** Axial stiffness E·A/L of a bar. */
  function Stiffness(bar: Bar): real
    requires 0.0 < bar.Length()
  {
    (bar.Ig.E * bar.Ig.A) / bar.Length()
  }

  /** The coupling between node i and node i + 1: -E·A/L of bar i, cut when either node is supported. */
  function Coupling(nodes: seq<Node>, bars: seq<Bar>, i: int): real
    requires Analysable(nodes, bars) && 0 <= i < |bars|
  {
    if nodes[i].Nb || nodes[i + 1].Nb then 0.0 else -Stiffness(bars[i])
  }

  /** The stiffness a free node collects from the bars touching it (one at either end of the chain). */
  function NodeStiffness(nodes: seq<Node>, bars: seq<Bar>, r: int): real
    requires Analysable(nodes, bars) && 0 <= r < |nodes|
  {
    (if 0 < r then Stiffness(bars[r - 1]) else 0.0) + (if r < |bars| then Stiffness(bars[r]) else 0.0)
  }

  /** Entry (r, c) of the assembled stiffness matrix. */
  function StiffnessEntry(nodes: seq<Node>, bars: seq<Bar>, r: int, c: int): real
    requires Analysable(nodes, bars) && 0 <= r < |nodes| && 0 <= c < |nodes|
  {
    if r == c then (if nodes[r].Nb then 1.0 else NodeStiffness(nodes, bars, r))
    else if c == r + 1 then Coupling(nodes, bars, r)
    else if r == c + 1 then Coupling(nodes, bars, c)
    else 0.0
  }

  /** The assembled stiffness matrix as rows, the form the solver receives. */
  function StiffnessMatrix(nodes: seq<Node>, bars: seq<Bar>): seq<seq<real>>
    requires Analysable(nodes, bars)
  {
    seq(|nodes|, r requires 0 <= r < |nodes| =>
      seq(|nodes|, c requires 0 <= c < |nodes| => StiffnessEntry(nodes, bars, r, c)))
  }

  /**
   * Entry (r, c) of A after the first i passes of the assembly loop: the
   * diagonal of node i is seeded with bar i - 1's stiffness, nodes before i
   * are finished, and the coupling of bar j < i is cut by a support at node j
   * or, once pass j + 1 has run, at node j + 1.
   */
  ghost function AssemblyAfter(nodes: seq<Node>, bars: seq<Bar>, i: int, r: int, c: int): real
    requires Analysable(nodes, bars) && 0 <= i <= |bars| && 0 <= r < |nodes| && 0 <= c < |nodes|
  {
    if r == c then
      if r < i then (if nodes[r].Nb then 1.0 else NodeStiffness(nodes, bars, r))
      else if r == i && 0 < i then Stiffness(bars[i - 1])
      else 0.0
    else if c == r + 1 || r == c + 1 then
      var j := if r < c then r else c;
      if j < i && !nodes[j].Nb && !(j + 1 < i && nodes[j + 1].Nb) then -Stiffness(bars[j]) else 0.0
    else 0.0
  }

  /** A holds the matrix after the first i passes of the assembly loop. */
  ghost predicate AssembledUpTo(A: array2<real>, nodes: seq<Node>, bars: seq<Bar>, i: int)
    requires Analysable(nodes, bars) && 0 <= i <= |bars|
    reads A
  {
    A.Length0 == |nodes| && A.Length1 == |nodes| &&
    forall r, c :: 0 <= r < |nodes| && 0 <= c < |nodes| ==> A[r, c] == AssemblyAfter(nodes, bars, i, r, c)
  }

  /** The entries pass i writes: node i + 1's diagonal, node i's diagonal and couplings, and, at a support, the coupling to node i - 1. */
  predicate Written(i: int, supported: bool, r: int, c: int) {
    (r == i + 1 && c == i + 1) || (r == i && c == i) || (r == i && c == i + 1) || (r == i + 1 && c == i) ||
    (supported && 0 < i && ((r == i && c == i - 1) || (r == i - 1 && c == i)))
  }

  /** Pass i changes only the entries it writes. */
  lemma PassKeeps(nodes: seq<Node>, bars: seq<Bar>, i: int, r: int, c: int)
    requires Analysable(nodes, bars) && 0 <= i < |bars| && 0 <= r < |nodes| && 0 <= c < |nodes|
    requires !Written(i, nodes[i].Nb, r, c)
    ensures AssemblyAfter(nodes, bars, i + 1, r, c) == AssemblyAfter(nodes, bars, i, r, c)
  {
  }

  /** What pass i writes. */
  lemma PassWrites(nodes: seq<Node>, bars: seq<Bar>, i: int)
    requires Analysable(nodes, bars) && 0 <= i < |bars|
    ensures AssemblyAfter(nodes, bars, i + 1, i + 1, i + 1) == Stiffness(bars[i])
    ensures AssemblyAfter(nodes, bars, i + 1, i, i) ==
      if nodes[i].Nb then 1.0 else AssemblyAfter(nodes, bars, i, i, i) + Stiffness(bars[i])
    ensures AssemblyAfter(nodes, bars, i + 1, i, i + 1) == (if nodes[i].Nb then 0.0 else -Stiffness(bars[i]))
    ensures AssemblyAfter(nodes, bars, i + 1, i + 1, i) == (if nodes[i].Nb then 0.0 else -Stiffness(bars[i]))
    ensures nodes[i].Nb && 0 < i ==>
      AssemblyAfter(nodes, bars, i + 1, i, i - 1) == 0.0 && AssemblyAfter(nodes, bars, i + 1, i - 1, i) == 0.0
  {
  }

  /** Pass i of the assembly loop: bar i's stiffness goes into A, and node i is finished. */
  method AssemblePass(A: array2<real>, nodes: seq<Node>, bars: seq<Bar>, i: int, k: real)
    requires Analysable(nodes, bars) && 0 <= i < |bars| && k == Stiffness(bars[i])
    requires AssembledUpTo(A, nodes, bars, i)
    modifies A
    ensures AssembledUpTo(A, nodes, bars, i + 1)
  {
    PassWrites(nodes, bars, i);
    label before:
    A[i + 1, i + 1] := k;
    if nodes[i].Nb {
      A[i, i] := 1.0;
      A[i, i + 1] := 0.0;
      A[i + 1, i] := 0.0;
      if i > 0 {
        A[i, i - 1] := 0.0;
        A[i - 1, i] := 0.0;
      }
    } else {
      A[i, i] := A[i, i] + k;
      A[i, i + 1] := -k;
      A[i + 1, i] := -k;
    }
    forall r, c | 0 <= r < |nodes| && 0 <= c < |nodes|
      ensures A[r, c] == AssemblyAfter(nodes, bars, i + 1, r, c)
    {
      if !Written(i, nodes[i].Nb, r, c) {
        assert A[r, c] == old@before(A[r, c]);
        PassKeeps(nodes, bars, i, r, c);
      }
    }
  }

  /** After the last pass, A differs from the final matrix only where a supported last node is overridden. */
  lemma AssemblyComplete(nodes: seq<Node>, bars: seq<Bar>, r: int, c: int)
    requires Analysable(nodes, bars) && 0 <= r < |nodes| && 0 <= c < |nodes|
    ensures var last := |bars|;
      nodes[last].Nb && (r, c) in {(last, last), (last, last - 1), (last - 1, last)} ==>
        StiffnessEntry(nodes, bars, r, c) == (if r == c then 1.0 else 0.0)
    ensures var last := |bars|;
      !(nodes[last].Nb && (r, c) in {(last, last), (last, last - 1), (last - 1, last)}) ==>
        AssemblyAfter(nodes, bars, |bars|, r, c) == StiffnessEntry(nodes, bars, r, c)
  {
  }

  /**
   * The shape of the assembled matrix: symmetric and tridiagonal, a unit row
   * and column at every supported node, the summed stiffness on a free node's
   * diagonal, and -E·A/L between free neighbours.
   */
  lemma StiffnessShape(nodes: seq<Node>, bars: seq<Bar>, r: int, c: int)
    requires Analysable(nodes, bars) && 0 <= r < |nodes| && 0 <= c < |nodes|
    ensures StiffnessEntry(nodes, bars, r, c) == StiffnessEntry(nodes, bars, c, r)
    ensures r + 1 < c || c + 1 < r ==> StiffnessEntry(nodes, bars, r, c) == 0.0
    ensures nodes[r].Nb ==> StiffnessEntry(nodes, bars, r, c) == (if r == c then 1.0 else 0.0)
    ensures !nodes[r].Nb ==> StiffnessEntry(nodes, bars, r, r) == NodeStiffness(nodes, bars, r)
    ensures c == r + 1 ==>
      StiffnessEntry(nodes, bars, r, c) == (if nodes[r].Nb || nodes[c].Nb then 0.0 else -Stiffness(bars[r]))
  {
  }

  /**
   * Builds A in place, one bar at a time, then overrides the row and column
   * of every supported node with a unit row and column.
   */
  method AssembleStiffness(nodes: seq<Node>, bars: seq<Bar>) returns (A: array2<real>)
    requires Analysable(nodes, bars)
    ensures fresh(A)
    ensures A.Length0 == |nodes| && A.Length1 == |nodes|
    ensures forall r, c :: 0 <= r < |nodes| && 0 <= c < |nodes| ==> A[r, c] == StiffnessEntry(nodes, bars, r, c)
  {
    var EAL := seq(|bars|, i requires 0 <= i < |bars| => Stiffness(bars[i]));
    var n := |nodes|;
    A := new real[n, n]((r, c) => 0.0);
    var i := 0;
    while i < n - 1
      invariant 0 <= i <= n - 1
      invariant AssembledUpTo(A, nodes, bars, i)
    {
      AssemblePass(A, nodes, bars, i, EAL[i]);
      i := i + 1;
    }
    var last := n - 1;
    label looped:
    if nodes[last].Nb {
      A[last, last] := 1.0;
      A[last, last - 1] := 0.0;
      A[last - 1, last] := 0.0;
    }
    forall r, c | 0 <= r < n && 0 <= c < n
      ensures A[r, c] == StiffnessEntry(nodes, bars, r, c)
    {
      AssemblyComplete(nodes, bars, r, c);
      if !(nodes[last].Nb && (r, c) in {(last, last), (last, last - 1), (last - 1, last)}) {
        assert A[r, c] == old@looped(A[r, c]);
      }
    }
  }

  // ---------------------------------------------------------------------------
  // Load vector

  /** A bar's total distributed load, q·L. */
  function TotalLoad(bar: Bar): real {
    bar.Qx * bar.Length()
  }

  /** Half of a bar's total distributed load: what each of its two nodes receives. */
  function EquivalentLoad(bar: Bar): real {
    TotalLoad(bar) / 2.0
  }

  /** The load of node i before the support override: its concentrated load and half the load of each adjacent bar. */
  function LumpedLoad(nodes: seq<Node>, bars: seq<Bar>, i: int): real
    requires Analysable(nodes, bars) && 0 <= i < |nodes|
  {
    nodes[i].Fx
      + (if 0 < i then EquivalentLoad(bars[i - 1]) else 0.0)
      + (if i < |bars| then EquivalentLoad(bars[i]) else 0.0)
  }

  /** Entry i of the assembled load vector: 0 at a support, the lumped load elsewhere. */
  function LoadEntry(nodes: seq<Node>, bars: seq<Bar>, i: int): real
    requires Analysable(nodes, bars) && 0 <= i < |nodes|
  {
    if nodes[i].Nb then 0.0 else LumpedLoad(nodes, bars, i)
  }

  /** The assembled load vector, the form the solver receives. */
  function LoadVector(nodes: seq<Node>, bars: seq<Bar>): seq<real>
    requires Analysable(nodes, bars)
  {
    seq(|nodes|, i requires 0 <= i < |nodes| => LoadEntry(nodes, bars, i))
  }

  /** How the assembly loop sums the lumped load of a node: the two end nodes get half of one bar, the others half of two. */
  lemma LumpedSums(nodes: seq<Node>, bars: seq<Bar>, i: int)
    requires Analysable(nodes, bars) && 0 <= i < |nodes|
    ensures i == 0 ==> LumpedLoad(nodes, bars, i) == nodes[0].Fx + TotalLoad(bars[0]) / 2.0
    ensures 0 < i < |bars| ==>
      LumpedLoad(nodes, bars, i) == nodes[i].Fx + (TotalLoad(bars[i - 1]) + TotalLoad(bars[i])) / 2.0
    ensures i == |bars| ==> LumpedLoad(nodes, bars, i) == nodes[i].Fx + TotalLoad(bars[i - 1]) / 2.0
  {
  }

  /**
   * Builds b in place: the concentrated loads, plus half of each adjacent
   * bar's q·L, then 0 at every support.
   */
  method AssembleLoads(nodes: seq<Node>, bars: seq<Bar>) returns (b: array<real>)
    requires Analysable(nodes, bars)
    ensures fresh(b)
    ensures b.Length == |nodes|
    ensures forall i :: 0 <= i < |nodes| && nodes[i].Nb ==> b[i] == 0.0
    ensures forall i :: 0 <= i < |nodes| && !nodes[i].Nb ==> b[i] == LumpedLoad(nodes, bars, i)
    ensures b[..] == LoadVector(nodes, bars)
  {
    var n := |nodes|;
    b := new real[n](i requires 0 <= i < n => nodes[i].Fx);
    AddBarLoads(b, nodes, bars);
    for i := 0 to n
      invariant forall j :: 0 <= j < i ==> b[j] == LoadEntry(nodes, bars, j)
      invariant forall j :: i <= j < n ==> b[j] == LumpedLoad(nodes, bars, j)
    {
      if nodes[i].Nb {
        b[i] := 0.0;
      }
    }
    assert b[..] == LoadVector(nodes, bars) by {
      forall j | 0 <= j < n
        ensures b[..][j] == LoadVector(nodes, bars)[j]
      {
      }
    }
  }

  /** Adds half of each bar's q·L to both of its nodes, turning the concentrated loads in b into the lumped loads. */
  method AddBarLoads(b: array<real>, nodes: seq<Node>, bars: seq<Bar>)
    requires Analysable(nodes, bars) && b.Length == |nodes|
    requires forall j :: 0 <= j < |nodes| ==> b[j] == nodes[j].Fx
    modifies b
    ensures forall j :: 0 <= j < |nodes| ==> b[j] == LumpedLoad(nodes, bars, j)
  {
    var n := |nodes|;
    LumpedSums(nodes, bars, 0);
    b[0] := b[0] + TotalLoad(bars[0]) / 2.0;
    for i := 1 to n - 1
      invariant forall j :: 0 <= j < i ==> b[j] == LumpedLoad(nodes, bars, j)
      invariant forall j :: i <= j < n ==> b[j] == nodes[j].Fx
    {
      LumpedSums(nodes, bars, i);
      b[i] := b[i] + (TotalLoad(bars[i - 1]) + TotalLoad(bars[i])) / 2.0;
    }
    LumpedSums(nodes, bars, n - 1);
    b[n - 1] := b[n - 1] + TotalLoad(bars[n - 2]) / 2.0;
  }
}
