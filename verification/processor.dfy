/**
 * The field solver: assembles A and b, hands them to an external linear
 * solver, rejects a solution with a non-real component, and builds each
 * bar's displacement, force and stress functions from the nodal
 * displacements.
 */
module Processor {
  import opened Store
  import opened Fields
  import opened Assembly

  datatype Result<T> = Ok(value: T) | Err(message: string)

  /** One component of the solver's answer: a plain number, or a complex number (what `isComplex` detects). */
  datatype Scalar = Number(v: real) | Complex(re: real, im: real)

  /**
   * The external linear solve of A·d = b: given the rows of A and b, it
   * answers one component per unknown, or fails with its own message.
   */
  type Solver = (seq<seq<real>>, seq<real>) -> Result<seq<Scalar>>

  /** Bar i joins node i (its first end) and node i + 1 (its second end). */
  predicate Chain(nodes: seq<Node>, bars: seq<Bar>) {
    |bars| + 1 == |nodes| &&
    forall i :: 0 <= i < |bars| ==> bars[i].x1 == nodes[i].x && bars[i].x2 == nodes[i + 1].x
  }

  /** Bar i joins node i and node i + 1, stored from either of them to the other. */
  predicate Joins(nodes: seq<Node>, bars: seq<Bar>) {
    |bars| + 1 == |nodes| &&
    forall i :: 0 <= i < |bars| ==>
      (bars[i].x1 == nodes[i].x && bars[i].x2 == nodes[i + 1].x) ||
      (bars[i].x1 == nodes[i + 1].x && bars[i].x2 == nodes[i].x)
  }

  /**
   * The solver's components as numbers; the first complex one aborts the
   * whole computation with "Calculation error".
   */
  function ToNumbers(col: seq<Scalar>): (r: Result<seq<real>>)
    ensures r.Ok? <==> forall j :: 0 <= j < |col| ==> col[j].Number?
    ensures r.Ok? ==> |r.value| == |col| && forall j :: 0 <= j < |col| ==> r.value[j] == col[j].v
    ensures r.Err? ==> r.message == "Calculation error"
  {
    if col == [] then Ok([])
    else if col[0].Complex? then Err("Calculation error")
    else
      match ToNumbers(col[1..])
      case Ok(rest) => Ok([col[0].v] + rest)
      case Err(message) => Err(message)
  }

  /**
   * The values bar `bar` captures, given the solved displacements d0 of its
   * first node and d1 of its second: U0 belongs to the end with the lower
   * coordinate when the bar is stored ascending, and the two are exchanged
   * otherwise.
   */
  function FieldOf(bar: Bar, d0: real, d1: real): (f: BarField)
    requires 0.0 < bar.Length() && bar.Ig.E != 0.0 && bar.Ig.A != 0.0
    ensures f.Valid()
    ensures f.L == bar.Length() && f.E == bar.Ig.E && f.A == bar.Ig.A && f.q == bar.Qx
    ensures bar.x1 < bar.x2 ==> f.Ux(0.0) == d0 && f.Ux(f.L) == d1
    ensures bar.x2 < bar.x1 ==> f.Ux(0.0) == d1 && f.Ux(f.L) == d0
  {
    var U0 := if bar.x1 < bar.x2 then d0 else d1;
    var UL := if bar.x1 < bar.x2 then d1 else d0;
    var f := BarField(U0, UL, bar.Length(), bar.Ig.E, bar.Ig.A, bar.Qx);
    DisplacementAtEnds(f);
    f
  }

  /**
   * The field functions of a bar joining node i, at x0 with displacement d0,
   * and node i + 1, at x1 with displacement d1, with U0 taken from whichever
   * of the two lies at the lower coordinate, however the bar is stored.
   */
  function PlacedFieldOf(x0: real, x1: real, bar: Bar, d0: real, d1: real): (f: BarField)
    requires 0.0 < bar.Length() && bar.Ig.E != 0.0 && bar.Ig.A != 0.0
    ensures f.Valid()
    ensures f.L == bar.Length() && f.E == bar.Ig.E && f.A == bar.Ig.A && f.q == bar.Qx
    ensures x0 < x1 ==> f.Ux(0.0) == d0 && f.Ux(f.L) == d1
    ensures x1 < x0 ==> f.Ux(0.0) == d1 && f.Ux(f.L) == d0
  {
    var f := if x0 < x1 then BarField(d0, d1, bar.Length(), bar.Ig.E, bar.Ig.A, bar.Qx)
             else BarField(d1, d0, bar.Length(), bar.Ig.E, bar.Ig.A, bar.Qx);
    DisplacementAtEnds(f);
    f
  }

  /** On a bar stored from node i to node i + 1, the program's choice is the placed one. */
  lemma ForwardStorageAgrees(x0: real, x1: real, bar: Bar, d0: real, d1: real)
    requires 0.0 < bar.Length() && bar.Ig.E != 0.0 && bar.Ig.A != 0.0
    requires bar.x1 == x0 && bar.x2 == x1
    ensures FieldOf(bar, d0, d1) == PlacedFieldOf(x0, x1, bar, d0, d1)
  {
  }

  /**
   * On a bar stored from node i + 1 to node i, the program's choice is the
   * placed one with the two displacements exchanged.
   */
  lemma ReverseStorageMirrors(x0: real, x1: real, bar: Bar, d0: real, d1: real)
    requires 0.0 < bar.Length() && bar.Ig.E != 0.0 && bar.Ig.A != 0.0
    requires bar.x1 == x1 && bar.x2 == x0
    ensures FieldOf(bar, d0, d1) == PlacedFieldOf(x0, x1, bar, d1, d0)
  {
  }

  /**
   * As written, describing a bar from its other end (I and J exchanged, its
   * distributed load negated) exchanges the displacements its field
   * functions start and end at.
   */
  lemma ReversalMirrorsFields(form: Form, index: nat, d0: real, d1: real)
    requires BarRefsValid(form, index)
    requires var b := MakeBar(index, form); 0.0 < b.Length() && b.Ig.E != 0.0 && b.Ig.A != 0.0
    ensures BarRefsValid(Flipped(form, index), index)
    ensures FieldOf(MakeBar(index, Flipped(form, index)), d0, d1) == FieldOf(MakeBar(index, form), d1, d0)
  {
    FlippedBar(form, index);
  }

  /**
   * Nodes at 0 and 1 with displacements 0 and 1, and one bar stored from
   * node 1 to node 2 under any distributed load, then described from node 2
   * to node 1: the program's displacement function at the bar's lower end
   * (coordinate 0, where node 1 sits) is then 1, the displacement of node 2,
   * while the placed choice gives 0.
   */
  lemma ReversedBarMisplaced(form: Form)
    requires form.xr == [0.0, 1.0] && form.xs == [Xs(1, 2, 1)] && form.xc == [Xc(1.0, 1.0, 0.0)]
    ensures Flipped(form, 0).xs == [Xs(2, 1, 1)]
    ensures BarRefsValid(Flipped(form, 0), 0) && FieldOf(MakeBar(0, Flipped(form, 0)), 0.0, 1.0).Ux(0.0) == 1.0
    ensures PlacedFieldOf(0.0, 1.0, MakeBar(0, Flipped(form, 0)), 0.0, 1.0).Ux(0.0) == 0.0
  {
  }

  /**
   * With U0 placed by node coordinates, describing a bar from its other end
   * changes none of its field functions.
   */
  lemma ReversalKeepsFields(form: Form, index: nat, x0: real, x1: real, d0: real, d1: real)
    requires BarRefsValid(form, index)
    requires var b := MakeBar(index, form); 0.0 < b.Length() && b.Ig.E != 0.0 && b.Ig.A != 0.0
    ensures BarRefsValid(Flipped(form, index), index)
    ensures var f, g := PlacedFieldOf(x0, x1, MakeBar(index, form), d0, d1),
                        PlacedFieldOf(x0, x1, MakeBar(index, Flipped(form, index)), d0, d1);
      f == g && forall x :: f.Ux(x) == g.Ux(x) && f.Nx(x) == g.Nx(x) && f.Sx(x) == g.Sx(x)
  {
    FlippedBar(form, index);
  }

  /** Builds the field functions of the first |d| - 1 bars, one bar per pass. */
  method Reconstruct(bars: seq<Bar>, d: seq<real>) returns (fields: seq<BarField>)
    requires 1 <= |d| && |d| - 1 <= |bars|
    requires forall i :: 0 <= i < |d| - 1 ==>
      0.0 < bars[i].Length() && bars[i].Ig.E != 0.0 && bars[i].Ig.A != 0.0
    ensures |fields| == |d| - 1
    ensures forall i :: 0 <= i < |fields| ==> fields[i] == FieldOf(bars[i], d[i], d[i + 1])
  {
    fields := [];
    for i := 0 to |d| - 1
      invariant |fields| == i
      invariant forall j :: 0 <= j < i ==> fields[j] == FieldOf(bars[j], d[j], d[j + 1])
    {
      var bar := bars[i];
      var L, E, A, q := bar.Length(), bar.Ig.E, bar.Ig.A, bar.Qx;
      var U0, UL := d[i], d[i + 1];
      if !(bar.x1 < bar.x2) {
        U0, UL := d[i + 1], d[i];
      }
      fields := fields + [BarField(U0, UL, L, E, A, q)];
    }
  }

  /** The rows of a matrix held in an array, as the solver receives them. */
  function Rows(A: array2<real>): (M: seq<seq<real>>)
    reads A
    ensures |M| == A.Length0
    ensures forall r :: 0 <= r < A.Length0 ==>
      |M[r]| == A.Length1 && forall c :: 0 <= c < A.Length1 ==> M[r][c] == A[r, c]
  {
    seq(A.Length0, r requires 0 <= r < A.Length0 reads A =>
      seq(A.Length1, c requires 0 <= c < A.Length1 reads A => A[r, c]))
  }

  /**
   * The whole computation: assemble A and b, solve, and return one set of
   * field functions per bar, or the failure of the solve.
   */
  method ComputeComponents(nodes: seq<Node>, bars: seq<Bar>, lusolve: Solver) returns (result: Result<seq<BarField>>)
    requires Analysable(nodes, bars)
    requires var s := lusolve(StiffnessMatrix(nodes, bars), LoadVector(nodes, bars));
      s.Ok? ==> |s.value| == |nodes|
    ensures var s := lusolve(StiffnessMatrix(nodes, bars), LoadVector(nodes, bars));
      && (s.Err? ==> result == Err(s.message))
      && (s.Ok? ==> (result.Ok? <==> forall j :: 0 <= j < |s.value| ==> s.value[j].Number?))
      && (s.Ok? && result.Err? ==> result.message == "Calculation error")
      && (result.Ok? ==>
            && s.Ok?
            && |result.value| == |bars|
            && (forall i :: 0 <= i < |bars| ==> result.value[i] == FieldOf(bars[i], s.value[i].v, s.value[i + 1].v))
            && (Chain(nodes, bars) ==> forall i :: 0 <= i < |bars| ==>
                  result.value[i] == PlacedFieldOf(nodes[i].x, nodes[i + 1].x, bars[i], s.value[i].v, s.value[i + 1].v)))
  {
    var A := AssembleStiffness(nodes, bars);
    var b := AssembleLoads(nodes, bars);
    var M := Rows(A);
    forall r | 0 <= r < |nodes|
      ensures M[r] == StiffnessMatrix(nodes, bars)[r]
    {
      assert |M[r]| == |StiffnessMatrix(nodes, bars)[r]|;
    }
    assert M == StiffnessMatrix(nodes, bars);
    var solved := lusolve(M, b[..]);
    if solved.Err? {
      return Err(solved.message);
    }
    var d := ToNumbers(solved.value);
    if d.Err? {
      return Err(d.message);
    }
    var fields := Reconstruct(bars, d.value);
    if Chain(nodes, bars) {
      forall i | 0 <= i < |bars|
        ensures fields[i] == PlacedFieldOf(nodes[i].x, nodes[i + 1].x, bars[i], d.value[i], d.value[i + 1])
      {
        ForwardStorageAgrees(nodes[i].x, nodes[i + 1].x, bars[i], d.value[i], d.value[i + 1]);
      }
    }
    return Ok(fields);
  }
}
