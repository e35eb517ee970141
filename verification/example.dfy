/**
 * A worked chain: three nodes, two equal bars, the first node supported and
 * a concentrated load at the last one. Its one solution stretches both bars
 * equally and leaves a constant force of 10 in each.
 */
module Example {
  import opened Store
  import opened Fields
  import opened Assembly
  import opened Processor
  import opened Statics

  /**
   * Three nodes at 0, 1 and 2, two bars with E = 200 and A = 1 and no
   * distributed load, node 1 supported and a concentrated load of 10 at node 3.
   */
  function ExampleForm(): Form {
    Form([0.0, 1.0, 2.0], [Xs(1, 2, 1), Xs(2, 3, 1)], [Xc(1.0, 200.0, 0.0)], [1], [Load(3, 10.0)], [])
  }

  /** The records the worked form describes, field by field. */
  predicate IsExample(nodes: seq<Node>, bars: seq<Bar>) {
    |nodes| == 3 && |bars| == 2 &&
    nodes[0].x == 0.0 && nodes[1].x == 1.0 && nodes[2].x == 2.0 &&
    nodes[0].Fx == 0.0 && nodes[1].Fx == 0.0 && nodes[2].Fx == 10.0 &&
    nodes[0].Nb && !nodes[1].Nb && !nodes[2].Nb &&
    bars[0].x1 == 0.0 && bars[0].x2 == 1.0 && bars[1].x1 == 1.0 && bars[1].x2 == 2.0 &&
    bars[0].Ig == Xc(1.0, 200.0, 0.0) && bars[1].Ig == Xc(1.0, 200.0, 0.0) &&
    bars[0].Qx == 0.0 && bars[1].Qx == 0.0
  }

  /** The worked form builds such records. */
  lemma ExampleBuilt()
    ensures IsExample([MakeNode(0, ExampleForm()), MakeNode(1, ExampleForm()), MakeNode(2, ExampleForm())],
                      [MakeBar(0, ExampleForm()), MakeBar(1, ExampleForm())])
  {
    ExampleNode(0);
    ExampleNode(1);
    ExampleNode(2);
    ExampleBar(0);
    ExampleBar(1);
  }

  /** Node k + 1 of the worked form: at k, supported only for k = 0, loaded only for k = 2. */
  lemma ExampleNode(k: nat)
    requires k < 3
    ensures var n := MakeNode(k, ExampleForm());
      n.x == k as real && n.Fx == (if k == 2 then 10.0 else 0.0) && (n.Nb <==> k == 0)
  {
    ExampleLoads();
    assert ExampleForm().nb[0] == 1;
  }

  /** Bar k + 1 of the worked form: from k to k + 1, E = 200, A = 1, no distributed load. */
  lemma ExampleBar(k: nat)
    requires k < 2
    ensures var b := MakeBar(k, ExampleForm());
      b.x1 == k as real && b.x2 == k as real + 1.0 && b.Ig == Xc(1.0, 200.0, 0.0) && b.Qx == 0.0
  {
    ExampleLoads();
  }

  lemma ExampleLoads()
    ensures LoadAt(ExampleForm().qr, 1) == 0.0 && LoadAt(ExampleForm().qr, 2) == 0.0 && LoadAt(ExampleForm().qr, 3) == 10.0
    ensures LoadAt(ExampleForm().qs, 1) == 0.0 && LoadAt(ExampleForm().qs, 2) == 0.0
  {
    var qr := ExampleForm().qr;
    assert Filter(qr, 3) == [Load(3, 10.0)] by {
      assert qr[..0] == [];
    }
    LoadAtNone(qr, 1);
    LoadAtNone(qr, 2);
  }

  /** Both bars have length 1, stiffness 200 and no distributed load. */
  lemma ExampleBars(nodes: seq<Node>, bars: seq<Bar>)
    requires IsExample(nodes, bars)
    ensures Analysable(nodes, bars) && Chain(nodes, bars) && Joins(nodes, bars) && Ascending(nodes)
    ensures Stiffness(bars[0]) == 200.0 && Stiffness(bars[1]) == 200.0
    ensures EquivalentLoad(bars[0]) == 0.0 && EquivalentLoad(bars[1]) == 0.0
  {
    assert bars[0].Length() == 1.0;
    assert bars[1].Length() == 1.0;
  }

  /** Rows 2 and 3 of A·d, for any d that keeps node 1 in place. */
  lemma ExampleFreeRow(nodes: seq<Node>, bars: seq<Bar>, d: seq<real>, r: int)
    requires IsExample(nodes, bars) && Analysable(nodes, bars)
    requires |d| == 3 && d[0] == 0.0 && 1 <= r < 3
    ensures Contribution(nodes, bars, r, r - 1, d) + Contribution(nodes, bars, r, r, d) + Contribution(nodes, bars, r, r + 1, d)
      == if r == 1 then 400.0 * d[1] - 200.0 * d[2] else 200.0 * d[2] - 200.0 * d[1]
    ensures LoadVector(nodes, bars)[r] == if r == 1 then 0.0 else 10.0
  {
    ExampleBars(nodes, bars);
    FreeRowEntries(nodes, bars, d, r);
    assert LoadVector(nodes, bars)[r] == LumpedLoad(nodes, bars, r);
    ThreeTerms(LeftStiffness(nodes, bars, r), RightStiffness(nodes, bars, r), Before(d, r), d[r], After(d, r),
      Contribution(nodes, bars, r, r - 1, d), Contribution(nodes, bars, r, r, d), Contribution(nodes, bars, r, r + 1, d));
  }

  /** Evaluates a free row once the stiffness of both bars is known. */
  lemma ThreeTerms(kl: real, kr: real, dl: real, di: real, dr: real, cl: real, ci: real, cr: real)
    requires cl == -(kl * dl) && ci == (kl + kr) * di && cr == -(kr * dr)
    ensures kl == 200.0 && kr == 200.0 && dl == 0.0 ==> cl + ci + cr == 400.0 * di - 200.0 * dr
    ensures kl == 200.0 && kr == 0.0 ==> cl + ci + cr == 200.0 * di - 200.0 * dl
  {
  }

  /** d = [0, 0.05, 0.1] solves the worked chain. */
  lemma ExampleSolves(nodes: seq<Node>, bars: seq<Bar>)
    requires IsExample(nodes, bars)
    ensures Analysable(nodes, bars)
    ensures Solves(nodes, bars, [0.0, 0.05, 0.1])
  {
    ExampleBars(nodes, bars);
    var d := [0.0, 0.05, 0.1];
    forall r | 0 <= r < 3
      ensures Dot(StiffnessMatrix(nodes, bars)[r], d) == LoadVector(nodes, bars)[r]
    {
      RowProduct(nodes, bars, r, d);
      if r == 0 {
        assert Contribution(nodes, bars, 0, 0, d) == 0.0;
        assert Contribution(nodes, bars, 0, 1, d) == 0.0;
      } else {
        ExampleFreeRow(nodes, bars, d, r);
      }
    }
  }

  /** No other displacements solve it. */
  lemma ExampleUnique(nodes: seq<Node>, bars: seq<Bar>, d: seq<real>)
    requires IsExample(nodes, bars) && Analysable(nodes, bars) && Solves(nodes, bars, d)
    ensures d == [0.0, 0.05, 0.1]
  {
    SupportedNodeFixed(nodes, bars, d, 0);
    RowProduct(nodes, bars, 1, d);
    RowProduct(nodes, bars, 2, d);
    assert Dot(StiffnessMatrix(nodes, bars)[1], d) == LoadVector(nodes, bars)[1];
    assert Dot(StiffnessMatrix(nodes, bars)[2], d) == LoadVector(nodes, bars)[2];
    ExampleFreeRow(nodes, bars, d, 1);
    ExampleFreeRow(nodes, bars, d, 2);
    assert d == [d[0], d[1], d[2]];
  }

  /** Bar i + 1 of the worked chain, under the worked solution. */
  lemma ExampleField(nodes: seq<Node>, bars: seq<Bar>, d: seq<real>, i: int)
    requires IsExample(nodes, bars) && d == [0.0, 0.05, 0.1] && 0 <= i < 2
    ensures Analysable(nodes, bars)
    ensures forall x :: BarFieldOf(nodes, bars, d, i).Nx(x) == 10.0 && BarFieldOf(nodes, bars, d, i).Sx(x) == 10.0
  {
    ExampleBars(nodes, bars);
    assert nodes[i].x < nodes[i + 1].x;
    assert bars[i].Length() == 1.0;
    var f := BarFieldOf(nodes, bars, d, i);
    assert f == BarField(d[i], d[i + 1], 1.0, 200.0, 1.0, 0.0);
    assert d[i + 1] - d[i] == 0.05;
    forall x
      ensures f.Nx(x) == 10.0 && f.Sx(x) == 10.0
    {
      StretchedBar(d[i], d[i + 1], x);
    }
  }

  /** A unit bar with E·A = 200, no distributed load and elongation 0.05 carries a force and a stress of 10. */
  lemma StretchedBar(U0: real, UL: real, x: real)
    requires UL - U0 == 0.05
    ensures BarField(U0, UL, 1.0, 200.0, 1.0, 0.0).Nx(x) == 10.0
    ensures BarField(U0, UL, 1.0, 200.0, 1.0, 0.0).Sx(x) == 10.0
  {
  }

  /**
   * The worked chain is an ascending, analysable chain whose one solution is
   * d = [0, 0.05, 0.1]; both bars then carry a constant force of 10 and a
   * constant stress of 10.
   */
  lemma ExampleSolution(nodes: seq<Node>, bars: seq<Bar>, d: seq<real>)
    requires IsExample(nodes, bars)
    ensures Analysable(nodes, bars) && Chain(nodes, bars) && Joins(nodes, bars) && Ascending(nodes)
    ensures Solves(nodes, bars, d) <==> d == [0.0, 0.05, 0.1]
    ensures d == [0.0, 0.05, 0.1] ==> forall i, x :: 0 <= i < 2 ==>
      BarFieldOf(nodes, bars, d, i).Nx(x) == 10.0 && BarFieldOf(nodes, bars, d, i).Sx(x) == 10.0
  {
    ExampleBars(nodes, bars);
    ExampleSolves(nodes, bars);
    if Solves(nodes, bars, d) {
      ExampleUnique(nodes, bars, d);
    }
    if d == [0.0, 0.05, 0.1] {
      ExampleField(nodes, bars, d, 0);
      ExampleField(nodes, bars, d, 1);
    }
  }
}
