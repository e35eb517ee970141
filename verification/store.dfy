/**
 * The input model of a bar-chain analysis: the flat input form (node
 * coordinates, bar connectivity, section classes, supports and loads) and the
 * Node and Bar records built from it.
 */
module Store {

  /** Connectivity of one bar: 1-based start node I, end node J and section class Ig. */
  datatype Xs = Xs(I: int, J: int, Ig: int)

  /** A section class: cross-section area A, elastic modulus E, allowable stress S. */
  datatype Xc = Xc(A: real, E: real, S: real)

  /**
   * A load record: the 1-based index I of the node (concentrated load, Qr,
   * whose magnitude the form calls Fx) or of the bar (distributed load, Qs,
   * magnitude Qx) it acts on, and its magnitude.
   */
  datatype Load = Load(I: int, value: real)

  /** The whole input form. */
  datatype Form = Form(
    xr: seq<real>,   // node coordinates
    xs: seq<Xs>,     // bars
    xc: seq<Xc>,     // section classes
    nb: seq<int>,    // 1-based indices of supported nodes
    qr: seq<Load>,   // concentrated loads
    qs: seq<Load>)   // distributed loads

  // ---------------------------------------------------------------------------
  // Decimal labels: Number.prototype.toString on a positive integer

  predicate IsDigits(s: string) {
    forall i :: 0 <= i < |s| ==> '0' <= s[i] <= '9'
  }

  function Digit(d: nat): (c: char)
    requires d < 10
    ensures '0' <= c <= '9' && c as int - '0' as int == d
  {
    (d + '0' as int) as char
  }

  /** The decimal numeral of `n`, without leading zeros. */
  function DecimalString(n: nat): (s: string)
    ensures 1 <= |s| && IsDigits(s)
    ensures s[0] == '0' ==> n == 0
  {
    if n < 10 then [Digit(n)] else DecimalString(n / 10) + [Digit(n % 10)]
  }

  /** The number a string of decimal digits denotes. */
  function DecimalValue(s: string): nat
    requires IsDigits(s)
  {
    if s == [] then 0
    else DecimalValue(s[..|s| - 1]) * 10 + (s[|s| - 1] as int - '0' as int)
  }

  lemma {:induction false} DecimalRoundTrip(n: nat)
    ensures DecimalValue(DecimalString(n)) == n
  {
    if n >= 10 {
      var s := DecimalString(n / 10);
      DecimalRoundTrip(n / 10);
      assert (s + [Digit(n % 10)])[..|s|] == s;
    }
  }

  // ---------------------------------------------------------------------------
  // Summing the load records that act on one node or bar

  /** The records acting on index `id`, in order: `filter((value) => value.I === id)`. */
  function Filter(loads: seq<Load>, id: int): (r: seq<Load>)
    ensures |r| <= |loads|
    ensures forall j :: 0 <= j < |r| ==> r[j].I == id && r[j] in loads
  {
    if loads == [] then []
    else
      var last := loads[|loads| - 1];
      Filter(loads[..|loads| - 1], id) + (if last.I == id then [last] else [])
  }

  /** `filter` keeps every record acting on `id`, as often as it occurs, and no other. */
  lemma {:induction false} FilterKeepsMatches(loads: seq<Load>, id: int)
    ensures forall l :: multiset(Filter(loads, id))[l] == if l.I == id then multiset(loads)[l] else 0
  {
    if loads != [] {
      var init, last := loads[..|loads| - 1], loads[|loads| - 1];
      assert loads == init + [last];
      FilterKeepsMatches(init, id);
    }
  }

  /** Left-to-right sum of the magnitudes starting from 0: `reduce((sum, value) => sum + value, 0)`. */
  function Reduce(loads: seq<Load>): real {
    if loads == [] then 0.0 else Reduce(loads[..|loads| - 1]) + loads[|loads| - 1].value
  }

  /** Total magnitude of the records acting on index `id`. */
  function LoadAt(loads: seq<Load>, id: int): real {
    Reduce(Filter(loads, id))
  }

  /** The contribution of one record to index `id`. */
  function Share(l: Load, id: int): real {
    if l.I == id then l.value else 0.0
  }

  /** Reference definition: every record contributes its magnitude if it acts on `id` and nothing otherwise. */
  function MaskedSum(loads: seq<Load>, id: int): real {
    if loads == [] then 0.0 else Share(loads[0], id) + MaskedSum(loads[1..], id)
  }

  /** Appending one record changes the total at `id` by its magnitude if it acts on `id`, and not at all otherwise. */
  lemma LoadAtAppend(loads: seq<Load>, l: Load, id: int)
    ensures LoadAt(loads + [l], id) == LoadAt(loads, id) + Share(l, id)
  {
    assert (loads + [l])[..|loads|] == loads;
    var f := Filter(loads, id);
    if l.I == id {
      assert Filter(loads + [l], id) == f + [l];
      assert (f + [l])[..|f|] == f;
    } else {
      assert Filter(loads + [l], id) == f + [];
      assert f + [] == f;
    }
  }

  lemma {:induction false} MaskedSumAppend(loads: seq<Load>, l: Load, id: int)
    ensures MaskedSum(loads + [l], id) == MaskedSum(loads, id) + Share(l, id)
  {
    if loads != [] {
      assert (loads + [l])[1..] == loads[1..] + [l];
      MaskedSumAppend(loads[1..], l, id);
    }
  }

  /** The filtered sum equals the reference sum: exactly the records acting on `id` count, each once. */
  lemma {:induction false} LoadAtIsMaskedSum(loads: seq<Load>, id: int)
    ensures LoadAt(loads, id) == MaskedSum(loads, id)
  {
    if loads != [] {
      var init, l := loads[..|loads| - 1], loads[|loads| - 1];
      assert loads == init + [l];
      LoadAtIsMaskedSum(init, id);
      LoadAtAppend(init, l, id);
      MaskedSumAppend(init, l, id);
    }
  }

  /** With no record acting on `id`, the total there is 0. */
  lemma {:induction false} LoadAtNone(loads: seq<Load>, id: int)
    requires forall j :: 0 <= j < |loads| ==> loads[j].I != id
    ensures LoadAt(loads, id) == 0.0
  {
    if loads != [] {
      var init := loads[..|loads| - 1];
      LoadAtNone(init, id);
      assert loads == init + [loads[|loads| - 1]];
      LoadAtAppend(init, loads[|loads| - 1], id);
    }
  }

  /** The records with the magnitude of every one acting on index `id` negated. */
  function NegatedAt(loads: seq<Load>, id: int): (r: seq<Load>)
    ensures |r| == |loads|
  {
    if loads == [] then []
    else [if loads[0].I == id then Load(id, -loads[0].value) else loads[0]] + NegatedAt(loads[1..], id)
  }

  lemma {:induction false} MaskedSumNegated(loads: seq<Load>, id: int)
    ensures MaskedSum(NegatedAt(loads, id), id) == -MaskedSum(loads, id)
  {
    if loads != [] {
      assert NegatedAt(loads, id)[1..] == NegatedAt(loads[1..], id);
      MaskedSumNegated(loads[1..], id);
    }
  }

  /** Negating the records acting on `id` negates the total there. */
  lemma LoadAtNegated(loads: seq<Load>, id: int)
    ensures LoadAt(NegatedAt(loads, id), id) == -LoadAt(loads, id)
  {
    LoadAtIsMaskedSum(loads, id);
    LoadAtIsMaskedSum(NegatedAt(loads, id), id);
    MaskedSumNegated(loads, id);
  }

  // ---------------------------------------------------------------------------
  // Nodes

  datatype Node = Node(name: string, x: real, Fx: real, Nb: bool)

  /** Node number `index` (0-based) of the form. */
  function MakeNode(index: nat, form: Form): (n: Node)
    requires index < |form.xr|
    ensures IsDigits(n.name) && DecimalValue(n.name) == index + 1
    ensures n.x == form.xr[index]
    ensures n.Fx == LoadAt(form.qr, index + 1)
    ensures n.Nb <==> exists j :: 0 <= j < |form.nb| && form.nb[j] == index + 1
  {
    DecimalRoundTrip(index + 1);
    Node(DecimalString(index + 1), form.xr[index], LoadAt(form.qr, index + 1), index + 1 in form.nb)
  }

  // ---------------------------------------------------------------------------
  // Bars

  function Abs(x: real): real {
    if x < 0.0 then -x else x
  }

  datatype Bar = Bar(name: string, x1: real, x2: real, Ig: Xc, Qx: real) {

    /** The lower coordinate of the two ends. */
    function Start(): (s: real)
      ensures s <= x1 && s <= x2 && (s == x1 || s == x2)
    {
      if x1 <= x2 then x1 else x2
    }

    /** The higher coordinate of the two ends. */
    function End(): (e: real)
      ensures x1 <= e && x2 <= e && (e == x1 || e == x2)
    {
      if x1 <= x2 then x2 else x1
    }

    /** The distance between the ends. */
    function Length(): (l: real)
      ensures 0.0 <= l && l == End() - Start()
    {
      Abs(x1 - x2)
    }
  }

  /** All 1-based references of bar `index` are in range. */
  predicate BarRefsValid(form: Form, index: nat) {
    index < |form.xs| &&
    1 <= form.xs[index].I <= |form.xr| &&
    1 <= form.xs[index].J <= |form.xr| &&
    1 <= form.xs[index].Ig <= |form.xc|
  }

  /** Bar number `index` (0-based) of the form. */
  function MakeBar(index: nat, form: Form): (b: Bar)
    requires BarRefsValid(form, index)
    ensures IsDigits(b.name) && DecimalValue(b.name) == index + 1
    ensures b.x1 == form.xr[form.xs[index].I - 1] && b.x2 == form.xr[form.xs[index].J - 1]
    ensures b.Ig == form.xc[form.xs[index].Ig - 1]
    ensures b.Qx == if b.x1 > b.x2 then -LoadAt(form.qs, index + 1) else LoadAt(form.qs, index + 1)
  {
    var item := form.xs[index];
    var x1, x2 := form.xr[item.I - 1], form.xr[item.J - 1];
    var Qx := LoadAt(form.qs, index + 1);
    DecimalRoundTrip(index + 1);
    Bar(DecimalString(index + 1), x1, x2, form.xc[item.Ig - 1], if x1 > x2 then -Qx else Qx)
  }

  /** Swapping the two end coordinates leaves length, start and end unchanged. */
  lemma BarSwapInvariant(b: Bar)
    ensures var s := b.(x1 := b.x2, x2 := b.x1);
      s.Length() == b.Length() && s.Start() == b.Start() && s.End() == b.End()
  {
  }

  /** The form with bar `index` indexed the other way round (I and J exchanged). */
  function Reversed(form: Form, index: nat): (f: Form)
    requires index < |form.xs|
  {
    var item := form.xs[index];
    form.(xs := form.xs[index := Xs(item.J, item.I, item.Ig)])
  }

  /**
   * Indexing a bar the other way round keeps its geometry and, for a bar of
   * non-zero length, flips the sign of its stored distributed load: the load
   * keeps its direction along the ascending axis.
   */
  lemma ReversedBar(form: Form, index: nat)
    requires BarRefsValid(form, index)
    ensures BarRefsValid(Reversed(form, index), index)
    ensures var b, r := MakeBar(index, form), MakeBar(index, Reversed(form, index));
      r.x1 == b.x2 && r.x2 == b.x1 && r.Ig == b.Ig &&
      r.Length() == b.Length() && r.Start() == b.Start() && r.End() == b.End() &&
      (b.Length() > 0.0 ==> r.Qx == -b.Qx)
  {
  }

  /**
   * The same bar described from its other end: I and J exchanged and its
   * distributed load records negated.
   */
  function Flipped(form: Form, index: nat): (f: Form)
    requires index < |form.xs|
  {
    Reversed(form, index).(qs := NegatedAt(form.qs, index + 1))
  }

  /**
   * Describing a bar from its other end exchanges its end coordinates and
   * keeps its section, its geometry and, for a bar of non-zero length, its
   * normalised distributed load `Qx`.
   */
  lemma FlippedBar(form: Form, index: nat)
    requires BarRefsValid(form, index)
    ensures BarRefsValid(Flipped(form, index), index)
    ensures var b, r := MakeBar(index, form), MakeBar(index, Flipped(form, index));
      r.x1 == b.x2 && r.x2 == b.x1 && r.Ig == b.Ig &&
      r.Length() == b.Length() && r.Start() == b.Start() && r.End() == b.End() &&
      (b.Length() > 0.0 ==> r.Qx == b.Qx)
  {
    var g := Flipped(form, index);
    var item := form.xs[index];
    assert g.xs[index] == Xs(item.J, item.I, item.Ig) && g.xr == form.xr && g.xc == form.xc;
    var b, r := MakeBar(index, form), MakeBar(index, g);
    var Q := LoadAt(form.qs, index + 1);
    LoadAtNegated(form.qs, index + 1);
    assert LoadAt(g.qs, index + 1) == -Q;
    assert r.x1 == b.x2 && r.x2 == b.x1;
    BarSwapInvariant(b);
  }
}
