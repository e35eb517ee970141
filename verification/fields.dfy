/**
 * The closed-form fields of one bar after the solve: axial displacement
 * Ux, axial force Nx and normal stress Sx as functions of the local
 * coordinate x, measured from the bar's lower-position end.
 */
module Fields {

  /**
   * The values one bar's three functions capture: end displacements U0 (at
   * local x = 0) and UL (at x = L), length L, modulus E, area A and
   * distributed load q.
   */
  datatype BarField = BarField(U0: real, UL: real, L: real, E: real, A: real, q: real) {

    /** The divisions in the formulas are defined. */
    predicate Valid() {
      L != 0.0 && E != 0.0 && A != 0.0
    }

    /** Axial displacement. */
    function Ux(x: real): real
      requires Valid()
    {
      U0 + (x / L) * (UL - U0) + ((q * L * x) / (2.0 * E * A)) * (1.0 - x / L)
    }

    /** Axial force. */
    function Nx(x: real): real
      requires Valid()
    {
      ((E * A) / L) * (UL - U0) + ((q * L) / 2.0) * (1.0 - (2.0 * x) / L)
    }

    /** Normal stress. */
    function Sx(x: real): real
      requires Valid()
    {
      Nx(x) / A
    }
  }

  /** The displacement function takes the two end displacements at the two ends. */
  lemma DisplacementAtEnds(f: BarField)
    requires f.Valid()
    ensures f.Ux(0.0) == f.U0 && f.Ux(f.L) == f.UL
  {
    assert f.L / f.L == 1.0;
  }

  /**
   * Equilibrium of a piece of the bar: the force drops by the distributed
   * load it carries, Nx(x) - Nx(y) == q·(y - x).
   */
  lemma ForceBalance(f: BarField, x: real, y: real)
    requires f.Valid()
    ensures f.Nx(x) - f.Nx(y) == f.q * (y - x)
  {
    var h := f.q * f.L / 2.0;
    assert h * ((2.0 * y) / f.L) == f.q * y && h * ((2.0 * x) / f.L) == f.q * x by {
      assert (f.L / 2.0) * ((2.0 * y) / f.L) == y;
      assert (f.L / 2.0) * ((2.0 * x) / f.L) == x;
    }
  }

  /** Between the two ends the force drops by the whole load q·L. */
  lemma ForceDropOverBar(f: BarField)
    requires f.Valid()
    ensures f.Nx(0.0) - f.Nx(f.L) == f.q * f.L
  {
    ForceBalance(f, 0.0, f.L);
  }

  /** The force at the two ends: the stiffness term E·A/L·(UL - U0), plus or minus half the load q·L. */
  lemma ForceAtEnds(f: BarField)
    requires f.Valid()
    ensures f.Nx(0.0) == ((f.E * f.A) / f.L) * (f.UL - f.U0) + (f.q * f.L) / 2.0
    ensures f.Nx(f.L) == ((f.E * f.A) / f.L) * (f.UL - f.U0) - (f.q * f.L) / 2.0
  {
    assert (2.0 * f.L) / f.L == 2.0;
  }

  /** Without distributed load the force is the same at every x. */
  lemma ForceConstantWithoutLoad(f: BarField, x: real, y: real)
    requires f.Valid() && f.q == 0.0
    ensures f.Nx(x) == f.Nx(y)
  {
    ForceBalance(f, x, y);
  }

  /** The stress is the force per unit area. */
  lemma StressIsForcePerArea(f: BarField, x: real)
    requires f.Valid()
    ensures f.Sx(x) * f.A == f.Nx(x)
  {
  }

  /** The slope of the straight part of Ux: (UL - U0) / L. */
  function Slope(f: BarField): real
    requires f.Valid()
  {
    (f.UL - f.U0) / f.L
  }

  /** The coefficient of the load-induced bow of Ux: q·L / (2·E·A). */
  function Bow(f: BarField): real
    requires f.Valid()
  {
    (f.q * f.L) / (2.0 * f.E * f.A)
  }

  /** Ux as a polynomial in t. */
  lemma DisplacementPolynomial(f: BarField, t: real)
    requires f.Valid()
    ensures f.Ux(t) == f.U0 + (Slope(f) + Bow(f)) * t - (Bow(f) / f.L) * (t * t)
  {
    DisplacementDefinition(f, t);
    DisplacementExpanded(f, t);
  }

  lemma DisplacementDefinition(f: BarField, t: real)
    requires f.Valid()
    ensures f.Ux(t) == f.U0 + (t / f.L) * (f.UL - f.U0) + ((f.q * f.L * t) / (2.0 * f.E * f.A)) * (1.0 - t / f.L)
  {
  }

  lemma DisplacementExpanded(f: BarField, t: real)
    requires f.Valid()
    ensures f.U0 + (t / f.L) * (f.UL - f.U0) + ((f.q * f.L * t) / (2.0 * f.E * f.A)) * (1.0 - t / f.L)
         == f.U0 + (Slope(f) + Bow(f)) * t - (Bow(f) / f.L) * (t * t)
  {
    ExpandDisplacement(f.U0, f.UL, f.L, f.E, f.A, f.q, t, Slope(f), Bow(f));
  }

  /** The expansion behind DisplacementPolynomial, on plain numbers. */
  lemma ExpandDisplacement(U0: real, UL: real, L: real, E: real, A: real, q: real, t: real, s: real, c: real)
    requires L != 0.0 && E != 0.0 && A != 0.0
    requires s == (UL - U0) / L && c == (q * L) / (2.0 * E * A)
    ensures U0 + (t / L) * (UL - U0) + ((q * L * t) / (2.0 * E * A)) * (1.0 - t / L)
         == U0 + (s + c) * t - (c / L) * (t * t)
  {
    assert (t / L) * (UL - U0) == s * t;
    assert (q * L * t) / (2.0 * E * A) == c * t;
    assert (c * t) * (1.0 - t / L) == c * t - (c / L) * (t * t);
    assert (s + c) * t == s * t + c * t;
  }

  /** Nx as a polynomial in t: E·A times the derivative of Ux. */
  lemma ForcePolynomial(f: BarField, t: real)
    requires f.Valid()
    ensures f.Nx(t) == (f.E * f.A) * ((Slope(f) + Bow(f)) - 2.0 * (Bow(f) / f.L) * t)
  {
    ForceDefinition(f, t);
    ForceExpanded(f, t);
  }

  lemma ForceDefinition(f: BarField, t: real)
    requires f.Valid()
    ensures f.Nx(t) == ((f.E * f.A) / f.L) * (f.UL - f.U0) + ((f.q * f.L) / 2.0) * (1.0 - (2.0 * t) / f.L)
  {
  }

  lemma ForceExpanded(f: BarField, t: real)
    requires f.Valid()
    ensures ((f.E * f.A) / f.L) * (f.UL - f.U0) + ((f.q * f.L) / 2.0) * (1.0 - (2.0 * t) / f.L)
         == (f.E * f.A) * ((Slope(f) + Bow(f)) - 2.0 * (Bow(f) / f.L) * t)
  {
    ExpandForce(f.U0, f.UL, f.L, f.E, f.A, f.q, t, Slope(f), Bow(f));
  }

  /** The expansion behind ForcePolynomial, on plain numbers. */
  lemma ExpandForce(U0: real, UL: real, L: real, E: real, A: real, q: real, t: real, s: real, c: real)
    requires L != 0.0 && E != 0.0 && A != 0.0
    requires s == (UL - U0) / L && c == (q * L) / (2.0 * E * A)
    ensures ((E * A) / L) * (UL - U0) + ((q * L) / 2.0) * (1.0 - (2.0 * t) / L)
         == (E * A) * ((s + c) - 2.0 * (c / L) * t)
  {
    var EA := E * A;
    assert EA != 0.0;
    assert (EA / L) * (UL - U0) == EA * s;
    assert EA * c == (q * L) / 2.0;
    assert ((q * L) / 2.0) * ((2.0 * t) / L) == q * t;
    assert EA * (2.0 * (c / L) * t) == q * t;
    assert EA * ((s + c) - 2.0 * (c / L) * t) == EA * s + EA * c - EA * (2.0 * (c / L) * t);
  }

  /** v is the value at t of the quadratic u0 + s·t - k·t². */
  predicate OnQuadratic(v: real, u0: real, s: real, k: real, t: real) {
    v == u0 + s * t - k * (t * t)
  }

  /** n is the value at t of EA times the derivative s - 2·k·t of that quadratic. */
  predicate OnDerivative(n: real, EA: real, s: real, k: real, t: real) {
    n == EA * (s - 2.0 * k * t)
  }

  lemma UxOnQuadratic(f: BarField, t: real)
    requires f.Valid()
    ensures OnQuadratic(f.Ux(t), f.U0, Slope(f) + Bow(f), Bow(f) / f.L, t)
  {
    DisplacementPolynomial(f, t);
  }

  lemma NxOnDerivative(f: BarField, t: real)
    requires f.Valid()
    ensures OnDerivative(f.Nx(t), f.E * f.A, Slope(f) + Bow(f), Bow(f) / f.L, t)
  {
    ForcePolynomial(f, t);
  }

  /**
   * Nx is E·A times the slope of Ux. Ux is quadratic and Nx linear, so the
   * change of Ux between any two points is exactly the mean of Nx at them,
   * times their distance, over E·A.
   */
  lemma ForceIsStiffnessTimesStrain(f: BarField, x: real, y: real)
    requires f.Valid()
    ensures (f.Ux(y) - f.Ux(x)) * (2.0 * f.E * f.A) == (y - x) * (f.Nx(x) + f.Nx(y))
  {
    FieldSecant(f, x, y);
  }

  /** The secant rule between two values ux, uy of a displacement and two values nx, ny of a force. */
  predicate SecantHolds(ux: real, uy: real, nx: real, ny: real, E: real, A: real, x: real, y: real) {
    (uy - ux) * (2.0 * E * A) == (y - x) * (nx + ny)
  }

  lemma FieldSecant(f: BarField, x: real, y: real)
    requires f.Valid()
    ensures SecantHolds(f.Ux(x), f.Ux(y), f.Nx(x), f.Nx(y), f.E, f.A, x, y)
  {
    UxOnQuadratic(f, x);
    UxOnQuadratic(f, y);
    NxOnDerivative(f, x);
    NxOnDerivative(f, y);
    Secant(f.U0, Slope(f) + Bow(f), Bow(f) / f.L, f.E, f.A, x, y, f.Ux(x), f.Ux(y), f.Nx(x), f.Nx(y));
  }

  /** The secant rule is exact for a quadratic u and the linear n = EA·u'. */
  lemma Secant(u0: real, s: real, k: real, E: real, A: real, x: real, y: real, ux: real, uy: real, nx: real, ny: real)
    requires OnQuadratic(ux, u0, s, k, x) && OnQuadratic(uy, u0, s, k, y)
    requires OnDerivative(nx, E * A, s, k, x) && OnDerivative(ny, E * A, s, k, y)
    ensures SecantHolds(ux, uy, nx, ny, E, A, x, y)
  {
    var m, EA := s - k * (x + y), E * A;
    assert (u0 + s * y - k * (y * y)) - (u0 + s * x - k * (x * x)) == (y - x) * m;
    assert EA * (s - 2.0 * k * x) + EA * (s - 2.0 * k * y) == 2.0 * EA * m;
    assert 2.0 * E * A == 2.0 * EA;
  }

  /**
   * Ux solves E·A·u'' = -q: its second difference over any spacing h is
   * exactly -q·h²/(E·A).
   */
  lemma DisplacementSolvesBarEquation(f: BarField, x: real, h: real)
    requires f.Valid()
    ensures (f.Ux(x + h) - 2.0 * f.Ux(x) + f.Ux(x - h)) * (f.E * f.A) == -f.q * h * h
  {
    FieldBarEquation(f, x, h);
  }

  /** E·A times the second difference of three values after, at, before equals -q·h². */
  predicate BarEquationHolds(after: real, at: real, before: real, EA: real, q: real, h: real) {
    (after - 2.0 * at + before) * EA == -q * h * h
  }

  lemma FieldBarEquation(f: BarField, x: real, h: real)
    requires f.Valid()
    ensures BarEquationHolds(f.Ux(x + h), f.Ux(x), f.Ux(x - h), f.E * f.A, f.q, h)
  {
    DisplacementSecondDifference(f, x, h);
    BowTimesStiffness(f);
    ScaleSecondDifference(f.Ux(x + h), f.Ux(x), f.Ux(x - h), Bow(f) / f.L, f.E * f.A, f.q, h);
  }

  /** The second difference of Ux, in terms of the bow coefficient. */
  lemma DisplacementSecondDifference(f: BarField, x: real, h: real)
    requires f.Valid()
    ensures SecondDifferenceIs(f.Ux(x + h), f.Ux(x), f.Ux(x - h), Bow(f) / f.L, h)
  {
    UxOnQuadratic(f, x + h);
    UxOnQuadratic(f, x);
    UxOnQuadratic(f, x - h);
    SecondDifference(f.U0, Slope(f) + Bow(f), Bow(f) / f.L, x, h, f.Ux(x - h), f.Ux(x), f.Ux(x + h));
  }

  /** after, at, before are three values of a quadratic with leading coefficient -k, spaced h apart. */
  predicate SecondDifferenceIs(after: real, at: real, before: real, k: real, h: real) {
    after - 2.0 * at + before == -k * (2.0 * (h * h))
  }

  /** k times E·A is half the distributed load q. */
  predicate HalfLoad(k: real, EA: real, q: real) {
    k * EA == q / 2.0
  }

  /** The bow coefficient over L, times E·A, is half the distributed load. */
  lemma BowTimesStiffness(f: BarField)
    requires f.Valid()
    ensures HalfLoad(Bow(f) / f.L, f.E * f.A, f.q)
  {
    BowStiffness(Bow(f), f.L, f.E, f.A, f.q);
  }

  lemma BowStiffness(c: real, L: real, E: real, A: real, q: real)
    requires L != 0.0 && E != 0.0 && A != 0.0 && c == (q * L) / (2.0 * E * A)
    ensures HalfLoad(c / L, E * A, q)
  {
    assert c * (2.0 * E * A) == q * L;
  }

  lemma ScaleSecondDifference(after: real, at: real, before: real, k: real, EA: real, q: real, h: real)
    requires SecondDifferenceIs(after, at, before, k, h) && HalfLoad(k, EA, q)
    ensures BarEquationHolds(after, at, before, EA, q, h)
  {
    assert (after - 2.0 * at + before) * EA == -(k * EA) * (2.0 * (h * h));
  }

  /** The second difference of a quadratic u0 + s·t - k·t² is -2·k·h². */
  lemma SecondDifference(u0: real, s: real, k: real, x: real, h: real, before: real, at: real, after: real)
    requires OnQuadratic(before, u0, s, k, x - h) && OnQuadratic(at, u0, s, k, x) && OnQuadratic(after, u0, s, k, x + h)
    ensures SecondDifferenceIs(after, at, before, k, h)
  {
    assert (x + h) * (x + h) - 2.0 * (x * x) + (x - h) * (x - h) == 2.0 * (h * h);
  }
}
