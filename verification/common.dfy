/**
 * The sampling helper `range(start, end, step)`: an arithmetic progression
 * built with `Array.from({ length }, (_, i) => i * step + start)`.
 */
module Common {

  /** Truncation toward zero (ToIntegerOrInfinity on a finite value). */
  function Truncate(x: real): (n: int)
    ensures if 0.0 <= x then n as real <= x < n as real + 1.0 else n as real - 1.0 < x <= n as real
  {
    if 0.0 <= x then x.Floor else -((-x).Floor)
  }

  /** The length `Array.from` takes from a finite number: truncated, and 0 when negative (ToLength). */
  function ToLength(x: real): (n: nat)
    ensures x < 1.0 ==> n == 0
    ensures 1.0 <= x ==> n as real <= x < n as real + 1.0
  {
    var t := Truncate(x);
    if t < 0 then 0 else t
  }

  /** The value the progression starts from: `start`, or `end` when the step is negative (the two are swapped). */
  function First(start: real, end: real, step: real): real {
    if step < 0.0 then end else start
  }

  /** The value the progression runs towards: `end`, or `start` when the step is negative. */
  function Last(start: real, end: real, step: real): real {
    if step < 0.0 then start else end
  }

  function Range(start: real := 0.0, end: real := 0.0, step: real := 1.0): (r: seq<real>)
    ensures step == 0.0 ==> r == [start]
    ensures step != 0.0 ==>
      |r| == ToLength((Last(start, end, step) - First(start, end, step) + step) / step)
    ensures step != 0.0 ==>
      forall i :: 0 <= i < |r| ==> r[i] == i as real * step + First(start, end, step)
  {
    if step == 0.0 then [start]
    else
      var s, e := First(start, end, step), Last(start, end, step);
      seq(ToLength((e - s + step) / step), i => i as real * step + s)
  }

  /**
   * With a positive step and `start <= end`, the samples start at `start`,
   * increase strictly, never pass `end`, and the last one lies within one step
   * of `end`: they cover the interval.
   */
  lemma RangeAscending(start: real, end: real, step: real)
    requires 0.0 < step && start <= end
    ensures var r := Range(start, end, step);
      1 <= |r| && r[0] == start &&
      (forall i, j :: 0 <= i < j < |r| ==> r[i] < r[j]) &&
      (forall i :: 0 <= i < |r| ==> r[i] <= end) &&
      end - step < r[|r| - 1]
  {
    RangeIncreases(start, end, step);
    RangeBelowEnd(start, end, step);
    RangeReachesEnd(start, end, step);
  }

  lemma RangeIncreases(start: real, end: real, step: real)
    requires 0.0 < step
    ensures var r := Range(start, end, step);
      forall i, j :: 0 <= i < j < |r| ==> r[i] < r[j]
  {
    var r := Range(start, end, step);
    forall i, j | 0 <= i < j < |r|
      ensures r[i] < r[j]
    {
      assert r[i] == i as real * step + start && r[j] == j as real * step + start;
      assert (i as real + 1.0) * step == i as real * step + step;
      ScaleBelow(i as real + 1.0, j as real, step);
    }
  }

  /** Samples of a positive step never pass `end`, whatever the length. */
  lemma RangeBelowEnd(start: real, end: real, step: real)
    requires 0.0 < step
    ensures var r := Range(start, end, step);
      forall i :: 0 <= i < |r| ==> r[i] <= end
  {
    var r := Range(start, end, step);
    var w := (end - start) / step;
    QuotientShift(end - start, step);
    QuotientTimes(end - start, step);
    forall i | 0 <= i < |r|
      ensures r[i] <= end
    {
      ScaleBelow(i as real, w, step);
    }
  }

  lemma RangeReachesEnd(start: real, end: real, step: real)
    requires 0.0 < step && start <= end
    ensures var r := Range(start, end, step);
      1 <= |r| && r[0] == start && end - step < r[|r| - 1]
  {
    var r := Range(start, end, step);
    var w := (end - start) / step;
    QuotientShift(end - start, step);
    QuotientSign(end - start, step);
    QuotientTimes(end - start, step);
    var n := |r|;
    assert w < n as real;
    ScaleBelow(w - 1.0, (n - 1) as real, step);
    assert (w - 1.0) * step == w * step - step;
    assert (w - 1.0) * step != (n - 1) as real * step by {
      if (w - 1.0) * step == (n - 1) as real * step {
        ZeroFactor(w - 1.0 - (n - 1) as real, step);
      }
    }
  }

  /** With a positive step and `end < start`, there are no samples. */
  lemma RangeEmpty(start: real, end: real, step: real)
    requires 0.0 < step && end < start
    ensures Range(start, end, step) == []
  {
    QuotientShift(end - start, step);
    QuotientSign(end - start, step);
  }

  /**
   * A negative step samples the same number of points from the other end of
   * the interval: `start` and `end` are swapped, so sample i of
   * `range(start, end, -s)` mirrors sample i of `range(start, end, s)`.
   */
  lemma RangeNegativeStep(start: real, end: real, step: real)
    requires step < 0.0
    ensures var down, up := Range(start, end, step), Range(start, end, -step);
      |down| == |up| &&
      forall i :: 0 <= i < |down| ==> down[i] == start + end - up[i]
  {
    var s := -step;
    var down, up := Range(start, end, step), Range(start, end, s);
    NegatedQuotient(end - start + s, s);
    assert start - end + step == -(end - start + s);
    assert |down| == |up|;
    forall i | 0 <= i < |down|
      ensures down[i] == start + end - up[i]
    {
      NegatedProduct(i as real, s);
    }
  }

  // ---------------------------------------------------------------------------
  // Arithmetic on quotients, kept apart so that each step stays small

  lemma QuotientShift(a: real, s: real)
    requires s != 0.0
    ensures (a + s) / s == a / s + 1.0
  {
    var q, p := a / s, (a + s) / s;
    QuotientTimes(a, s);
    QuotientTimes(a + s, s);
    assert (p - q - 1.0) * s == p * s - q * s - s;
    ZeroFactor(p - q - 1.0, s);
  }

  lemma NegatedQuotient(a: real, s: real)
    requires s != 0.0
    ensures (-a) / (-s) == a / s
  {
    QuotientTimes(a, s);
    QuotientTimes(-a, -s);
    ZeroFactor((-a) / (-s) - a / s, s);
  }

  lemma NegatedProduct(x: real, s: real)
    ensures x * (-s) == -(x * s)
  {
  }

  lemma QuotientSign(a: real, s: real)
    requires 0.0 < s
    ensures 0.0 <= a <==> 0.0 <= a / s
  {
  }

  lemma QuotientTimes(a: real, s: real)
    requires s != 0.0
    ensures (a / s) * s == a
  {
  }

  lemma ZeroFactor(x: real, s: real)
    requires s != 0.0 && x * s == 0.0
    ensures x == 0.0
  {
  }

  lemma ScaleBelow(x: real, y: real, s: real)
    requires 0.0 < s && x <= y
    ensures x * s <= y * s
  {
  }
}
