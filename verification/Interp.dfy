/** The two interpolators, over exact arithmetic: a binary search in any strictly monotone table, and a direct index
    for equally spaced ones. */
module Interp {

  function MapValue(x: real, x1: real, x2: real, y1: real, y2: real): real
    requires x1 != x2
  {
    y1 + (y2 - y1) * (x - x1) / (x2 - x1)
  }

  /** In the direction of the table: before. */
  predicate Before(increasing: bool, a: real, b: real) {
    if increasing then a < b else a > b
  }

  ghost predicate StrictlyMonotone(increasing: bool, inputs: seq<real>) {
    forall i, j :: 0 <= i < j < |inputs| ==> Before(increasing, inputs[i], inputs[j])
  }

  ghost predicate TableOk(increasing: bool, inputs: seq<real>, outputs: seq<real>) {
    |inputs| == |outputs| >= 2 && StrictlyMonotone(increasing, inputs)
  }

  /** The point lies in interval `i` of the table. */
  predicate Brackets(increasing: bool, inputs: seq<real>, i: nat, x: real)
    requires i + 1 < |inputs|
  {
    !Before(increasing, x, inputs[i]) && !Before(increasing, inputs[i + 1], x)
  }

  /** The point lies on the straight line through two others. */
  predicate OnLine(x: real, y: real, x1: real, y1: real, x2: real, y2: real) {
    (y - y1) * (x2 - x1) == (y2 - y1) * (x - x1)
  }

  /** What interpolation means: the end values outside the table, and inside it the line through the two points around
      - whichever two, when the point is itself in the table. */
  ghost predicate IsValueAt(increasing: bool, inputs: seq<real>, outputs: seq<real>, x: real, y: real)
    requires TableOk(increasing, inputs, outputs)
  {
    && (!Before(increasing, inputs[0], x) ==> y == outputs[0])
    && (!Before(increasing, x, inputs[|inputs| - 1]) ==> y == outputs[|inputs| - 1])
    && (forall i: nat :: i + 1 < |inputs| && Brackets(increasing, inputs, i, x) ==>
          Before(increasing, inputs[i], inputs[i + 1])
          && OnLine(x, y, inputs[i], outputs[i], inputs[i + 1], outputs[i + 1]))
  }

  // ---- lines ----

  /** The formula gives the one value on the line. */
  lemma MapIsLine(x: real, y: real, x1: real, y1: real, x2: real, y2: real)
    requires x1 != x2
    ensures OnLine(x, y, x1, y1, x2, y2) <==> y == MapValue(x, x1, x2, y1, y2)
  {
    var rise, run := (y2 - y1) * (x - x1), x2 - x1;
    assert rise / run * run == rise;
    if (y - y1) * run == rise { Cancel(y - y1, run); }
  }

  lemma MapAtEnds(x1: real, x2: real, y1: real, y2: real)
    requires x1 != x2
    ensures MapValue(x1, x1, x2, y1, y2) == y1 && MapValue(x2, x1, x2, y1, y2) == y2
  {
    assert (y2 - y1) * (x1 - x1) == 0.0;
    Cancel(y2 - y1, x2 - x1);
  }

  lemma Cancel(h: real, d: real)
    requires d != 0.0
    ensures h * d / d == h
  {
  }

  /** A line that does not fall keeps the order of its points. */
  lemma MapIsMonotone(increasing: bool, x: real, x': real, x1: real, x2: real, y1: real, y2: real)
    requires Before(increasing, x1, x2) && !Before(increasing, x', x) && y1 <= y2
    ensures MapValue(x, x1, x2, y1, y2) <= MapValue(x', x1, x2, y1, y2)
  {
    var h, d := y2 - y1, x2 - x1;
    ScaleUp(increasing, h, x - x1, x' - x1, d);
  }

  lemma ScaleUp(increasing: bool, h: real, u: real, v: real, d: real)
    requires h >= 0.0 && d != 0.0 && (if increasing then d > 0.0 && u <= v else d < 0.0 && u >= v)
    ensures h * u / d <= h * v / d
  {
    Product(h, v - u);
    Product(h, u - v);
    assert h * v - h * u == h * (v - u);
    Quotient(h * v - h * u, d);
    assert (h * v - h * u) / d == h * v / d - h * u / d;
  }

  lemma Product(a: real, b: real)
    requires a >= 0.0
    ensures b >= 0.0 ==> a * b >= 0.0
    ensures b <= 0.0 ==> a * b <= 0.0
  {
  }

  lemma NegativeProduct(q: real, d: real)
    ensures q < 0.0 && d > 0.0 ==> q * d < 0.0
    ensures q < 0.0 && d < 0.0 ==> q * d > 0.0
  {
  }

  lemma Quotient(n: real, d: real)
    requires d != 0.0
    ensures n >= 0.0 && d > 0.0 ==> n / d >= 0.0
    ensures n <= 0.0 && d < 0.0 ==> n / d >= 0.0
  {
    var q := n / d;
    assert q * d == n;
    NegativeProduct(q, d);
  }

  // ---- the binary search ----

  class NonEquidistantInterp {
    var inputs: seq<real>
    var outputs: seq<real>
    var increasing: bool

    ghost predicate Valid()
      reads this
    {
      TableOk(increasing, inputs, outputs)
    }

    constructor (points: seq<(real, real)>)
      requires |points| >= 2
      requires
        var up := points[0].0 < points[|points| - 1].0;
        forall i, j :: 0 <= i < j < |points| ==> Before(up, points[i].0, points[j].0)
      ensures Valid() && |inputs| == |points|
      ensures forall i :: 0 <= i < |points| ==> inputs[i] == points[i].0 && outputs[i] == points[i].1
      ensures increasing <==> points[0].0 < points[|points| - 1].0
    {
      var xs, ys := [], [];
      for k := 0 to |points|
        invariant |xs| == |ys| == k
        invariant forall i :: 0 <= i < k ==> xs[i] == points[i].0 && ys[i] == points[i].1
      {
        xs, ys := xs + [points[k].0], ys + [points[k].1];
      }
      inputs, outputs, increasing := xs, ys, xs[0] < xs[|xs| - 1];
    }

    /** The first point not before `x`, by halving. */
    method Search(x: real) returns (lo: nat)
      requires Valid() && !Before(increasing, inputs[|inputs| - 1], x)
      ensures lo < |inputs| && !Before(increasing, inputs[lo], x)
      ensures forall i :: 0 <= i < lo ==> Before(increasing, inputs[i], x)
    {
      lo := 0;
      var hi := |inputs| - 1;
      while lo < hi
        invariant 0 <= lo <= hi < |inputs|
        invariant !Before(increasing, inputs[hi], x)
        invariant forall i :: 0 <= i < lo ==> Before(increasing, inputs[i], x)
      {
        var mid := (lo + hi) / 2;
        if Before(increasing, inputs[mid], x) {
          assert forall i :: 0 <= i < mid ==> Before(increasing, inputs[i], inputs[mid]);
          lo := mid + 1;
        } else {
          hi := mid;
        }
      }
    }

    method Interpolate(x: real) returns (y: real)
      requires Valid()
      ensures IsValueAt(increasing, inputs, outputs, x, y)
    {
      var n := |inputs|;
      if !Before(increasing, inputs[0], x) {
        AtFirst(increasing, inputs, outputs, x);
        return outputs[0];
      }
      if !Before(increasing, x, inputs[n - 1]) {
        AtLast(increasing, inputs, outputs, x);
        return outputs[n - 1];
      }
      var lo := Search(x);
      var i: int := lo - 1;
      if i < 0 { i := 0; }
      if i >= n - 1 { i := n - 2; }
      y := MapValue(x, inputs[i], inputs[i + 1], outputs[i], outputs[i + 1]);
      Inside(increasing, inputs, outputs, i, x);
    }
  }

  /** Up to the first point, the value is the first one. */
  lemma AtFirst(increasing: bool, inputs: seq<real>, outputs: seq<real>, x: real)
    requires TableOk(increasing, inputs, outputs) && !Before(increasing, inputs[0], x)
    ensures IsValueAt(increasing, inputs, outputs, x, outputs[0])
  {
    MapAtEnds(inputs[0], inputs[1], outputs[0], outputs[1]);
    assert forall i :: 0 < i < |inputs| ==> Before(increasing, inputs[0], inputs[i]);
    assert forall i: nat :: i + 1 < |inputs| && Brackets(increasing, inputs, i, x) ==> i == 0 && x == inputs[0];
  }

  lemma AtLast(increasing: bool, inputs: seq<real>, outputs: seq<real>, x: real)
    requires TableOk(increasing, inputs, outputs) && !Before(increasing, x, inputs[|inputs| - 1])
    ensures IsValueAt(increasing, inputs, outputs, x, outputs[|inputs| - 1])
  {
    var n := |inputs|;
    MapAtEnds(inputs[n - 2], inputs[n - 1], outputs[n - 2], outputs[n - 1]);
    assert forall i :: 0 <= i < n - 1 ==> Before(increasing, inputs[i], inputs[n - 1]);
    assert forall i: nat :: i + 1 < n && Brackets(increasing, inputs, i, x) ==> i == n - 2 && x == inputs[n - 1];
  }

  /** Inside the table any interval around the point gives the same value. */
  lemma Inside(increasing: bool, inputs: seq<real>, outputs: seq<real>, k: nat, x: real)
    requires TableOk(increasing, inputs, outputs) && k + 1 < |inputs| && Brackets(increasing, inputs, k, x)
    ensures Before(increasing, inputs[k], inputs[k + 1])
    ensures IsValueAt(increasing, inputs, outputs, x, MapValue(x, inputs[k], inputs[k + 1], outputs[k], outputs[k + 1]))
  {
    hide OnLine, MapValue;
    var n := |inputs|;
    var y := MapValue(x, inputs[k], inputs[k + 1], outputs[k], outputs[k + 1]);
    if !Before(increasing, inputs[0], x) {
      AtFirst(increasing, inputs, outputs, x);
      MapIsLine(x, outputs[0], inputs[k], outputs[k], inputs[k + 1], outputs[k + 1]);
    } else if !Before(increasing, x, inputs[n - 1]) {
      AtLast(increasing, inputs, outputs, x);
      MapIsLine(x, outputs[n - 1], inputs[k], outputs[k], inputs[k + 1], outputs[k + 1]);
    } else {
      forall i: nat | i + 1 < n && Brackets(increasing, inputs, i, x)
        ensures Before(increasing, inputs[i], inputs[i + 1])
        ensures OnLine(x, y, inputs[i], outputs[i], inputs[i + 1], outputs[i + 1])
      {
        SameValue(increasing, inputs, outputs, i, k, x);
        MapIsLine(x, y, inputs[i], outputs[i], inputs[i + 1], outputs[i + 1]);
      }
    }
  }

  /** Two intervals around one point are the same or share the point. */
  lemma SameValue(increasing: bool, inputs: seq<real>, outputs: seq<real>, i: nat, k: nat, x: real)
    requires TableOk(increasing, inputs, outputs) && i + 1 < |inputs| && k + 1 < |inputs|
    requires Brackets(increasing, inputs, i, x) && Brackets(increasing, inputs, k, x)
    ensures inputs[i] != inputs[i + 1] && inputs[k] != inputs[k + 1]
    ensures MapValue(x, inputs[i], inputs[i + 1], outputs[i], outputs[i + 1])
         == MapValue(x, inputs[k], inputs[k + 1], outputs[k], outputs[k + 1])
  {
    assert Before(increasing, inputs[i], inputs[i + 1]) && Before(increasing, inputs[k], inputs[k + 1]);
    MapAtEnds(inputs[i], inputs[i + 1], outputs[i], outputs[i + 1]);
    MapAtEnds(inputs[k], inputs[k + 1], outputs[k], outputs[k + 1]);
    if i < k {
      Neighbours(increasing, inputs, i, k, x);
    } else if k < i {
      Neighbours(increasing, inputs, k, i, x);
    }
  }

  lemma Neighbours(increasing: bool, inputs: seq<real>, i: nat, k: nat, x: real)
    requires StrictlyMonotone(increasing, inputs) && i < k && k + 1 < |inputs|
    requires Brackets(increasing, inputs, i, x) && Brackets(increasing, inputs, k, x)
    ensures k == i + 1 && x == inputs[k]
  {
    assert forall j :: i + 1 < j < |inputs| ==> Before(increasing, inputs[i + 1], inputs[j]);
  }

  /** There is one value for every point. */
  lemma ValueIsUnique(increasing: bool, inputs: seq<real>, outputs: seq<real>, x: real, y: real, z: real)
    requires TableOk(increasing, inputs, outputs)
    requires IsValueAt(increasing, inputs, outputs, x, y) && IsValueAt(increasing, inputs, outputs, x, z)
    ensures y == z
  {
    hide OnLine, MapValue;
    if Before(increasing, inputs[0], x) && Before(increasing, x, inputs[|inputs| - 1]) {
      var i := IntervalOf(increasing, inputs, x);
      assert Brackets(increasing, inputs, i, x);
      MapIsLine(x, y, inputs[i], outputs[i], inputs[i + 1], outputs[i + 1]);
      MapIsLine(x, z, inputs[i], outputs[i], inputs[i + 1], outputs[i + 1]);
    }
  }

  lemma IntervalOf(increasing: bool, inputs: seq<real>, x: real) returns (i: nat)
    requires |inputs| >= 2 && Before(increasing, inputs[0], x) && Before(increasing, x, inputs[|inputs| - 1])
    ensures i + 1 < |inputs| && Brackets(increasing, inputs, i, x)
    ensures Before(increasing, inputs[i], x)
  {
    i := 0;
    while Before(increasing, inputs[i + 1], x)
      invariant i + 1 < |inputs| && Before(increasing, inputs[i], x)
      decreases |inputs| - i
    {
      i := i + 1;
    }
  }

  // ---- monotonicity ----

  ghost predicate Rising(outputs: seq<real>) {
    forall i, j :: 0 <= i < j < |outputs| ==> outputs[i] <= outputs[j]
  }

  /** In interval `i` the value lies between the two outputs. */
  lemma WithinInterval(increasing: bool, inputs: seq<real>, outputs: seq<real>, i: nat, x: real, y: real)
    requires TableOk(increasing, inputs, outputs) && i + 1 < |inputs| && Brackets(increasing, inputs, i, x)
    requires outputs[i] <= outputs[i + 1] && IsValueAt(increasing, inputs, outputs, x, y)
    ensures outputs[i] <= y <= outputs[i + 1]
  {
    hide OnLine, MapValue;
    MapIsLine(x, y, inputs[i], outputs[i], inputs[i + 1], outputs[i + 1]);
    MapAtEnds(inputs[i], inputs[i + 1], outputs[i], outputs[i + 1]);
    MapIsMonotone(increasing, inputs[i], x, inputs[i], inputs[i + 1], outputs[i], outputs[i + 1]);
    MapIsMonotone(increasing, x, inputs[i + 1], inputs[i], inputs[i + 1], outputs[i], outputs[i + 1]);
  }

  /** Every value of a table that does not fall lies between its first and its last. */
  lemma WithinOutputs(increasing: bool, inputs: seq<real>, outputs: seq<real>, x: real, y: real)
    requires TableOk(increasing, inputs, outputs) && Rising(outputs) && IsValueAt(increasing, inputs, outputs, x, y)
    ensures outputs[0] <= y <= outputs[|outputs| - 1]
  {
    assert outputs[0] <= outputs[|outputs| - 1];
    if Before(increasing, inputs[0], x) && Before(increasing, x, inputs[|inputs| - 1]) {
      var i := IntervalOf(increasing, inputs, x);
      WithinInterval(increasing, inputs, outputs, i, x, y);
    }
  }

  /** If the outputs do not fall, neither does the value, whichever way the inputs run. */
  lemma InterpolationIsMonotone(increasing: bool, inputs: seq<real>, outputs: seq<real>,
                                x: real, y: real, x': real, y': real)
    requires TableOk(increasing, inputs, outputs) && Rising(outputs) && !Before(increasing, x', x)
    requires IsValueAt(increasing, inputs, outputs, x, y) && IsValueAt(increasing, inputs, outputs, x', y')
    ensures y <= y'
  {
    hide OnLine, MapValue;
    var n := |inputs|;
    WithinOutputs(increasing, inputs, outputs, x, y);
    WithinOutputs(increasing, inputs, outputs, x', y');
    if Before(increasing, inputs[0], x) && Before(increasing, x', inputs[n - 1]) {
      var i := IntervalOf(increasing, inputs, x);
      var k := IntervalOf(increasing, inputs, x');
      assert Brackets(increasing, inputs, i, x) && Brackets(increasing, inputs, k, x');
      assert forall j :: k + 1 < j < n ==> Before(increasing, inputs[k + 1], inputs[j]);
      if i == k {
        MapIsLine(x, y, inputs[i], outputs[i], inputs[i + 1], outputs[i + 1]);
        MapIsLine(x', y', inputs[i], outputs[i], inputs[i + 1], outputs[i + 1]);
        MapIsMonotone(increasing, x, x', inputs[i], inputs[i + 1], outputs[i], outputs[i + 1]);
      } else {
        WithinInterval(increasing, inputs, outputs, i, x, y);
        WithinInterval(increasing, inputs, outputs, k, x', y');
      }
    }
  }

  // ---- equally spaced tables ----

  /** Point `i` of an equally spaced table. */
  function PointAt(start: real, step: real, i: int): real {
    start + i as real * step
  }

  function Spaced(start: real, step: real, n: nat): seq<real> {
    seq(n, i requires 0 <= i => PointAt(start, step, i))
  }

  lemma SpacedIsMonotone(start: real, step: real, n: nat)
    requires step != 0.0
    ensures StrictlyMonotone(step > 0.0, Spaced(start, step, n))
  {
    hide PointAt, Before;
    SpacedPoints(start, step, n);
    forall i, j | 0 <= i < j < n
      ensures Before(step > 0.0, Spaced(start, step, n)[i], Spaced(start, step, n)[j])
    {
      PointsApart(start, step, i, j);
    }
  }

  lemma PointsApart(start: real, step: real, i: int, j: int)
    requires step != 0.0 && i < j
    ensures Before(step > 0.0, PointAt(start, step, i), PointAt(start, step, j))
  {
    StepsApart(i as real, j as real, step);
  }

  lemma StepsApart(i: real, j: real, step: real)
    requires i < j
    ensures step > 0.0 ==> i * step < j * step
    ensures step < 0.0 ==> i * step > j * step
  {
    assert j * step - i * step == (j - i) * step;
    if step > 0.0 { assert (j - i) * step > 0.0; }
    if step < 0.0 { assert (j - i) * step < 0.0; }
  }

  /** The index found by dividing is the interval of the point. */
  lemma IndexBrackets(start: real, step: real, n: nat, x: real, i: int)
    requires step != 0.0 && n >= 2
    requires Before(step > 0.0, start, x) && Before(step > 0.0, x, PointAt(start, step, n - 1))
    requires i == ((x - start) / step).Floor
    ensures 0 <= i < n - 1 && Brackets(step > 0.0, Spaced(start, step, n), i, x)
  {
    var q := (x - start) / step;
    assert q * step == x - start;
    if q <= 0.0 { SignOf(q, step); }
    if q >= (n - 1) as real {
      SignOf((n - 1) as real - q, step);
      assert ((n - 1) as real - q) * step == (n - 1) as real * step - q * step;
    }
    assert i as real <= q < i as real + 1.0;
    SignOf(i as real - q, step);
    SignOf(q - (i + 1) as real, step);
    assert (i as real - q) * step == i as real * step - q * step;
    assert (q - (i + 1) as real) * step == q * step - (i + 1) as real * step;
  }

  lemma SignOf(a: real, step: real)
    requires a <= 0.0
    ensures step > 0.0 ==> a * step <= 0.0
    ensures step < 0.0 ==> a * step >= 0.0
  {
  }

  lemma SpacedPoints(start: real, step: real, n: nat)
    ensures |Spaced(start, step, n)| == n
    ensures forall i :: 0 <= i < n ==> Spaced(start, step, n)[i] == PointAt(start, step, i)
    ensures PointAt(start, step, 0) == start
  {
  }

  class EquidistantInterp {
    var start: real
    var step: real
    var values: seq<real>
    var increasing: bool

    ghost predicate Valid()
      reads this
    {
      |values| >= 2 && step != 0.0 && increasing == (step > 0.0)
    }

    constructor (points: seq<(real, real)>)
      requires |points| >= 2 && points[0].0 != points[1].0
      ensures Valid() && start == points[0].0 && step == points[1].0 - points[0].0 && |values| == |points|
      ensures forall i :: 0 <= i < |points| ==> values[i] == points[i].1
    {
      var ys := [];
      for k := 0 to |points|
        invariant |ys| == k && forall i :: 0 <= i < k ==> ys[i] == points[i].1
      {
        ys := ys + [points[k].1];
      }
      start, step, values := points[0].0, points[1].0 - points[0].0, ys;
      increasing := points[1].0 - points[0].0 > 0.0;
    }

    /** The value is that of the table of equally spaced points: the same that the binary search finds. */
    method Interpolate(x: real) returns (y: real)
      requires Valid()
      ensures TableOk(increasing, Spaced(start, step, |values|), values)
      ensures IsValueAt(increasing, Spaced(start, step, |values|), values, x, y)
    {
      hide IsValueAt, StrictlyMonotone, MapValue, Spaced, PointAt;
      ghost var inputs := Spaced(start, step, |values|);
      SpacedPoints(start, step, |values|);
      SpacedIsMonotone(start, step, |values|);
      var n := |values|;
      var lastInput := PointAt(start, step, n - 1);
      if !Before(increasing, start, x) {
        AtFirst(increasing, inputs, values, x);
        return values[0];
      }
      if !Before(increasing, x, lastInput) {
        AtLast(increasing, inputs, values, x);
        return values[n - 1];
      }
      var i := ((x - start) / step).Floor;
      IndexBrackets(start, step, n, x, i);
      if i < 0 { i := 0; }
      if i >= n - 1 { i := n - 2; }
      Inside(increasing, inputs, values, i, x);
      y := MapValue(x, PointAt(start, step, i), PointAt(start, step, i + 1), values[i], values[i + 1]);
    }
  }

  /** On equally spaced points, rising or falling, the two interpolators agree at every input. */
  lemma InterpolatorsAgree(inputs: seq<real>, outputs: seq<real>, x: real, direct: real, searched: real)
    requires |inputs| == |outputs| >= 2 && inputs[0] != inputs[1]
    requires forall i :: 0 <= i < |inputs| ==> inputs[i] == PointAt(inputs[0], inputs[1] - inputs[0], i)
    requires TableOk(inputs[1] - inputs[0] > 0.0, Spaced(inputs[0], inputs[1] - inputs[0], |inputs|), outputs)
    requires IsValueAt(inputs[1] - inputs[0] > 0.0, Spaced(inputs[0], inputs[1] - inputs[0], |inputs|), outputs,
                       x, direct)
    requires TableOk(inputs[0] < inputs[|inputs| - 1], inputs, outputs)
    requires IsValueAt(inputs[0] < inputs[|inputs| - 1], inputs, outputs, x, searched)
    ensures direct == searched
  {
    hide IsValueAt;
    SpacedPoints(inputs[0], inputs[1] - inputs[0], |inputs|);
    assert inputs == Spaced(inputs[0], inputs[1] - inputs[0], |inputs|);
    assert Before(inputs[0] < inputs[|inputs| - 1], inputs[0], inputs[1]);
    ValueIsUnique(inputs[0] < inputs[|inputs| - 1], inputs, outputs, x, direct, searched);
  }
}
