/**
 * Barycentric geometry of the mixing triangle: the canvas triangle with A = (0, 0),
 * B = (W, 0), C = (W/2, H), the weights of a point with respect to it, the inside
 * test with its tolerance, and the clamping of negative weights before mixing.
 * Canvas coordinates are exact reals here, not IEEE doubles.
 */
module Geometry {
  import opened Numeric

  datatype Point = Point(x: real, y: real)

  datatype Triangle = Triangle(a: Point, b: Point, c: Point)

  /** The triangle drawn on a canvas of `width` by `height` pixels: base on the top edge, apex at the bottom centre. */
  function CanvasTriangle(width: nat, height: nat): Triangle
  {
    Triangle(Point(0.0, 0.0), Point(width as real, 0.0), Point(width as real / 2.0, height as real))
  }

  /** The common denominator of the weight formulas (twice the signed area of the triangle). */
  function Denom(t: Triangle): real
  {
    (t.b.y - t.c.y) * (t.a.x - t.c.x) + (t.c.x - t.b.x) * (t.a.y - t.c.y)
  }

  /** On the canvas the denominator is W * H, so it is nonzero for every non-empty canvas. */
  lemma CanvasDenom(width: nat, height: nat)
    ensures Denom(CanvasTriangle(width, height)) == (width * height) as real
    ensures width > 0 && height > 0 ==> Denom(CanvasTriangle(width, height)) > 0.0
  {
    var w, h := width as real, height as real;
    calc {
      Denom(CanvasTriangle(width, height));
      (0.0 - h) * (0.0 - w / 2.0) + (w / 2.0 - w) * (0.0 - h);
      h * (w / 2.0) + (w / 2.0) * h;
      w * h;
    }
    assert (width * height) as real == w * h;
    if width > 0 && height > 0 {
      assert w * h > 0.0;
    }
  }

  /** The weights (w1, w2, w3) of point `p` for the vertices A, B, C, with w3 = 1 - w1 - w2. */
  function WeightsAt(t: Triangle, p: Point): (w: seq<real>)
    requires Denom(t) != 0.0
    ensures |w| == 3
    ensures w[0] + w[1] + w[2] == 1.0
  {
    var d := Denom(t);
    var w1 := ((t.b.y - t.c.y) * (p.x - t.c.x) + (t.c.x - t.b.x) * (p.y - t.c.y)) / d;
    var w2 := ((t.c.y - t.a.y) * (p.x - t.c.x) + (t.a.x - t.c.x) * (p.y - t.c.y)) / d;
    [w1, w2, 1.0 - w1 - w2]
  }

  /** The weights of canvas point `p` for the canvas triangle of a non-empty canvas. */
  function CanvasWeights(width: nat, height: nat, p: Point): (w: seq<real>)
    requires width >= 1 && height >= 1
    ensures |w| == 3 && w[0] + w[1] + w[2] == 1.0
  {
    CanvasDenom(width, height);
    WeightsAt(CanvasTriangle(width, height), p)
  }

  /** The reference definition: the point whose barycentric weights are `w`, that is, w1 A + w2 B + w3 C. */
  function PointOf(t: Triangle, w: seq<real>): Point
    requires |w| == 3
  {
    Point(w[0] * t.a.x + w[1] * t.b.x + w[2] * t.c.x,
          w[0] * t.a.y + w[1] * t.b.y + w[2] * t.c.y)
  }

  /** Weights computed from the point w1 A + w2 B + w3 C are (w1, w2, w3) whenever they sum to 1. */
  lemma WeightsAtPointOf(t: Triangle, w: seq<real>)
    requires Denom(t) != 0.0
    requires |w| == 3 && w[0] + w[1] + w[2] == 1.0
    ensures WeightsAt(t, PointOf(t, w)) == w
  {
    var d := Denom(t);
    var p := PointOf(t, w);
    var dax, day, dbx, dby := t.a.x - t.c.x, t.a.y - t.c.y, t.b.x - t.c.x, t.b.y - t.c.y;
    assert p.x - t.c.x == w[0] * dax + w[1] * dbx;
    assert p.y - t.c.y == w[0] * day + w[1] * dby;
    assert d == dby * dax - dbx * day;
    var n1 := dby * (p.x - t.c.x) + (0.0 - dbx) * (p.y - t.c.y);
    var n2 := (0.0 - day) * (p.x - t.c.x) + dax * (p.y - t.c.y);
    SolveFirst(dax, day, dbx, dby, w[0], w[1]);
    SolveSecond(dax, day, dbx, dby, w[0], w[1]);
    assert n1 == w[0] * d;
    assert n2 == w[1] * d;
    var r := WeightsAt(t, p);
    assert r[0] == n1 / d;
    assert r[1] == n2 / d;
    DivCancel(w[0], d);
    DivCancel(w[1], d);
    assert r[0] == w[0] && r[1] == w[1];
    assert r == [w[0], w[1], w[2]];
  }

  lemma SolveFirst(dax: real, day: real, dbx: real, dby: real, u: real, v: real)
    ensures dby * (u * dax + v * dbx) + (0.0 - dbx) * (u * day + v * dby) == u * (dby * dax - dbx * day)
  {
  }

  lemma SolveSecond(dax: real, day: real, dbx: real, dby: real, u: real, v: real)
    ensures (0.0 - day) * (u * dax + v * dbx) + dax * (u * day + v * dby) == v * (dby * dax - dbx * day)
  {
  }

  lemma DivCancel(a: real, d: real)
    requires d != 0.0
    ensures (a * d) / d == a
  {
  }

  lemma DivCombine(n1: real, n2: real, e: real, f: real, d: real)
    requires d != 0.0
    ensures (n1 / d) * e + (n2 / d) * f == (n1 * e + n2 * f) / d
  {
  }

  /** Conversely, every point is w1 A + w2 B + w3 C for its computed weights. */
  lemma PointOfWeightsAt(t: Triangle, p: Point)
    requires Denom(t) != 0.0
    ensures PointOf(t, WeightsAt(t, p)) == p
  {
    var d := Denom(t);
    var w := WeightsAt(t, p);
    var dax, day, dbx, dby := t.a.x - t.c.x, t.a.y - t.c.y, t.b.x - t.c.x, t.b.y - t.c.y;
    var u, v := p.x - t.c.x, p.y - t.c.y;
    var n1 := dby * u - dbx * v;
    var n2 := dax * v - day * u;
    assert w[0] == n1 / d && w[1] == n2 / d;
    CombineX(dax, day, dbx, dby, u, v);
    CombineY(dax, day, dbx, dby, u, v);
    assert d == dby * dax - dbx * day;
    DivCombine(n1, n2, dax, dbx, d);
    DivCombine(n1, n2, day, dby, d);
    DivCancel(u, d);
    DivCancel(v, d);
    assert w[0] * dax + w[1] * dbx == u;
    assert w[0] * day + w[1] * dby == v;
    var q := PointOf(t, w);
    assert q.x == w[0] * dax + w[1] * dbx + t.c.x;
    assert q.y == w[0] * day + w[1] * dby + t.c.y;
  }

  lemma CombineX(dax: real, day: real, dbx: real, dby: real, u: real, v: real)
    ensures (dby * u - dbx * v) * dax + (dax * v - day * u) * dbx == u * (dby * dax - dbx * day)
  {
  }

  lemma CombineY(dax: real, day: real, dbx: real, dby: real, u: real, v: real)
    ensures (dby * u - dbx * v) * day + (dax * v - day * u) * dby == v * (dby * dax - dbx * day)
  {
  }

  /** Each vertex has weight 1 for itself and 0 for the other two. */
  lemma VertexWeights(t: Triangle)
    requires Denom(t) != 0.0
    ensures WeightsAt(t, t.a) == [1.0, 0.0, 0.0]
    ensures WeightsAt(t, t.b) == [0.0, 1.0, 0.0]
    ensures WeightsAt(t, t.c) == [0.0, 0.0, 1.0]
  {
    WeightsAtPointOf(t, [1.0, 0.0, 0.0]);
    WeightsAtPointOf(t, [0.0, 1.0, 0.0]);
    WeightsAtPointOf(t, [0.0, 0.0, 1.0]);
  }

  /** The centroid has weight one third for each vertex. */
  lemma CentroidWeights(t: Triangle)
    requires Denom(t) != 0.0
    ensures WeightsAt(t, Point((t.a.x + t.b.x + t.c.x) / 3.0, (t.a.y + t.b.y + t.c.y) / 3.0))
         == [1.0 / 3.0, 1.0 / 3.0, 1.0 / 3.0]
  {
    var third := 1.0 / 3.0;
    WeightsAtPointOf(t, [third, third, third]);
  }

  /** The tolerance of the inside test. */
  const Tolerance: real := 0.001

  /** A point is inside the triangle unless one of its weights is below -0.001. */
  predicate Inside(w: seq<real>)
  {
    forall i :: 0 <= i < |w| ==> w[i] >= -Tolerance
  }

  /** Negative weights replaced by 0 before mixing, as `Math.max(value, 0)` on each. */
  function ClampNonNegative(w: seq<real>): (c: seq<real>)
    ensures |c| == |w|
  {
    if |w| == 0 then [] else [Max(w[0], 0.0)] + ClampNonNegative(w[1..])
  }

  /** Clamping keeps non-negative weights, sets negative ones to 0, and lowers none. */
  lemma {:induction false} ClampNonNegativeSpec(w: seq<real>)
    ensures forall i :: 0 <= i < |w| ==> ClampNonNegative(w)[i] >= 0.0 && ClampNonNegative(w)[i] >= w[i]
    ensures forall i :: 0 <= i < |w| ==>
              (w[i] >= 0.0 ==> ClampNonNegative(w)[i] == w[i]) && (w[i] < 0.0 ==> ClampNonNegative(w)[i] == 0.0)
  {
    if |w| > 0 {
      ClampNonNegativeSpec(w[1..]);
      assert forall i :: 1 <= i < |w| ==> ClampNonNegative(w)[i] == ClampNonNegative(w[1..])[i - 1];
    }
  }

  /** Clamping never lowers the total; so weights that sum to 1 have a clamped total of at least 1. */
  lemma {:induction false} ClampedSumAtLeast(w: seq<real>)
    ensures Sum(ClampNonNegative(w)) >= Sum(w)
  {
    if |w| > 0 {
      ClampedSumAtLeast(w[1..]);
      assert ClampNonNegative(w)[1..] == ClampNonNegative(w[1..]);
      assert ClampNonNegative(w)[0] == Max(w[0], 0.0);
    }
  }
}
