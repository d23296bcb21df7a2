/**
 * The hover readout of the ternary field: the weights at the pointer, normalised to
 * sum to 1, the mixer's argument list, and whole percentages corrected so that they
 * add up to 100 by adjusting the component with the largest raw share.
 */
module Hover {
  import opened Numeric
  import opened Options
  import opened Geometry
  import opened Mixing

  /** What a hover over an inside point reports. */
  datatype Sample<C> = Sample(weights: seq<real>, args: seq<(C, real)>, percentages: seq<int>)

  /** `rawRatios.indexOf(Math.max(...rawRatios))`: the first position of the largest value. */
  function FirstMaxIndex(s: seq<real>): (k: nat)
    requires |s| > 0
    ensures k < |s|
    ensures forall j :: 0 <= j < |s| ==> s[j] <= s[k]
    ensures forall j :: 0 <= j < k ==> s[j] < s[k]
  {
    if |s| == 1 then 0
    else
      var k := FirstMaxIndex(s[1..]) + 1;
      if s[0] >= s[k] then 0 else k
  }

  /** Each weight divided by the total. */
  function Normalize(w: seq<real>, total: real): (n: seq<real>)
    requires total != 0.0
    ensures |n| == |w|
  {
    seq(|w|, i requires 0 <= i < |w| => w[i] / total)
  }

  /** Shares as raw percentages. */
  function Scale100(n: seq<real>): (raw: seq<real>)
    ensures |raw| == |n|
  {
    seq(|n|, i requires 0 <= i < |n| => n[i] * 100.0)
  }

  /** Each raw percentage rounded, and never below 0. */
  function Rounded(raw: seq<real>): (r: seq<int>)
    ensures |r| == |raw|
  {
    seq(|raw|, i requires 0 <= i < |raw| => MaxInt(0, Round(raw[i])))
  }

  /**
   * The rounded percentages with the correction: when they do not add up to 100,
   * the entry at the first largest raw value takes the difference (never going below 0).
   */
  function Percentages(raw: seq<real>): (p: seq<int>)
    requires |raw| == 3
    ensures |p| == 3
  {
    var ratios := Rounded(raw);
    var ratioSum := ratios[0] + ratios[1] + ratios[2];
    if ratioSum == 100 then ratios
    else
      var maxIndex := FirstMaxIndex(raw);
      ratios[maxIndex := MaxInt(0, ratios[maxIndex] + (100 - ratioSum))]
  }

  /** The correction touches only the entry at the first largest raw value, and nothing when the sum is already 100. */
  lemma PercentagesChangeOnlyMax(raw: seq<real>)
    requires |raw| == 3
    ensures forall i :: 0 <= i < 3 && i != FirstMaxIndex(raw) ==> Percentages(raw)[i] == MaxInt(0, Round(raw[i]))
    ensures Rounded(raw)[0] + Rounded(raw)[1] + Rounded(raw)[2] == 100 ==> Percentages(raw) == Rounded(raw)
    ensures forall i :: 0 <= i < 3 ==> Percentages(raw)[i] >= 0
  {
  }

  /** If the corrected entry was not held at 0, the three percentages add up to exactly 100. */
  lemma PercentagesSumWhenUnclamped(raw: seq<real>)
    requires |raw| == 3
    requires var r := Rounded(raw); r[FirstMaxIndex(raw)] + (100 - (r[0] + r[1] + r[2])) >= 0
    ensures Percentages(raw)[0] + Percentages(raw)[1] + Percentages(raw)[2] == 100
  {
  }

  /**
   * Raw percentages that add up to 100 with none below -1/2 (as at every inside
   * point, where none is below -0.1) always end up adding to exactly 100.
   */
  lemma PercentagesSumTo100(raw: seq<real>)
    requires |raw| == 3 && raw[0] + raw[1] + raw[2] == 100.0
    requires forall i :: 0 <= i < 3 ==> raw[i] >= -0.5
    ensures Percentages(raw)[0] + Percentages(raw)[1] + Percentages(raw)[2] == 100
  {
    var r := Rounded(raw);
    var k := FirstMaxIndex(raw);
    forall i | 0 <= i < 3
      ensures raw[i] - 0.5 < r[i] as real <= raw[i] + 0.5
    {
      assert Round(raw[i]) >= 0;
    }
    assert r[0] + r[1] + r[2] <= 101;
    assert raw[k] * 3.0 >= 100.0;
    assert r[k] >= 33;
    PercentagesSumWhenUnclamped(raw);
  }

  /** The in-place correction of the rounded percentages (`ratios[maxIndex] = ...`). */
  method CorrectPercentages(raw: seq<real>) returns (pct: seq<int>)
    requires |raw| == 3
    ensures pct == Percentages(raw)
  {
    var ratios := new int[3];
    ratios[0], ratios[1], ratios[2] := MaxInt(0, Round(raw[0])), MaxInt(0, Round(raw[1])), MaxInt(0, Round(raw[2]));
    assert ratios[..] == Rounded(raw);
    var ratioSum := ratios[0] + ratios[1] + ratios[2];
    if ratioSum != 100 {
      var maxIndex := FirstMaxIndex(raw);
      ratios[maxIndex] := MaxInt(0, ratios[maxIndex] + (100 - ratioSum));
    }
    pct := ratios[..];
  }

  /**
   * The hover readout at canvas point `p`: nothing without exactly three colours,
   * outside the triangle, or for a non-positive total; otherwise the normalised
   * weights, the colours of positive weight, and the corrected percentages.
   */
  function SampleOf<C>(width: nat, height: nat, colors: seq<C>, p: Point): Option<Sample<C>>
    requires width >= 1 && height >= 1
  {
    if |colors| != 3 then None
    else
      var w := CanvasWeights(width, height, p);
      if !Inside(w) then None
      else
        var total := w[0] + w[1] + w[2];
        if total <= 0.0 then None
        else
          var normalized := Normalize(w, total);
          Some(Sample(normalized, MixArgs(colors, normalized), Percentages(Scale100(normalized))))
  }

  /** `handleCanvasHover`, from the point in canvas pixels on. */
  method SampleAt<C>(width: nat, height: nat, colors: seq<C>, sampleX: real, sampleY: real) returns (r: Option<Sample<C>>)
    requires width >= 1 && height >= 1
    ensures r == SampleOf(width, height, colors, Point(sampleX, sampleY))
  {
    if |colors| != 3 {
      return None;
    }
    CanvasDenom(width, height);
    var w := WeightsAt(CanvasTriangle(width, height), Point(sampleX, sampleY));
    assert w == CanvasWeights(width, height, Point(sampleX, sampleY));
    if w[0] < -Tolerance || w[1] < -Tolerance || w[2] < -Tolerance {
      return None;
    }
    var total := w[0] + w[1] + w[2];
    if total <= 0.0 {
      return None;
    }
    var normalized := Normalize(w, total);
    var mixArgs := MixArgs(colors, normalized);
    var rawRatios := Scale100(normalized);
    var ratios := CorrectPercentages(rawRatios);
    r := Some(Sample(normalized, mixArgs, ratios));
  }

  /**
   * A readout exists exactly at inside points (for three colours); its weights are the
   * point's weights, which sum to 1, its argument list has one colour per positive
   * weight, and its percentages are non-negative and add up to 100.
   */
  lemma SampleSpec<C>(width: nat, height: nat, colors: seq<C>, p: Point)
    requires width >= 1 && height >= 1
    ensures SampleOf(width, height, colors, p).Some? <==> |colors| == 3 && Inside(CanvasWeights(width, height, p))
    ensures SampleOf(width, height, colors, p).Some? ==>
              var s := SampleOf(width, height, colors, p).value;
              s.weights == CanvasWeights(width, height, p) &&
              s.weights[0] + s.weights[1] + s.weights[2] == 1.0 &&
              |s.args| == CountPositive(s.weights) &&
              |s.percentages| == 3 &&
              (forall i :: 0 <= i < 3 ==> s.percentages[i] >= 0) &&
              s.percentages[0] + s.percentages[1] + s.percentages[2] == 100
  {
    var w := CanvasWeights(width, height, p);
    if |colors| == 3 && Inside(w) {
      var n := Normalize(w, 1.0);
      assert n == w;
      MixArgsExact(colors, w);
      var raw := Scale100(w);
      assert forall i :: 0 <= i < 3 ==> raw[i] >= -0.5 by {
        forall i | 0 <= i < 3 ensures raw[i] >= -0.5 {
          assert w[i] >= -Tolerance;
        }
      }
      PercentagesSumTo100(raw);
      PercentagesChangeOnlyMax(raw);
    }
  }

  /** Hovering exactly over vertex A reports (1, 0, 0), mixes the first colour alone, and shows 100 / 0 / 0. */
  lemma SampleAtVertexA<C>(width: nat, height: nat, colors: seq<C>)
    requires width >= 1 && height >= 1 && |colors| == 3
    ensures SampleOf(width, height, colors, Point(0.0, 0.0))
         == Some(Sample([1.0, 0.0, 0.0], [(colors[0], 1.0)], [100, 0, 0]))
  {
    CanvasDenom(width, height);
    var t := CanvasTriangle(width, height);
    VertexWeights(t);
    var w := WeightsAt(t, t.a);
    assert Normalize(w, 1.0) == w;
    assert w == [1.0, 0.0, 0.0];
    assert MixArgs(colors, w) == [(colors[0], 1.0)] by {
      assert MixArgs(colors[1..][1..][1..], w[1..][1..][1..]) == [];
      assert MixArgs(colors[1..][1..], w[1..][1..]) == [];
      assert MixArgs(colors[1..], w[1..]) == [];
    }
    assert Scale100(w) == [100.0, 0.0, 0.0];
    assert Rounded([100.0, 0.0, 0.0]) == [100, 0, 0];
  }
}
