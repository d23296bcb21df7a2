/**
 * The bars and the field share one notion of mixing: step i of a pair's bar hands the
 * mixer the same (colour, weight) pairs as the hover readout at the point i/40 of the
 * way along the triangle edge from the pair's first vertex to its second.
 */
module BarsAndField {
  import opened Geometry
  import opened Mixing
  import opened Hover
  import opened MixBars

  /** Vertex `i` of a triangle: A, B, C for 0, 1, 2. */
  function Vertex(t: Triangle, i: nat): Point
    requires i < 3
  {
    if i == 0 then t.a else if i == 1 then t.b else t.c
  }

  /** The weights of the point at share `r` along the edge of pair `pairIndex`: 1 - r and r on its two vertices. */
  function EdgeWeights(pairIndex: nat, r: real): (w: seq<real>)
    requires pairIndex < 3
    ensures |w| == 3 && w[0] + w[1] + w[2] == 1.0
  {
    if pairIndex == 0 then [1.0 - r, r, 0.0]
    else if pairIndex == 1 then [0.0, 1.0 - r, r]
    else [1.0 - r, 0.0, r]
  }

  /** The canvas point at step `stepIndex` along the edge of pair `pairIndex`. */
  function EdgePoint(width: nat, height: nat, pairIndex: nat, stepIndex: nat): Point
    requires pairIndex < 3
  {
    var t := CanvasTriangle(width, height);
    var p := Vertex(t, PairIndices[pairIndex].0);
    var q := Vertex(t, PairIndices[pairIndex].1);
    var r := StepRatio(stepIndex);
    Point(p.x + r * (q.x - p.x), p.y + r * (q.y - p.y))
  }

  /** The edge point is the barycentric point of its edge weights. */
  lemma EdgePointIsPointOf(width: nat, height: nat, pairIndex: nat, stepIndex: nat)
    requires pairIndex < 3
    ensures EdgePoint(width, height, pairIndex, stepIndex)
         == PointOf(CanvasTriangle(width, height), EdgeWeights(pairIndex, StepRatio(stepIndex)))
  {
  }

  /** The weights the field computes at an edge point are the edge weights. */
  lemma EdgePointWeights(width: nat, height: nat, pairIndex: nat, stepIndex: nat)
    requires width >= 1 && height >= 1 && pairIndex < 3
    ensures CanvasWeights(width, height, EdgePoint(width, height, pairIndex, stepIndex))
         == EdgeWeights(pairIndex, StepRatio(stepIndex))
  {
    CanvasDenom(width, height);
    EdgePointIsPointOf(width, height, pairIndex, stepIndex);
    WeightsAtPointOf(CanvasTriangle(width, height), EdgeWeights(pairIndex, StepRatio(stepIndex)));
  }

  /**
   * For every step of every bar: the hover readout at the matching edge point exists,
   * its weights are 1 - i/40 and i/40 on the pair's two colours, and it hands the
   * mixer exactly the bar step's arguments.
   */
  lemma BarStepMatchesHover<C>(width: nat, height: nat, colors: seq<C>, pairIndex: nat, stepIndex: nat)
    requires width >= 1 && height >= 1 && |colors| == 3
    requires pairIndex < 3 && stepIndex <= BarSteps
    ensures SampleOf(width, height, colors, EdgePoint(width, height, pairIndex, stepIndex)).Some?
    ensures var s := SampleOf(width, height, colors, EdgePoint(width, height, pairIndex, stepIndex)).value;
            s.weights == EdgeWeights(pairIndex, StepRatio(stepIndex)) &&
            s.args == StepArgs(colors[PairIndices[pairIndex].0], colors[PairIndices[pairIndex].1], stepIndex)
  {
    var r := StepRatio(stepIndex);
    var w := EdgeWeights(pairIndex, r);
    EdgePointWeights(width, height, pairIndex, stepIndex);
    assert Inside(w);
    assert Normalize(w, 1.0) == w;
    MixArgsThree(colors, w);
  }
}
