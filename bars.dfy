/**
 * The three pairwise mix bars: each pair of colours gets a bar of 41 steps, step i
 * mixing the pair at ratio i/40 for the second colour; the chosen ratio of each pair
 * and the active pair are the only mutable state.
 */
module MixBars {
  import opened Numeric

  /** Steps per bar after the first: a bar has steps 0 through 40. */
  const BarSteps: nat := 40

  /** The colour indices of the three pairs, in bar order. */
  const PairIndices: seq<(nat, nat)> := [(0, 1), (1, 2), (0, 2)]

  /** The ratio every pair starts with. */
  const InitialRatio: real := 0.5

  /** The share of the pair's second colour at step `stepIndex`. */
  function StepRatio(stepIndex: nat): (r: real)
    ensures stepIndex <= BarSteps ==> 0.0 <= r <= 1.0
    ensures stepIndex == 0 ==> r == 0.0
    ensures stepIndex == BarSteps ==> r == 1.0
  {
    stepIndex as real / BarSteps as real
  }

  /** The step shown as selected for a ratio: `Math.round(ratio * 40)`. */
  function SelectedIndex(ratio: real): int
  {
    Round(ratio * BarSteps as real)
  }

  /** Clicking a step and reading the selection back gives that step. */
  lemma SelectedIndexOfStep(stepIndex: nat)
    requires stepIndex <= BarSteps
    ensures SelectedIndex(StepRatio(stepIndex)) == stepIndex
  {
    assert StepRatio(stepIndex) * BarSteps as real == stepIndex as real;
    RoundUnique(stepIndex as real, stepIndex);
  }

  /** Every ratio in [0, 1] selects a step of the bar, whose ratio is within 1/80 of it. */
  lemma SelectedIndexInRange(ratio: real)
    requires 0.0 <= ratio <= 1.0
    ensures 0 <= SelectedIndex(ratio) <= BarSteps
    ensures -1.0 / 80.0 < StepRatio(SelectedIndex(ratio) as nat) - ratio <= 1.0 / 80.0
  {
    var x := ratio * BarSteps as real;
    assert 0.0 <= x <= 40.0;
    var n := SelectedIndex(ratio);
    assert x - 0.5 < n as real <= x + 0.5;
  }

  /** The marker rule: the first, middle (`Math.round(40 / 2)`) and last steps. */
  function IsMarker(stepIndex: nat): bool
  {
    stepIndex == 0 || stepIndex == Round(BarSteps as real / 2.0) || stepIndex == BarSteps
  }

  /** One step element of a bar track as built: which pair, which step, marker or not. */
  datatype StepSlot = StepSlot(pairIndex: nat, stepIndex: nat, marker: bool)

  /** The track of one bar, steps 0 through 40 from left to right. */
  function Track(pairIndex: nat): seq<StepSlot>
  {
    seq(BarSteps + 1, i requires 0 <= i <= BarSteps => StepSlot(pairIndex, i, IsMarker(i)))
  }

  /** A track has 41 steps, numbered in order, and exactly steps 0, 20 and 40 are markers. */
  lemma TrackShape(pairIndex: nat)
    ensures |Track(pairIndex)| == 41
    ensures forall i :: 0 <= i < 41 ==> Track(pairIndex)[i].stepIndex == i && Track(pairIndex)[i].pairIndex == pairIndex
    ensures forall i :: 0 <= i < 41 ==> (Track(pairIndex)[i].marker <==> i == 0 || i == 20 || i == 40)
  {
    RoundUnique(20.0, 20);
  }

  /** How a step is coloured: by the mixer on an argument list, or by a colour as it is. */
  datatype Paint<C> = Mixed(args: seq<(C, real)>) | Plain(color: C)

  /** The mixer's arguments for step `stepIndex` of a bar: each endpoint colour whose share is positive. */
  function StepArgs<C>(first: C, second: C, stepIndex: nat): (args: seq<(C, real)>)
    ensures stepIndex == 0 ==> args == [(first, 1.0)]
    ensures stepIndex == BarSteps ==> args == [(second, 1.0)]
    ensures 0 < stepIndex < BarSteps ==> args == [(first, 1.0 - StepRatio(stepIndex)), (second, StepRatio(stepIndex))]
  {
    var ratioSecond := StepRatio(stepIndex);
    var ratioFirst := 1.0 - ratioSecond;
    (if ratioFirst > 0.0 then [(first, ratioFirst)] else []) + (if ratioSecond > 0.0 then [(second, ratioSecond)] else [])
  }

  /** A step's colour: the mix of its arguments, or the first colour when there are none. */
  function StepPaint<C>(first: C, second: C, stepIndex: nat): Paint<C>
  {
    var args := StepArgs(first, second, stepIndex);
    if |args| > 0 then Mixed(args) else Plain(first)
  }

  /** No step of a bar falls back to the plain first colour, and the shares of every step add up to 1. */
  lemma StepPaintAlwaysMixes<C>(first: C, second: C, stepIndex: nat)
    requires stepIndex <= BarSteps
    ensures StepPaint(first, second, stepIndex).Mixed?
    ensures var args := StepPaint(first, second, stepIndex).args;
            1 <= |args| <= 2 && (if |args| == 1 then args[0].1 else args[0].1 + args[1].1) == 1.0
  {
  }

  /** The ratio readout of a bar: both shares rounded to whole percent, each on its own. */
  function Label(ratio: real): (int, int)
  {
    (Round((1.0 - ratio) * 100.0), Round(ratio * 100.0))
  }

  /** Rounding each share on its own makes the readout add up to 100 or 101, never anything else. */
  lemma LabelSum(ratio: real)
    ensures var l := Label(ratio); l.0 + l.1 == 100 || l.0 + l.1 == 101
  {
  }

  /** At step 20 the readout is 50 : 50. */
  lemma LabelAtMiddle()
    ensures Label(StepRatio(20)) == (50, 50)
  {
    RoundUnique(50.0, 50);
  }

  /** Rounding each share on its own can show 101 in all: step 1 reads 98 : 3. */
  lemma LabelAtStepOne()
    ensures Label(StepRatio(1)) == (98, 3)
    ensures Label(StepRatio(1)).0 + Label(StepRatio(1)).1 == 101
  {
    assert (1.0 - StepRatio(1)) * 100.0 == 97.5;
    assert StepRatio(1) * 100.0 == 2.5;
    RoundUnique(97.5, 98);
    RoundUnique(2.5, 3);
  }

  datatype StepView<C> = StepView(paint: Paint<C>, selected: bool)

  datatype BarView<C> = BarView(active: bool, readout: (int, int), steps: seq<StepView<C>>)

  /** What one bar shows for the given colours, its pair's ratio and the active pair. */
  function RenderBar<C>(colors: seq<C>, pairIndex: nat, ratio: real, activePair: nat): BarView<C>
    requires |colors| == 3 && pairIndex < 3
  {
    var first := colors[PairIndices[pairIndex].0];
    var second := colors[PairIndices[pairIndex].1];
    var selectedIndex := SelectedIndex(ratio);
    BarView(pairIndex == activePair, Label(ratio),
            seq(BarSteps + 1, i requires 0 <= i <= BarSteps => StepView(StepPaint(first, second, i), i == selectedIndex)))
  }

  /** `updateMixBars`: the three bars, in pair order. */
  function RenderBars<C>(colors: seq<C>, ratios: seq<real>, activePair: nat): seq<BarView<C>>
    requires |colors| == 3 && |ratios| == 3
  {
    seq(3, p requires 0 <= p < 3 => RenderBar(colors, p, ratios[p], activePair))
  }

  /**
   * With every ratio in [0, 1] and a valid active pair: exactly the active bar is
   * highlighted; each bar has 41 steps, all mixed from its pair's colours, and
   * exactly one of them, the one at the rounded ratio, is selected.
   */
  lemma RenderBarsSpec<C>(colors: seq<C>, ratios: seq<real>, activePair: nat)
    requires |colors| == 3 && |ratios| == 3 && activePair < 3
    requires forall p :: 0 <= p < 3 ==> 0.0 <= ratios[p] <= 1.0
    ensures |RenderBars(colors, ratios, activePair)| == 3
    ensures forall p :: 0 <= p < 3 ==> (RenderBars(colors, ratios, activePair)[p].active <==> p == activePair)
    ensures forall p :: 0 <= p < 3 ==>
              var bar := RenderBars(colors, ratios, activePair)[p];
              |bar.steps| == BarSteps + 1 &&
              (forall i :: 0 <= i <= BarSteps ==>
                 bar.steps[i].paint == Mixed(StepArgs(colors[PairIndices[p].0], colors[PairIndices[p].1], i))) &&
              0 <= SelectedIndex(ratios[p]) <= BarSteps && bar.steps[SelectedIndex(ratios[p])].selected &&
              (forall i :: 0 <= i <= BarSteps && bar.steps[i].selected ==> i == SelectedIndex(ratios[p]))
  {
    forall p | 0 <= p < 3
      ensures 0 <= SelectedIndex(ratios[p]) <= BarSteps
    {
      SelectedIndexInRange(ratios[p]);
    }
    forall p, i | 0 <= p < 3 && 0 <= i <= BarSteps
      ensures StepPaint(colors[PairIndices[p].0], colors[PairIndices[p].1], i).Mixed?
    {
      StepPaintAlwaysMixes(colors[PairIndices[p].0], colors[PairIndices[p].1], i);
    }
  }

  /** The chosen ratio of each pair (the second colour's share) and which pair is active. */
  class RatioState {
    var ratios: seq<real>
    var activePair: nat

    ghost predicate Valid()
      reads this
    {
      |ratios| == 3 && activePair < 3 && forall p :: 0 <= p < 3 ==> 0.0 <= ratios[p] <= 1.0
    }

    /** Every pair starts at 0.5, with the first pair active. */
    constructor ()
      ensures Valid()
      ensures ratios == [InitialRatio, InitialRatio, InitialRatio] && activePair == 0
    {
      ratios := [InitialRatio, InitialRatio, InitialRatio];
      activePair := 0;
    }

    /** The step of pair `pairIndex` shown as selected. */
    function Selected(pairIndex: nat): (i: int)
      reads this
      requires Valid() && pairIndex < 3
      ensures 0 <= i <= BarSteps
    {
      SelectedIndexInRange(ratios[pairIndex]);
      SelectedIndex(ratios[pairIndex])
    }

    /**
     * `handleBarStepClick`: the clicked pair takes the step's ratio and becomes the
     * active pair; the other pairs keep their ratios; the clicked step is then selected.
     */
    method Click(pairIndex: nat, stepIndex: nat)
      requires Valid() && pairIndex < 3 && stepIndex <= BarSteps
      modifies this
      ensures Valid()
      ensures ratios == old(ratios)[pairIndex := StepRatio(stepIndex)]
      ensures activePair == pairIndex
      ensures forall q :: 0 <= q < 3 && q != pairIndex ==> ratios[q] == old(ratios[q])
      ensures Selected(pairIndex) == stepIndex
    {
      var ratioSecond := StepRatio(stepIndex);
      ratios := ratios[pairIndex := ratioSecond];
      activePair := pairIndex;
      SelectedIndexOfStep(stepIndex);
    }
  }
}
