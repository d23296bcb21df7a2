/**
 * The argument list handed to the spectral mixer: one (colour, weight) pair per
 * colour whose weight is positive, in colour-index order. The mixer itself is not
 * modelled; only the pairs it receives are.
 */
module Mixing {
  import opened Numeric

  /** The `map`/`filter` that pairs colour i with weight i and drops non-positive weights. */
  function MixArgs<C>(colors: seq<C>, weights: seq<real>): (args: seq<(C, real)>)
    requires |weights| <= |colors|
    ensures |args| <= |weights|
    ensures forall k :: 0 <= k < |args| ==> args[k].1 > 0.0
    decreases |weights|
  {
    if |weights| == 0 then []
    else (if weights[0] > 0.0 then [(colors[0], weights[0])] else []) + MixArgs(colors[1..], weights[1..])
  }

  /** How many of the weights are positive. */
  function CountPositive(w: seq<real>): nat
  {
    if |w| == 0 then 0 else (if w[0] > 0.0 then 1 else 0) + CountPositive(w[1..])
  }

  /** The weights in an argument list. */
  function ArgWeights<C>(args: seq<(C, real)>): (ws: seq<real>)
    ensures |ws| == |args| && forall k :: 0 <= k < |args| ==> ws[k] == args[k].1
  {
    seq(|args|, k requires 0 <= k < |args| => args[k].1)
  }

  /**
   * The list holds exactly the colours with positive weight, in index order: its
   * length is the number of positive weights, and colour i with positive weight
   * sits right after the positive-weight colours before it.
   */
  lemma {:induction false} MixArgsExact<C>(colors: seq<C>, weights: seq<real>)
    requires |weights| <= |colors|
    ensures |MixArgs(colors, weights)| == CountPositive(weights)
    ensures forall i :: 0 <= i < |weights| && weights[i] > 0.0 ==>
              CountPositive(weights[..i]) < |MixArgs(colors, weights)| &&
              MixArgs(colors, weights)[CountPositive(weights[..i])] == (colors[i], weights[i])
    decreases |weights|
  {
    if |weights| > 0 {
      var head: seq<(C, real)> := if weights[0] > 0.0 then [(colors[0], weights[0])] else [];
      var tail := MixArgs(colors[1..], weights[1..]);
      assert MixArgs(colors, weights) == head + tail;
      MixArgsExact(colors[1..], weights[1..]);
      forall i | 0 <= i < |weights| && weights[i] > 0.0
        ensures CountPositive(weights[..i]) < |MixArgs(colors, weights)|
        ensures MixArgs(colors, weights)[CountPositive(weights[..i])] == (colors[i], weights[i])
      {
        if i == 0 {
          assert CountPositive(weights[..0]) == 0;
        } else {
          assert weights[..i][1..] == weights[1..][..i - 1];
          assert CountPositive(weights[..i]) == |head| + CountPositive(weights[1..][..i - 1]);
          assert weights[1..][i - 1] == weights[i];
        }
      }
    }
  }

  /** When no weight is negative, the weights handed to the mixer add up to the total weight. */
  lemma {:induction false} MixArgsWeightSum<C>(colors: seq<C>, weights: seq<real>)
    requires |weights| <= |colors|
    requires forall i :: 0 <= i < |weights| ==> weights[i] >= 0.0
    ensures Sum(ArgWeights(MixArgs(colors, weights))) == Sum(weights)
    decreases |weights|
  {
    if |weights| > 0 {
      MixArgsWeightSum(colors[1..], weights[1..]);
      var tail := MixArgs(colors[1..], weights[1..]);
      if weights[0] > 0.0 {
        var args := [(colors[0], weights[0])] + tail;
        assert MixArgs(colors, weights) == args;
        assert ArgWeights(args)[1..] == ArgWeights(tail);
      } else {
        assert MixArgs(colors, weights) == tail;
      }
    }
  }

  /** A list of weights summing to more than zero always hands the mixer at least one colour. */
  lemma {:induction false} MixArgsNonEmpty<C>(colors: seq<C>, weights: seq<real>)
    requires |weights| <= |colors|
    requires Sum(weights) > 0.0
    ensures |MixArgs(colors, weights)| > 0
    decreases |weights|
  {
    if |weights| > 0 && weights[0] <= 0.0 {
      MixArgsNonEmpty(colors[1..], weights[1..]);
    }
  }

  /** For the three colours of the field: colour 0, then 1, then 2, each present exactly when its weight is positive. */
  lemma MixArgsThree<C>(colors: seq<C>, w: seq<real>)
    requires |colors| == 3 && |w| == 3
    ensures MixArgs(colors, w)
         == (if w[0] > 0.0 then [(colors[0], w[0])] else [])
          + (if w[1] > 0.0 then [(colors[1], w[1])] else [])
          + (if w[2] > 0.0 then [(colors[2], w[2])] else [])
  {
    var c1, w1 := colors[1..], w[1..];
    var c2, w2 := c1[1..], w1[1..];
    assert MixArgs(c2[1..], w2[1..]) == [];
    assert MixArgs(c2, w2) == (if w[2] > 0.0 then [(colors[2], w[2])] else []);
    assert MixArgs(c1, w1) == (if w[1] > 0.0 then [(colors[1], w[1])] else []) + MixArgs(c2, w2);
  }
}
