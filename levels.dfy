/**
 * The level arithmetic shared by the recording display and the monitor
 * meters: sums of squares, mean squares and peaks over a window of
 * normalised samples. Samples are reals; the square root that turns a mean
 * square into an RMS value is not part of this model.
 */
module Levels {

  function Abs(x: real): (r: real)
    ensures r >= 0.0 && (r == x || r == -x)
  {
    if x < 0.0 then -x else x
  }

  function Max(a: real, b: real): real
  {
    if a >= b then a else b
  }

  /** Sum of the squared samples, accumulated front to back as an iterator `sum` does. */
  function SumSquares(s: seq<real>): (r: real)
    ensures r >= 0.0
  {
    if s == [] then 0.0 else SumSquares(s[..|s| - 1]) + s[|s| - 1] * s[|s| - 1]
  }

  /** Mean of the squared samples of a non-empty window. */
  function MeanSquare(s: seq<real>): (r: real)
    requires |s| > 0
    ensures r >= 0.0
  {
    SumSquares(s) / |s| as real
  }

  /**
   * Largest magnitude in a non-empty window, folded front to back as an
   * iterator `max_by` does: never negative, at least every sample's
   * magnitude, and equal to one of them.
   */
  function Peak(s: seq<real>): (r: real)
    requires |s| > 0
    ensures r >= 0.0
    ensures forall i | 0 <= i < |s| :: Abs(s[i]) <= r
    ensures exists i | 0 <= i < |s| :: r == Abs(s[i])
  {
    if |s| == 1 then Abs(s[0])
    else
      var r := Max(Peak(s[..|s| - 1]), Abs(s[|s| - 1]));
      assert forall i | 0 <= i < |s| - 1 :: s[..|s| - 1][i] == s[i];
      r
  }

  predicate AllZero(s: seq<real>)
  {
    forall i | 0 <= i < |s| :: s[i] == 0.0
  }

  /** A silent window has zero energy. */
  lemma {:induction false} SilentSumSquares(s: seq<real>)
    requires AllZero(s)
    ensures SumSquares(s) == 0.0
  {
    if s != [] {
      SilentSumSquares(s[..|s| - 1]);
    }
  }

  /** A silent window has mean square 0 and peak 0. */
  lemma SilentLevel(s: seq<real>)
    requires |s| > 0 && AllZero(s)
    ensures MeanSquare(s) == 0.0 && Peak(s) == 0.0
  {
    SilentSumSquares(s);
  }
}
