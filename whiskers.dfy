/** Whisker bounds of a box plot: the interquartile-range rule of dc.boxPlot.
    The sample is a group's values, sorted ascending by the box primitive;
    the quartiles are computed by that primitive and are inputs here. */
module Whiskers {

  /** The triple [q1, median, q3] the box primitive attaches to a sample. */
  datatype Quartiles = Quartiles(q1: real, median: real, q3: real)

  /** The IQR multiplier wired into the chart by default. */
  const DefaultIqrFactor: real := 1.5

  /** q1 - (q3 - q1) * k: values strictly below it are low outliers. */
  function LowerFence(q: Quartiles, k: real): real {
    q.q1 - (q.q3 - q.q1) * k
  }

  /** q3 + (q3 - q1) * k: values strictly above it are high outliers. */
  function UpperFence(q: Quartiles, k: real): real {
    q.q3 + (q.q3 - q.q1) * k
  }

  ghost predicate Ascending(d: seq<real>) {
    forall s, t :: 0 <= s <= t < |d| ==> d[s] <= d[t]
  }

  /** i is where the forward scan stops: every value before it is below the
      lower fence and, unless the scan ran off the end, d[i] is not. */
  ghost predicate ForwardStop(d: seq<real>, lower: real, i: int) {
    0 <= i <= |d| &&
    (forall t :: 0 <= t < i ==> d[t] < lower) &&
    (i < |d| ==> d[i] >= lower)
  }

  /** j is where the backward scan stops: every value after it is above the
      upper fence and, unless the scan ran off the start, d[j] is not. */
  ghost predicate BackwardStop(d: seq<real>, upper: real, j: int) {
    -1 <= j < |d| &&
    (forall t :: j < t < |d| ==> d[t] > upper) &&
    (j >= 0 ==> d[j] <= upper)
  }

  /** The whisker function built by DEFAULT_WHISKERS_IQR(k), applied to a
      sample d with quartiles q. The two do-while loops of the source read
      past the ends of d when every value is outside a fence; such a read
      yields undefined, which compares false, so the scans stop at |d| and
      at -1. The loop guards below are exactly those stops. */
  method WhiskersIqr(d: seq<real>, q: Quartiles, k: real) returns (i: int, j: int)
    ensures ForwardStop(d, LowerFence(q, k), i)
    ensures BackwardStop(d, UpperFence(q, k), j)
    ensures i == |d| <==> forall t :: 0 <= t < |d| ==> d[t] < LowerFence(q, k)
    ensures j == -1 <==> forall t :: 0 <= t < |d| ==> d[t] > UpperFence(q, k)
  {
    var lower, upper := LowerFence(q, k), UpperFence(q, k);
    i := 0;
    while i < |d| && d[i] < lower
      invariant 0 <= i <= |d|
      invariant forall t :: 0 <= t < i ==> d[t] < lower
    {
      i := i + 1;
    }
    j := |d| - 1;
    while j >= 0 && d[j] > upper
      invariant -1 <= j < |d|
      invariant forall t :: j < t < |d| ==> d[t] > upper
    {
      j := j - 1;
    }
  }

  /** The chart's whisker function: the IQR rule with the default factor. */
  method DefaultWhiskers(d: seq<real>, q: Quartiles) returns (i: int, j: int)
    ensures ForwardStop(d, q.q1 - (q.q3 - q.q1) * 1.5, i)
    ensures BackwardStop(d, q.q3 + (q.q3 - q.q1) * 1.5, j)
  {
    i, j := WhiskersIqr(d, q, DefaultIqrFactor);
  }

  /** Each scan has exactly one possible stop for a given sample and fence. */
  lemma ForwardStopUnique(d: seq<real>, lower: real, i: int, i': int)
    requires ForwardStop(d, lower, i) && ForwardStop(d, lower, i')
    ensures i == i'
  {
  }

  lemma BackwardStopUnique(d: seq<real>, upper: real, j: int, j': int)
    requires BackwardStop(d, upper, j) && BackwardStop(d, upper, j')
    ensures j == j'
  {
  }

  /** With non-negative k and q1 <= q3 the fences enclose [q1, q3]. */
  lemma FencesEncloseQuartiles(q: Quartiles, k: real)
    requires q.q1 <= q.q3 && k >= 0.0
    ensures LowerFence(q, k) <= q.q1 && q.q3 <= UpperFence(q, k)
  {
    assert (q.q3 - q.q1) * k >= 0.0;
  }

  /** On an ascending sample, every value between the two stops is inside
      the fences: the whiskers never span an outlier. */
  lemma WhiskerWindow(d: seq<real>, lower: real, upper: real, i: int, j: int)
    requires Ascending(d)
    requires ForwardStop(d, lower, i) && BackwardStop(d, upper, j)
    ensures forall t :: i <= t <= j ==> lower <= d[t] <= upper
  {
    forall t | i <= t <= j
      ensures lower <= d[t] <= upper
    {
      assert d[i] <= d[t] <= d[j];
    }
  }

  /** On an ascending sample, the window [i, j] is non-empty exactly when some
      value lies inside the fences; otherwise the stops cross. */
  lemma WindowNonEmptyIff(d: seq<real>, lower: real, upper: real, i: int, j: int)
    requires Ascending(d)
    requires ForwardStop(d, lower, i) && BackwardStop(d, upper, j)
    ensures i <= j <==> exists t :: 0 <= t < |d| && lower <= d[t] <= upper
  {
    if i <= j {
      assert d[i] <= d[j];
      assert lower <= d[i] <= upper;
    }
  }

  /** On an ascending sample with ordered fences the scans never overlap:
      the low outliers and the high outliers are disjoint. */
  lemma StopsDoNotOverlap(d: seq<real>, lower: real, upper: real, i: int, j: int)
    requires Ascending(d) && lower <= upper
    requires ForwardStop(d, lower, i) && BackwardStop(d, upper, j)
    ensures i <= j + 1
  {
    if j + 1 < |d| {
      assert d[j + 1] > upper >= lower;
    }
  }

  /** The worked example: [1, 2, 3, 4, 5, 100] with quartiles (2, 3, 4) and
      k = 1.5 has fences [-1, 7], so the whiskers span indices 0 to 4. */
  lemma WorkedExample(i: int, j: int)
    requires ForwardStop([1.0, 2.0, 3.0, 4.0, 5.0, 100.0], LowerFence(Quartiles(2.0, 3.0, 4.0), DefaultIqrFactor), i)
    requires BackwardStop([1.0, 2.0, 3.0, 4.0, 5.0, 100.0], UpperFence(Quartiles(2.0, 3.0, 4.0), DefaultIqrFactor), j)
    ensures i == 0 && j == 4
  {
    var d := [1.0, 2.0, 3.0, 4.0, 5.0, 100.0];
    ForwardStopUnique(d, -1.0, i, 0);
    BackwardStopUnique(d, 7.0, j, 4);
  }

  /** When every value is below the lower fence, the scans stop past both
      ends: i is |d| and j is |d| - 1, so no index is clamped into range. */
  lemma AllBelowFence(d: seq<real>, q: Quartiles, k: real, i: int, j: int)
    requires q.q1 <= q.q3 && k >= 0.0
    requires forall t :: 0 <= t < |d| ==> d[t] < LowerFence(q, k)
    requires ForwardStop(d, LowerFence(q, k), i) && BackwardStop(d, UpperFence(q, k), j)
    ensures i == |d| && j == |d| - 1
  {
    FencesEncloseQuartiles(q, k);
    ForwardStopUnique(d, LowerFence(q, k), i, |d|);
    if |d| > 0 {
      assert d[|d| - 1] <= UpperFence(q, k);
      BackwardStopUnique(d, UpperFence(q, k), j, |d| - 1);
    } else {
      BackwardStopUnique(d, UpperFence(q, k), j, -1);
    }
  }

  /** When the quartiles lie within the range of the sample, as those the box
      primitive computes from it do, and k is non-negative, neither scan runs
      off the sample: both stops are indices of d. */
  lemma StopsInRange(d: seq<real>, q: Quartiles, k: real, i: int, j: int)
    requires |d| > 0 && d[0] <= q.q1 <= q.q3 <= d[|d| - 1] && k >= 0.0
    requires ForwardStop(d, LowerFence(q, k), i) && BackwardStop(d, UpperFence(q, k), j)
    ensures 0 <= i < |d| && 0 <= j < |d|
  {
    FencesEncloseQuartiles(q, k);
    assert d[|d| - 1] >= LowerFence(q, k);
    assert d[0] <= UpperFence(q, k);
  }
}
