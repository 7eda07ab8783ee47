/** The smoothing filter shared by `GPSTrackSegment.filter_by_smoothing_interval` (gps_track.py) and
    `GPXtoOBJ._get_track_points` (gpx_to_obj.py): keep the first point, then keep a later point only
    when its distance from the most recently kept point is strictly greater than the interval.
    The distance is the caller's geodesic, an arbitrary function here. */
module Smoothing {
  import Seqs

  /** The positions of the points the filter keeps, built the way the loop builds them: point by point. */
  function KeptIndices<T>(points: seq<T>, interval: real, dist: (T, T) -> real): (ix: seq<nat>)
    requires |points| > 0
    ensures 1 <= |ix| <= |points| && ix[0] == 0 && ix[|ix| - 1] < |points|
    decreases |points|
  {
    if |points| == 1 then [0]
    else
      var prev := KeptIndices(points[..|points| - 1], interval, dist);
      var i := |points| - 1;
      if dist(points[prev[|prev| - 1]], points[i]) > interval then prev + [i] else prev
  }

  /** The kept points themselves, built the way the loop builds its list: point by point, comparing
      each new point with the last one kept so far. */
  function Smoothed<T>(points: seq<T>, interval: real, dist: (T, T) -> real): (kept: seq<T>)
    requires |points| > 0
    ensures |kept| >= 1
    decreases |points|
  {
    if |points| == 1 then [points[0]]
    else
      var prev := Smoothed(points[..|points| - 1], interval, dist);
      var last := points[|points| - 1];
      if dist(prev[|prev| - 1], last) > interval then prev + [last] else prev
  }

  /** The kept positions are increasing positions of the points, starting with the first. */
  lemma {:induction false} KeptIndicesOrdered<T>(points: seq<T>, interval: real, dist: (T, T) -> real)
    requires |points| > 0
    ensures Selection(points, KeptIndices(points, interval, dist))
    decreases |points|
  {
    if |points| > 1 {
      var front := points[..|points| - 1];
      KeptIndicesOrdered(front, interval, dist);
    }
  }

  /** The kept points are the points at the kept positions, in order. */
  lemma {:induction false} SmoothedSelects<T>(points: seq<T>, interval: real, dist: (T, T) -> real)
    requires |points| > 0
    ensures var kept := Smoothed(points, interval, dist);
            var ix := KeptIndices(points, interval, dist);
            && Selection(points, ix)
            && |kept| == |ix| && forall k :: 0 <= k < |kept| ==> kept[k] == points[ix[k]]
    decreases |points|
  {
    KeptIndicesOrdered(points, interval, dist);
    if |points| > 1 {
      var front := points[..|points| - 1];
      KeptIndicesOrdered(front, interval, dist);
      SmoothedSelects(front, interval, dist);
      var prev := Smoothed(front, interval, dist);
      var ix := KeptIndices(front, interval, dist);
      assert forall k :: 0 <= k < |prev| ==> prev[k] == points[ix[k]];
    }
  }

  predicate Increasing(ix: seq<nat>)
  {
    forall k :: 0 < k < |ix| ==> ix[k - 1] < ix[k]
  }

  /** ix selects positions of points in order, starting with the first. */
  ghost predicate Selection<T>(points: seq<T>, ix: seq<nat>)
  {
    && |ix| >= 1 && ix[0] == 0
    && (forall k :: 0 <= k < |ix| ==> ix[k] < |points|)
    && Increasing(ix)
  }

  /** Each selected point is farther than the interval from the selected point before it. */
  ghost predicate Spaced<T>(points: seq<T>, ix: seq<nat>, interval: real, dist: (T, T) -> real)
    requires Selection(points, ix)
  {
    forall k :: 0 < k < |ix| ==> dist(points[ix[k - 1]], points[ix[k]]) > interval
  }

  /** Each point left out is within the interval of the last selected point before it. */
  ghost predicate Covered<T>(points: seq<T>, ix: seq<nat>, interval: real, dist: (T, T) -> real)
    requires Selection(points, ix)
  {
    forall k, i :: 0 <= k < |ix| && ix[k] < i < |points| && (k + 1 < |ix| ==> i < ix[k + 1]) ==>
      dist(points[ix[k]], points[i]) <= interval
  }

  /** A description of the filter's result that does not follow the loop: an order-preserving
      selection starting at the first point, spaced by more than the interval, and covering every
      dropped point within the interval. */
  ghost predicate IsSmoothing<T>(points: seq<T>, ix: seq<nat>, interval: real, dist: (T, T) -> real)
  {
    Selection(points, ix) && Spaced(points, ix, interval, dist) && Covered(points, ix, interval, dist)
  }

  lemma {:induction false} IncreasingBelowLast(ix: seq<nat>, k: nat)
    requires k < |ix| && Increasing(ix)
    ensures ix[k] <= ix[|ix| - 1]
    ensures k < |ix| - 1 ==> ix[k] < ix[|ix| - 1]
    decreases |ix| - k
  {
    if k < |ix| - 1 {
      IncreasingBelowLast(ix, k + 1);
    }
  }

  /** One more point that is far enough from the last selected one extends a smoothing by it. */
  lemma {:induction false} SmoothingExtendKept<T>(points: seq<T>, prev: seq<nat>, interval: real, dist: (T, T) -> real)
    requires |points| >= 2
    requires IsSmoothing(points[..|points| - 1], prev, interval, dist)
    requires dist(points[prev[|prev| - 1]], points[|points| - 1]) > interval
    ensures IsSmoothing(points, prev + [|points| - 1], interval, dist)
  {
    var n := |points|;
    var front := points[..n - 1];
    var ix := prev + [n - 1];
    assert forall j :: 0 <= j < n - 1 ==> front[j] == points[j];
    assert Selection(points, ix);
    assert Spaced(points, ix, interval, dist) by {
      forall k | 0 < k < |ix| ensures dist(points[ix[k - 1]], points[ix[k]]) > interval {
        if k < |prev| {
          assert front[prev[k - 1]] == points[ix[k - 1]] && front[prev[k]] == points[ix[k]];
        }
      }
    }
    assert Covered(points, ix, interval, dist) by {
      forall k, i | 0 <= k < |ix| && ix[k] < i < n && (k + 1 < |ix| ==> i < ix[k + 1])
        ensures dist(points[ix[k]], points[i]) <= interval
      {
        assert k < |prev| && i < n - 1;
        assert ix[k] == prev[k];
        if k + 1 < |prev| {
          assert ix[k + 1] == prev[k + 1];
        }
        assert dist(front[prev[k]], front[i]) <= interval;
        assert front[prev[k]] == points[ix[k]] && front[i] == points[i];
      }
    }
  }

  /** One more point within the interval of the last selected one leaves a smoothing as it is. */
  lemma {:induction false} SmoothingExtendDropped<T>(points: seq<T>, prev: seq<nat>, interval: real, dist: (T, T) -> real)
    requires |points| >= 2
    requires IsSmoothing(points[..|points| - 1], prev, interval, dist)
    requires dist(points[prev[|prev| - 1]], points[|points| - 1]) <= interval
    ensures IsSmoothing(points, prev, interval, dist)
  {
    var n := |points|;
    var front := points[..n - 1];
    assert forall j :: 0 <= j < n - 1 ==> front[j] == points[j];
    assert Selection(points, prev);
    assert Spaced(points, prev, interval, dist) by {
      forall k | 0 < k < |prev| ensures dist(points[prev[k - 1]], points[prev[k]]) > interval {
        assert front[prev[k - 1]] == points[prev[k - 1]] && front[prev[k]] == points[prev[k]];
      }
    }
    assert Covered(points, prev, interval, dist) by {
      forall k, i | 0 <= k < |prev| && prev[k] < i < n && (k + 1 < |prev| ==> i < prev[k + 1])
        ensures dist(points[prev[k]], points[i]) <= interval
      {
        if i < n - 1 {
          assert front[prev[k]] == points[prev[k]] && front[i] == points[i];
        } else {
          assert k == |prev| - 1;
        }
      }
    }
  }

  lemma {:induction false} KeptIndicesIsSmoothing<T>(points: seq<T>, interval: real, dist: (T, T) -> real)
    requires |points| > 0
    ensures IsSmoothing(points, KeptIndices(points, interval, dist), interval, dist)
    decreases |points|
  {
    if |points| > 1 {
      var n := |points|;
      var front := points[..n - 1];
      KeptIndicesIsSmoothing(front, interval, dist);
      var prev := KeptIndices(front, interval, dist);
      assert front[prev[|prev| - 1]] == points[prev[|prev| - 1]];
      if dist(points[prev[|prev| - 1]], points[n - 1]) > interval {
        SmoothingExtendKept(points, prev, interval, dist);
      } else {
        SmoothingExtendDropped(points, prev, interval, dist);
      }
    }
  }

  /** How many entries of an increasing sequence lie below j. */
  function CountBelow(ix: seq<nat>, j: nat): (m: nat)
    requires Increasing(ix)
    ensures m <= |ix|
    ensures forall k :: 0 <= k < m ==> ix[k] < j
    ensures forall k :: m <= k < |ix| ==> ix[k] >= j
  {
    if |ix| == 0 then 0
    else if ix[|ix| - 1] < j then
      assert forall k :: 0 <= k < |ix| ==> ix[k] <= ix[|ix| - 1] by {
        forall k | 0 <= k < |ix| ensures ix[k] <= ix[|ix| - 1] { IncreasingBelowLast(ix, k); }
      }
      |ix|
    else CountBelow(ix[..|ix| - 1], j)
  }

  /** The part of a smoothing that lies in a prefix of the points is a smoothing of that prefix. */
  lemma {:induction false} SmoothingPrefix<T>(points: seq<T>, ix: seq<nat>, j: nat, interval: real, dist: (T, T) -> real)
    requires 1 <= j <= |points|
    requires IsSmoothing(points, ix, interval, dist)
    ensures IsSmoothing(points[..j], ix[..CountBelow(ix, j)], interval, dist)
  {
    PrefixSpaced(points, ix, j, interval, dist);
    PrefixCovered(points, ix, j, interval, dist);
  }

  lemma {:induction false} PrefixSelection<T>(points: seq<T>, ix: seq<nat>, j: nat)
    requires 1 <= j <= |points|
    requires Selection(points, ix)
    ensures Selection(points[..j], ix[..CountBelow(ix, j)])
  {
    var pre := ix[..CountBelow(ix, j)];
    assert ix[0] < j;
    assert forall k :: 0 <= k < |pre| ==> pre[k] == ix[k] && pre[k] < j;
  }

  lemma {:induction false} PrefixSpaced<T>(points: seq<T>, ix: seq<nat>, j: nat, interval: real, dist: (T, T) -> real)
    requires 1 <= j <= |points|
    requires Selection(points, ix) && Spaced(points, ix, interval, dist)
    ensures Selection(points[..j], ix[..CountBelow(ix, j)])
    ensures Spaced(points[..j], ix[..CountBelow(ix, j)], interval, dist)
  {
    PrefixSelection(points, ix, j);
    var pre := ix[..CountBelow(ix, j)];
    var front := points[..j];
    forall k | 0 < k < |pre| ensures dist(front[pre[k - 1]], front[pre[k]]) > interval {
      assert pre[k - 1] == ix[k - 1] && pre[k] == ix[k];
      assert front[pre[k - 1]] == points[ix[k - 1]] && front[pre[k]] == points[ix[k]];
    }
  }

  lemma {:induction false} PrefixCovered<T>(points: seq<T>, ix: seq<nat>, j: nat, interval: real, dist: (T, T) -> real)
    requires 1 <= j <= |points|
    requires Selection(points, ix) && Covered(points, ix, interval, dist)
    ensures Selection(points[..j], ix[..CountBelow(ix, j)])
    ensures Covered(points[..j], ix[..CountBelow(ix, j)], interval, dist)
  {
    PrefixSelection(points, ix, j);
    var m := CountBelow(ix, j);
    var pre := ix[..m];
    var front := points[..j];
    forall k, i | 0 <= k < |pre| && pre[k] < i < |front| && (k + 1 < |pre| ==> i < pre[k + 1])
      ensures dist(front[pre[k]], front[i]) <= interval
    {
      assert pre[k] == ix[k];
      assert front[pre[k]] == points[ix[k]] && front[i] == points[i];
      if k + 1 < |ix| {
        if k + 1 < m {
          assert pre[k + 1] == ix[k + 1];
        } else {
          assert ix[k + 1] >= j;
        }
        assert i < ix[k + 1];
      }
      assert dist(points[ix[k]], points[i]) <= interval;
    }
  }

  lemma {:induction false} SmoothingIsKeptIndices<T>(points: seq<T>, ix: seq<nat>, interval: real, dist: (T, T) -> real)
    requires |points| > 0
    requires IsSmoothing(points, ix, interval, dist)
    ensures ix == KeptIndices(points, interval, dist)
    decreases |points|
  {
    var n := |points|;
    if n > 1 {
      var front := points[..n - 1];
      var m := CountBelow(ix, n - 1);
      SmoothingPrefix(points, ix, n - 1, interval, dist);
      SmoothingIsKeptIndices(front, ix[..m], interval, dist);
      var prev := KeptIndices(front, interval, dist);
      assert prev == ix[..m];
      assert KeptIndices(points, interval, dist) ==
        if dist(points[prev[|prev| - 1]], points[n - 1]) > interval then prev + [n - 1] else prev;
      LastSelectedStep(points, ix, m, interval, dist);
    }
  }

  /** The step of SmoothingIsKeptIndices: whether the last point is selected decides the extension. */
  lemma {:induction false} LastSelectedStep<T>(points: seq<T>, ix: seq<nat>, m: nat, interval: real, dist: (T, T) -> real)
    requires |points| >= 2
    requires IsSmoothing(points, ix, interval, dist)
    requires m == CountBelow(ix, |points| - 1)
    ensures 1 <= m
    ensures m < |ix| ==> ix == ix[..m] + [|points| - 1] && dist(points[ix[m - 1]], points[|points| - 1]) > interval
    ensures m == |ix| ==> ix == ix[..m] && dist(points[ix[m - 1]], points[|points| - 1]) <= interval
  {
    var n := |points|;
    assert ix[0] < n - 1;
    if m < |ix| {
      assert ix[m] == n - 1;
      assert ix == ix[..m] + [n - 1];
    } else {
      assert ix[m - 1] < n - 1;
    }
  }

  /** The filter's result is the one and only selection with the properties of IsSmoothing. */
  lemma {:induction false} KeptIndicesCharacterized<T>(points: seq<T>, ix: seq<nat>, interval: real, dist: (T, T) -> real)
    requires |points| > 0
    ensures IsSmoothing(points, ix, interval, dist) <==> ix == KeptIndices(points, interval, dist)
  {
    if IsSmoothing(points, ix, interval, dist) {
      SmoothingIsKeptIndices(points, ix, interval, dist);
    }
    if ix == KeptIndices(points, interval, dist) {
      KeptIndicesIsSmoothing(points, interval, dist);
    }
  }

  /** Filtering a prefix of the points keeps exactly the kept positions that lie in that prefix. */
  lemma {:induction false} KeptPrefix<T>(points: seq<T>, j: nat, interval: real, dist: (T, T) -> real)
    requires 1 <= j <= |points|
    ensures var ix := KeptIndices(points, interval, dist);
            Increasing(ix) && KeptIndices(points[..j], interval, dist) == ix[..CountBelow(ix, j)]
  {
    var ix := KeptIndices(points, interval, dist);
    KeptIndicesOrdered(points, interval, dist);
    KeptIndicesIsSmoothing(points, interval, dist);
    SmoothingPrefix(points, ix, j, interval, dist);
    SmoothingIsKeptIndices(points[..j], ix[..CountBelow(ix, j)], interval, dist);
  }

  lemma {:induction false} InPrefixIff(ix: seq<nat>, j: nat, i: nat)
    requires Increasing(ix) && i < j
    ensures i in ix <==> i in ix[..CountBelow(ix, j)]
  {
    if i in ix {
      var k :| 0 <= k < |ix| && ix[k] == i;
      assert k < CountBelow(ix, j);
      assert ix[..CountBelow(ix, j)][k] == i;
    }
  }

  /** One filtering step: the positions kept among the first i + 1 points extend those kept among the first i. */
  lemma {:induction false} KeptStep<T>(points: seq<T>, i: nat, interval: real, dist: (T, T) -> real)
    requires 1 <= i < |points|
    ensures var before := KeptIndices(points[..i], interval, dist);
            KeptIndices(points[..i + 1], interval, dist) ==
              if dist(points[before[|before| - 1]], points[i]) > interval then before + [i] else before
  {
    var front := points[..i + 1];
    Seqs.TakeTake(points, i, i + 1);
    var before := KeptIndices(points[..i], interval, dist);
    assert front[before[|before| - 1]] == points[before[|before| - 1]] && front[i] == points[i];
  }

  /** One filtering step on the kept points themselves: the loop's `append`. */
  lemma {:induction false} SmoothedStep<T>(points: seq<T>, i: nat, interval: real, dist: (T, T) -> real)
    requires 1 <= i < |points|
    ensures var before := Smoothed(points[..i], interval, dist);
            Smoothed(points[..i + 1], interval, dist) ==
              if dist(before[|before| - 1], points[i]) > interval then before + [points[i]] else before
  {
    Seqs.TakeTake(points, i, i + 1);
  }

  /** The loop's decision restated: a point after the first is kept exactly when its distance from
      the last point kept before it exceeds the interval. */
  lemma {:induction false} KeptIff<T>(points: seq<T>, i: nat, interval: real, dist: (T, T) -> real)
    requires 1 <= i < |points|
    ensures var before := KeptIndices(points[..i], interval, dist);
            i in KeptIndices(points, interval, dist) <==>
              dist(points[before[|before| - 1]], points[i]) > interval
  {
    KeptInPrefix(points, i, interval, dist);
    KeptAtStep(points, i, interval, dist);
  }

  /** Point i is kept from all the points exactly when it is kept from the first i + 1 of them. */
  lemma {:induction false} KeptInPrefix<T>(points: seq<T>, i: nat, interval: real, dist: (T, T) -> real)
    requires 1 <= i < |points|
    ensures i in KeptIndices(points, interval, dist) <==> i in KeptIndices(points[..i + 1], interval, dist)
  {
    var ix := KeptIndices(points, interval, dist);
    KeptPrefix(points, i + 1, interval, dist);
    InPrefixIff(ix, i + 1, i);
  }

  /** The step that reaches point i keeps it exactly when it is far enough from the last kept point. */
  lemma {:induction false} KeptAtStep<T>(points: seq<T>, i: nat, interval: real, dist: (T, T) -> real)
    requires 1 <= i < |points|
    ensures var before := KeptIndices(points[..i], interval, dist);
            i in KeptIndices(points[..i + 1], interval, dist) <==>
              dist(points[before[|before| - 1]], points[i]) > interval
  {
    var before := KeptIndices(points[..i], interval, dist);
    KeptStep(points, i, interval, dist);
    KeptIndicesOrdered(points[..i], interval, dist);
    assert i !in before;
  }
}
