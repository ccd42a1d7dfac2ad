/**
 * Distances along the supporting plane: between two fits (`fitDistance`)
 * and between a fit and the points of a cluster (`fitClusterDistance`).
 * Only the x and y components of positions take part; z is ignored because
 * objects are taken to rest on a common table plane.
 *
 * The model works with SQUARED distances so that no square root is needed.
 * The merge test "distance < threshold" is `Close`, which agrees with the
 * square-root comparison for every threshold (see `CloseIffBelowThreshold`).
 */
module FitDistance {
  import opened Geometry
  import opened RealArith

  /** Square of `fitDistance(m1, m2)`. */
  function PlanarDistanceSq(m1: ModelFitInfo, m2: ModelFitInfo): real
  {
    SumOfSquares(m1.pose.position.x - m2.pose.position.x, m1.pose.position.y - m2.pose.position.y)
  }

  function SumOfSquares(dx: real, dy: real): real
  {
    dx * dx + dy * dy
  }

  /** `fit_merge_threshold_` as the recognizer's constructor sets it. */
  const DefaultFitMergeThreshold: real := 0.02

  /** `fitDistance(m1, m2) < threshold`, stated without the square root. */
  predicate Close(m1: ModelFitInfo, m2: ModelFitInfo, threshold: real)
  {
    0.0 < threshold && PlanarDistanceSq(m1, m2) < threshold * threshold
  }

  /** The squared planar distance is never negative, and is zero when the x/y positions coincide. */
  lemma PlanarDistanceSqNonNegative(m1: ModelFitInfo, m2: ModelFitInfo)
    ensures 0.0 <= PlanarDistanceSq(m1, m2)
    ensures m1.pose.position.x == m2.pose.position.x && m1.pose.position.y == m2.pose.position.y ==>
              PlanarDistanceSq(m1, m2) == 0.0
  {
    SquareNonNegative(m1.pose.position.x - m2.pose.position.x);
    SquareNonNegative(m1.pose.position.y - m2.pose.position.y);
  }

  /** The distance, and so the merge test, does not depend on the order of the two fits. */
  lemma PlanarDistanceSqSymmetric(m1: ModelFitInfo, m2: ModelFitInfo, threshold: real)
    ensures PlanarDistanceSq(m1, m2) == PlanarDistanceSq(m2, m1)
    ensures Close(m1, m2, threshold) == Close(m2, m1, threshold)
  {
  }

  /** Model ids, scores, heights and orientations play no part in the distance. */
  lemma PlanarDistanceSqOnlyReadsXY(m1: ModelFitInfo, m1': ModelFitInfo, m2: ModelFitInfo)
    requires m1.pose.position.x == m1'.pose.position.x && m1.pose.position.y == m1'.pose.position.y
    ensures PlanarDistanceSq(m1, m2) == PlanarDistanceSq(m1', m2)
    ensures PlanarDistanceSq(m2, m1) == PlanarDistanceSq(m2, m1')
  {
  }

  /**
   * Comparing squares is the same as comparing `sqrt(d)` with the threshold:
   * for any non-negative `dist` whose square is the squared planar distance,
   * `Close` holds exactly when `dist < threshold`, whatever the sign of the threshold.
   */
  lemma CloseIffBelowThreshold(m1: ModelFitInfo, m2: ModelFitInfo, threshold: real, dist: real)
    requires 0.0 <= dist && dist * dist == PlanarDistanceSq(m1, m2)
    ensures Close(m1, m2, threshold) <==> dist < threshold
  {
    if 0.0 < threshold {
      if dist < threshold {
        SquareMonotone(dist, threshold);
      } else {
        SquareMonotoneWeak(threshold, dist);
      }
    }
  }

  /** Squared planar distance from a cluster point to a fit position. */
  function PointDistanceSq(p: Point, m: ModelFitInfo): real
  {
    SumOfSquares(p.x - m.pose.position.x, p.y - m.pose.position.y)
  }

  /** The starting value of `fitClusterDistance`: 100 squared. */
  const NoPointDistanceSq: real := 100.0 * 100.0

  /**
   * `fitClusterDistance` before its final square root: the least squared
   * planar distance from a point of the cluster to the fit's position,
   * capped at 100 squared (which is also the answer for an empty cluster).
   */
  method FitClusterDistanceSq(m: ModelFitInfo, cluster: seq<Point>) returns (dist: real)
    ensures dist <= NoPointDistanceSq
    ensures forall k :: 0 <= k < |cluster| ==> dist <= PointDistanceSq(cluster[k], m)
    ensures dist == NoPointDistanceSq || exists k :: 0 <= k < |cluster| && dist == PointDistanceSq(cluster[k], m)
    ensures cluster == [] ==> dist == NoPointDistanceSq
  {
    dist := 100.0 * 100.0;
    var mx := m.pose.position.x;
    var my := m.pose.position.y;
    for i := 0 to |cluster|
      invariant dist <= NoPointDistanceSq
      invariant forall k :: 0 <= k < i ==> dist <= PointDistanceSq(cluster[k], m)
      invariant dist == NoPointDistanceSq || exists k :: 0 <= k < i && dist == PointDistanceSq(cluster[k], m)
    {
      var dx := cluster[i].x - mx;
      var dy := cluster[i].y - my;
      var d := dx * dx + dy * dy;
      assert d == PointDistanceSq(cluster[i], m);
      dist := if d < dist then d else dist;
    }
  }
}
