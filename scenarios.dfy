/**
 * Whole-loop consequences of the merge loop on small inputs: two
 * clusters with close fits end as one, two with distant fits stay apart,
 * and the loop's output is not always a fixed point of the loop.
 */
module Scenarios {
  import opened Geometry
  import opened FitDistance
  import opened FitMerge
  import opened Aggregation

  /** A fit of model 0 with score 1 at (x, y) on the table plane. */
  function FitAt(x: real, y: real): ModelFitInfo
  {
    ModelFitInfo(0, Pose(Point(x, y, 0.0), Quaternion(0.0, 0.0, 0.0, 1.0)), 1.0)
  }

  /** With the default threshold (0.02), fits at (0, 0) and (0.01, 0.01) are close; at (0, 0) and (0.05, 0) they are not. */
  lemma DefaultThresholdExamples()
    ensures Close(FitAt(0.0, 0.0), FitAt(0.01, 0.01), DefaultFitMergeThreshold)
    ensures !Close(FitAt(0.0, 0.0), FitAt(0.05, 0.0), DefaultFitMergeThreshold)
  {
  }

  /**
   * Two clusters whose top fits are close end as one: cluster 1 points at
   * cluster 0, cluster 0 holds both point lists and the fit of their union,
   * and the only possible result is cluster 0's, built from the re-fit: if
   * the re-fit finds nothing or falls below the cutoff, nothing is reported.
   */
  lemma TwoCloseClustersMerge(env: MergeEnv, a: seq<Point>, b: seq<Point>, cutoff: real)
    requires |env.search| == 2
    requires Refit(env, a, 0) != [] && Refit(env, b, 1) != []
    requires Close(Refit(env, a, 0)[0], Refit(env, b, 1)[0], env.threshold)
    ensures var r := DetectionState(env, [a, b], true);
      && r.root == [0, 0]
      && r.clusters == [a + b, b]
      && r.fits == [Refit(env, a + b, 0), []]
      && Aggregate(r, cutoff, 2) == (if Reported(r, cutoff, 0) then [ResultFor(r, 0)] else [])
      && (forall p :: 0 <= p < |Aggregate(r, cutoff, 2)| ==> Aggregate(r, cutoff, 2)[p].cloud == a + b)
  {
    var s0 := InitialState(env, [a, b]);
    assert IsPartner(s0, env, 0, 1);
    assert FindPartner(s0, env, 0, 1) == 1;
    var s1 := Absorb(s0, env, 0, 1);
    assert s1.root == [0, 0] && s1.clusters == [a + b, b] && s1.fits == [Refit(env, a + b, 0), []];
    assert MergeFrom(s0, env, 0) == MergeFrom(s1, env, 0);
    NoCloseRootsIsFixedPoint(s1, env, 0);
  }

  /**
   * Two clusters whose top fits are not close stay apart: the merge loop
   * changes nothing, so each can be reported on its own.
   */
  lemma TwoDistantClustersStayApart(env: MergeEnv, a: seq<Point>, b: seq<Point>)
    requires |env.search| == 2
    requires Refit(env, a, 0) != [] && Refit(env, b, 1) != []
    requires !Close(Refit(env, a, 0)[0], Refit(env, b, 1)[0], env.threshold)
    ensures var r := DetectionState(env, [a, b], true);
      r.root == [0, 1] && r.clusters == [a, b] && r.fits == [Refit(env, a, 0), Refit(env, b, 1)]
  {
    var s0 := InitialState(env, [a, b]);
    assert s0.root == [0, 1];
    NoCloseRootsIsFixedPoint(s0, env, 0);
  }

  /**
   * A fitter for the example below: a single point is fitted where it lies,
   * two or more points are fitted at the origin.
   */
  function OriginOnMerge(models: seq<ModelEntry>, points: seq<Point>, k: nat, index: KdIndex, cutoff: real): seq<ModelFitInfo>
  {
    if |points| == 0 then []
    else if |points| == 1 then [FitAt(points[0].x, points[0].y)]
    else [FitAt(0.0, 0.0)]
  }

  /**
   * The merge loop's output need not be a fixed point of the loop: clusters
   * at x = 0, 1 and 1.01. The scan passes cluster 0 (nothing close), then
   * cluster 1 absorbs cluster 2 and its re-fit lands on cluster 0's fit. The
   * scan never looks back, so clusters 0 and 1 end as separate roots with
   * coinciding fits, and running the loop again merges them.
   */
  lemma MergeOutputNotAlwaysFixedPoint()
    ensures var clusters := [[Point(0.0, 0.0, 0.0)], [Point(1.0, 0.0, 0.0)], [Point(1.01, 0.0, 0.0)]];
      var env := MergeEnv(OriginOnMerge, [], 1, 0.0, DefaultFitMergeThreshold, SearchIndices(clusters));
      var once := DetectionState(env, clusters, true);
      && once.root == [0, 1, 1]
      && once.fits[0] == once.fits[1] == [FitAt(0.0, 0.0)]
      && MergeFrom(once, env, 0).root[1] == 0
  {
    var clusters := [[Point(0.0, 0.0, 0.0)], [Point(1.0, 0.0, 0.0)], [Point(1.01, 0.0, 0.0)]];
    var env := MergeEnv(OriginOnMerge, [], 1, 0.0, DefaultFitMergeThreshold, SearchIndices(clusters));
    var s0 := InitialState(env, clusters);
    assert s0.fits == [[FitAt(0.0, 0.0)], [FitAt(1.0, 0.0)], [FitAt(1.01, 0.0)]];
    // Scan index 0: neither cluster 1 nor cluster 2 is close to the origin.
    assert !IsPartner(s0, env, 0, 1) && !IsPartner(s0, env, 0, 2);
    assert FindPartner(s0, env, 0, 1) == 3;
    assert MergeFrom(s0, env, 0) == MergeFrom(s0, env, 1);
    // Scan index 1: cluster 2 is 0.01 away, so it is absorbed and cluster 1 is re-fitted.
    assert IsPartner(s0, env, 1, 2);
    assert FindPartner(s0, env, 1, 2) == 2;
    var s1 := Absorb(s0, env, 1, 2);
    assert s1.root == [0, 1, 1];
    assert s1.fits == [[FitAt(0.0, 0.0)], [FitAt(0.0, 0.0)], []];
    assert MergeFrom(s0, env, 1) == MergeFrom(s1, env, 1);
    assert FindPartner(s1, env, 1, 2) == 3;
    assert MergeFrom(s1, env, 1) == MergeFrom(s1, env, 2) == MergeFrom(s1, env, 3) == s1;
    // Running the loop again: cluster 1's fit now coincides with cluster 0's.
    assert IsPartner(s1, env, 0, 1);
    assert FindPartner(s1, env, 0, 1) == 1;
    var s2 := Absorb(s1, env, 0, 1);
    assert MergeFrom(s1, env, 0) == MergeFrom(s2, env, 0);
    MergeFromFrame(s2, env, 0);
  }
}
