/**
 * The last loop of `objectDetection`: one `TabletopResult` per live root
 * that still has a fit whose confidence clears the cutoff, in ascending
 * cluster order.
 */
module Aggregation {
  import opened Geometry
  import opened Confidence
  import opened FitMerge

  /** One finished detection. */
  datatype TabletopResult = TabletopResult(
    pose: Pose,
    confidence: real,
    objectId: int,
    cloud: seq<Point>,
    cloudIndex: nat)

  /** Cluster i yields a result: a live root with a fit whose confidence is not below the cutoff. */
  predicate Reported(s: MergeState, cutoff: real, i: nat)
    requires Aligned(s) && i < |s.root|
  {
    s.root[i] == i && s.fits[i] != [] && cutoff <= GetConfidence(s.fits[i][0].score)
  }

  /** The result built for cluster i from its top fit and its (possibly merged) points. */
  function ResultFor(s: MergeState, i: nat): TabletopResult
    requires Aligned(s) && i < |s.root| && s.fits[i] != []
  {
    var top := s.fits[i][0];
    TabletopResult(top.pose, GetConfidence(top.score), top.modelId, s.clusters[i], i)
  }

  /**
   * The results the aggregation loop has appended after visiting clusters
   * 0 .. m-1: at most one per cluster, in strictly ascending cluster order
   * (so no root twice), each from a reported cluster and carrying its index,
   * its points, its top fit's model and pose, and a confidence that clears
   * the cutoff.
   */
  function Aggregate(s: MergeState, cutoff: real, m: nat): (out: seq<TabletopResult>)
    requires Aligned(s) && m <= |s.root|
    ensures |out| <= m
    ensures forall p :: 0 <= p < |out| ==>
      && out[p].cloudIndex < m
      && Reported(s, cutoff, out[p].cloudIndex)
      && out[p] == ResultFor(s, out[p].cloudIndex)
    ensures forall p, q :: 0 <= p < q < |out| ==> out[p].cloudIndex < out[q].cloudIndex
  {
    if m == 0 then []
    else Aggregate(s, cutoff, m - 1) + (if Reported(s, cutoff, m - 1) then [ResultFor(s, m - 1)] else [])
  }

  /** What each result says about its cluster, spelled out field by field. */
  lemma AggregateResultFields(s: MergeState, cutoff: real, m: nat, p: nat)
    requires Aligned(s) && m <= |s.root| && p < |Aggregate(s, cutoff, m)|
    ensures var r := Aggregate(s, cutoff, m)[p];
      && r.cloudIndex < m
      && s.root[r.cloudIndex] == r.cloudIndex
      && s.fits[r.cloudIndex] != []
      && cutoff <= r.confidence
      && r.confidence == GetConfidence(s.fits[r.cloudIndex][0].score)
      && r.cloud == s.clusters[r.cloudIndex]
      && r.objectId == s.fits[r.cloudIndex][0].modelId
      && r.pose == s.fits[r.cloudIndex][0].pose
  {
  }

  /** Every reported cluster below m has its result. */
  lemma AggregateComplete(s: MergeState, cutoff: real, m: nat)
    requires Aligned(s) && m <= |s.root|
    ensures forall k :: 0 <= k < m && Reported(s, cutoff, k) ==> ResultFor(s, k) in Aggregate(s, cutoff, m)
  {
    forall k | 0 <= k < m && Reported(s, cutoff, k)
      ensures ResultFor(s, k) in Aggregate(s, cutoff, m)
    {
      AggregateContains(s, cutoff, m, k);
    }
  }

  /** The result of reported cluster k is among those appended by the time cluster m - 1 is visited. */
  lemma {:induction false} AggregateContains(s: MergeState, cutoff: real, m: nat, k: nat)
    requires Aligned(s) && k < m <= |s.root| && Reported(s, cutoff, k)
    ensures ResultFor(s, k) in Aggregate(s, cutoff, m)
  {
    var prev := Aggregate(s, cutoff, m - 1);
    var tail := if Reported(s, cutoff, m - 1) then [ResultFor(s, m - 1)] else [];
    assert Aggregate(s, cutoff, m) == prev + tail;
    if k < m - 1 {
      AggregateContains(s, cutoff, m - 1, k);
      assert ResultFor(s, k) in prev;
    } else {
      assert tail == [ResultFor(s, k)];
    }
  }

  /**
   * At most one result per visited cluster, and one per cluster only when
   * every one of them was reported: no cluster absorbed, none without a
   * fit, none below the cutoff.
   */
  lemma {:induction false} AggregateLength(s: MergeState, cutoff: real, m: nat)
    requires Aligned(s) && m <= |s.root|
    ensures |Aggregate(s, cutoff, m)| <= m
    ensures |Aggregate(s, cutoff, m)| == m ==> forall k :: 0 <= k < m ==> Reported(s, cutoff, k)
  {
    if m > 0 {
      AggregateLength(s, cutoff, m - 1);
    }
  }
}
