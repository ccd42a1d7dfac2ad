/**
 * `TabletopObjectRecognizer`: holds the detector (its model registry and its
 * `fitBestModels`) and the fit-merge threshold, and runs `objectDetection`
 * over a batch of clusters.
 */
module Recognizer {
  import opened Geometry
  import opened Confidence
  import opened FitDistance
  import opened FitMerge
  import opened Aggregation


  /** `std::max(1, num_models)` with `num_models` fixed at 1: one best model per cluster. */
  const ModelsPerCluster: nat := 1

  class TabletopObjectRecognizer {
    /** `detector_.fitBestModels`, given the registry it currently holds. */
    const fitBestModels: FitFn
    /** The models registered with `detector_`. */
    var models: seq<ModelEntry>
    /** `fit_merge_threshold_`: only the constructor sets it. */
    const fitMergeThreshold: real

    constructor (fitBestModels: FitFn)
      ensures this.fitBestModels == fitBestModels && models == [] && fitMergeThreshold == DefaultFitMergeThreshold
    {
      this.fitBestModels := fitBestModels;
      models := [];
      fitMergeThreshold := DefaultFitMergeThreshold;
    }

    /** `clearObjects`: forwards to the detector, which forgets every model. */
    method ClearObjects()
      modifies this
      ensures models == []
    {
      models := [];
    }

    /** `addObject`: forwards to the detector, which registers one more model. */
    method AddObject(modelId: int, mesh: Mesh)
      modifies this
      ensures models == old(models) + [ModelEntry(modelId, mesh)]
    {
      models := models + [ModelEntry(modelId, mesh)];
    }

    /** What one `objectDetection` call over these clusters reads from the recognizer. */
    function Env(clusters: seq<seq<Point>>, cutoff: real): (env: MergeEnv)
      reads this
      ensures |env.search| == |clusters|
    {
      MergeEnv(fitBestModels, models, ModelsPerCluster, cutoff, fitMergeThreshold, SearchIndices(clusters))
    }

    /**
     * `objectDetection`: fits every cluster, merges clusters whose top fits
     * are close (when `performFitMerge`), and appends one result per live
     * root whose confidence clears the cutoff. `clusters` is updated in
     * place with the merged point lists; `results` is the caller's list and
     * `out` is that list after the appends.
     */
    method ObjectDetection(clusters: array<seq<Point>>, cutoff: real, performFitMerge: bool, results: seq<TabletopResult>)
      returns (out: seq<TabletopResult>)
      modifies clusters
      ensures var final := DetectionState(Env(old(clusters[..]), cutoff), old(clusters[..]), performFitMerge);
        clusters[..] == final.clusters && out == results + Aggregate(final, cutoff, clusters.Length)
      ensures |results| <= |out| <= |results| + clusters.Length && out[..|results|] == results
      ensures forall p :: |results| <= p < |out| ==> out[p].cloudIndex < clusters.Length && cutoff <= out[p].confidence
      ensures forall p, q :: |results| <= p < q < |out| ==> out[p].cloudIndex < out[q].cloudIndex
    {
      ghost var input := clusters[..];
      var root, fits, search := FitClusters(clusters, cutoff);
      if performFitMerge {
        MergeCloseFits(root, fits, clusters, search, cutoff, input);
      }
      out := AppendResults(root, fits, clusters, cutoff, results);
      ghost var final := MergeState(root[..], fits[..], clusters[..]);
      assert forall p :: |results| <= p < |out| ==> out[p] == Aggregate(final, cutoff, clusters.Length)[p - |results|];
    }

    /**
     * The fitting fan-out and join: every cluster becomes its own root, gets
     * a search index over its points, and is fitted once.
     */
    method FitClusters(clusters: array<seq<Point>>, cutoff: real)
      returns (root: array<nat>, fits: array<seq<ModelFitInfo>>, search: seq<KdIndex>)
      ensures fresh(root) && fresh(fits)
      ensures search == SearchIndices(clusters[..])
      ensures MergeState(root[..], fits[..], clusters[..]) == InitialState(Env(clusters[..], cutoff), clusters[..])
    {
      var n := clusters.Length;
      root := new nat[n];
      fits := new seq<ModelFitInfo>[n];
      search := [];
      for i := 0 to n
        invariant |search| == i
        invariant forall k :: 0 <= k < i ==> root[k] == k && search[k] == BuildIndex(clusters[k])
      {
        root[i] := i;
        search := search + [BuildIndex(clusters[i])];
      }
      ghost var env := Env(clusters[..], cutoff);
      assert search == env.search;
      for i := 0 to n
        invariant forall k :: 0 <= k < n ==> root[k] == k
        invariant forall k :: 0 <= k < i ==> fits[k] == Refit(env, clusters[k], k)
      {
        fits[i] := fitBestModels(models, clusters[i], ModelsPerCluster, search[i], cutoff);
      }
    }

    /**
     * The inner `for` loop of the merge phase: the first live cluster after
     * i with a fit close to i's top fit, or n when there is none.
     */
    method FindMergePartner(root: array<nat>, fits: array<seq<ModelFitInfo>>, clusters: array<seq<Point>>,
                            i: nat, ghost env: MergeEnv)
      returns (j: nat)
      requires root.Length == fits.Length == clusters.Length == |env.search|
      requires i < root.Length && fits[i] != [] && env.threshold == fitMergeThreshold
      ensures j == FindPartner(MergeState(root[..], fits[..], clusters[..]), env, i, i + 1)
    {
      ghost var s := MergeState(root[..], fits[..], clusters[..]);
      var n := root.Length;
      j := i + 1;
      while j < n
        invariant i < j <= n
        invariant FindPartner(s, env, i, j) == FindPartner(s, env, i, i + 1)
      {
        if root[j] != j {
          j := j + 1;
          continue;
        }
        if fits[j] != [] && Close(fits[i][0], fits[j][0], fitMergeThreshold) {
          break;
        }
        j := j + 1;
      }
    }

    /**
     * The merge `while` loop: scan roots in ascending order; a live root
     * with fits absorbs the first close live cluster after it, is re-fitted,
     * and is examined again; otherwise the scan moves on.
     */
    method MergeCloseFits(root: array<nat>, fits: array<seq<ModelFitInfo>>, clusters: array<seq<Point>>,
                          search: seq<KdIndex>, cutoff: real, ghost input: seq<seq<Point>>)
      requires root.Length == fits.Length == clusters.Length == |input|
      requires search == SearchIndices(input)
      modifies root, fits, clusters
      ensures MergeState(root[..], fits[..], clusters[..])
           == MergeFrom(MergeState(old(root[..]), old(fits[..]), old(clusters[..])), Env(input, cutoff), 0)
    {
      ghost var env := Env(input, cutoff);
      assert env.search == search;
      ghost var start := MergeState(root[..], fits[..], clusters[..]);
      var n := clusters.Length;
      var i := 0;
      while i < n
        invariant 0 <= i <= n
        invariant MergeFrom(MergeState(root[..], fits[..], clusters[..]), env, i) == MergeFrom(start, env, 0)
        decreases n - i, |LiveAbove(root[..], i)|
      {
        i := MergeStep(root, fits, clusters, search, cutoff, i, env);
      }
    }

    /**
     * One pass of the merge loop's body at scan index i: either root i
     * absorbs its first partner and the scan stays at i, or the scan moves on.
     */
    method MergeStep(root: array<nat>, fits: array<seq<ModelFitInfo>>, clusters: array<seq<Point>>,
                     search: seq<KdIndex>, cutoff: real, i: nat, ghost env: MergeEnv)
      returns (next: nat)
      requires root.Length == fits.Length == clusters.Length == |search| && i < root.Length
      requires env == MergeEnv(fitBestModels, models, ModelsPerCluster, cutoff, fitMergeThreshold, search)
      modifies root, fits, clusters
      ensures next == i + 1 || (next == i && |LiveAbove(root[..], i)| < |LiveAbove(old(root[..]), i)|)
      ensures MergeFrom(MergeState(root[..], fits[..], clusters[..]), env, next)
           == MergeFrom(MergeState(old(root[..]), old(fits[..]), old(clusters[..])), env, i)
    {
      ghost var s := MergeState(root[..], fits[..], clusters[..]);
      var n := root.Length;
      var j := n;
      if root[i] == i && fits[i] != [] {
        j := FindMergePartner(root, fits, clusters, i, env);
      }
      if j < n {
        ghost var j' := MergeFromAbsorbs(s, env, i);
        AbsorbPartner(root, fits, clusters, search, cutoff, i, j, env);
        next := i;
      } else {
        MergeFromSkips(s, env, i);
        next := i + 1;
      }
    }

    /**
     * The body of the merge loop when cluster j is absorbed by root i: i's
     * points gain j's, j's fits are cleared, j points to i, and i is re-fitted
     * on its merged points with its original search index.
     */
    method AbsorbPartner(root: array<nat>, fits: array<seq<ModelFitInfo>>, clusters: array<seq<Point>>,
                         search: seq<KdIndex>, cutoff: real, i: nat, j: nat, ghost env: MergeEnv)
      requires root.Length == fits.Length == clusters.Length == |search| && i < j < root.Length
      requires env == MergeEnv(fitBestModels, models, ModelsPerCluster, cutoff, fitMergeThreshold, search)
      modifies root, fits, clusters
      ensures MergeState(root[..], fits[..], clusters[..])
           == Absorb(MergeState(old(root[..]), old(fits[..]), old(clusters[..])), env, i, j)
    {
      clusters[i] := clusters[i] + clusters[j];
      fits[j] := [];
      root[j] := i;
      fits[i] := fitBestModels(models, clusters[i], ModelsPerCluster, search[i], cutoff);
    }

    /** The aggregation loop: appends `Aggregate` of the final state to the caller's results. */
    method AppendResults(root: array<nat>, fits: array<seq<ModelFitInfo>>, clusters: array<seq<Point>>,
                         cutoff: real, results: seq<TabletopResult>)
      returns (out: seq<TabletopResult>)
      requires root.Length == fits.Length == clusters.Length
      ensures out == results + Aggregate(MergeState(root[..], fits[..], clusters[..]), cutoff, root.Length)
    {
      ghost var s := MergeState(root[..], fits[..], clusters[..]);
      out := results;
      for i := 0 to root.Length
        invariant out == results + Aggregate(s, cutoff, i)
      {
        if root[i] == i && fits[i] != [] {
          var confidence := GetConfidence(fits[i][0].score);
          if !(confidence < cutoff) {
            var top := fits[i][0];
            out := out + [TabletopResult(top.pose, confidence, top.modelId, clusters[i], i)];
          }
        }
      }
    }
  }
}
