/**
 * The fit-merge phase of `objectDetection`, stated as functions over the
 * three parallel per-cluster arrays the C++ keeps:
 *
 *   root     `cluster_model_indices`: root[k] == k while cluster k is live,
 *            otherwise the index of the cluster that absorbed it;
 *   fits     `raw_fit_results`: best-first fit list per cluster;
 *   clusters the point lists, which merging appends to.
 *
 * `MergeFrom(s, env, i)` is the `while` loop resumed at scan index i; the
 * imperative loop in the recognizer is proved to end in `MergeFrom(init, env, 0)`.
 */
module FitMerge {
  import opened Geometry
  import opened FitDistance

  /**
   * `ExhaustiveFitDetector::fitBestModels(points, k, index, cutoff)` for a
   * detector holding the given registry: a best-first list of fits. The
   * search algorithm itself is not part of this model, so it is a parameter.
   */
  type FitFn = (seq<ModelEntry>, seq<Point>, nat, KdIndex, real) -> seq<ModelFitInfo>

  /** What one `objectDetection` call reads but never changes. */
  datatype MergeEnv = MergeEnv(
    fitBestModels: FitFn,
    models: seq<ModelEntry>,
    numModels: nat,
    cutoff: real,
    threshold: real,
    search: seq<KdIndex>)

  /**
   * Fits cluster i's CURRENT points, but always with `search[i]`, the index
   * built over cluster i's ORIGINAL points (it is never rebuilt after a merge).
   * Used both for the first fit of every cluster and for the re-fit of a
   * root after it absorbs another cluster.
   */
  function Refit(env: MergeEnv, points: seq<Point>, i: nat): seq<ModelFitInfo>
    requires i < |env.search|
  {
    env.fitBestModels(env.models, points, env.numModels, env.search[i], env.cutoff)
  }

  /** One search index per cluster, each built over that cluster's points. */
  function SearchIndices(clusters: seq<seq<Point>>): seq<KdIndex>
  {
    seq(|clusters|, k requires 0 <= k < |clusters| => BuildIndex(clusters[k]))
  }

  datatype MergeState = MergeState(root: seq<nat>, fits: seq<seq<ModelFitInfo>>, clusters: seq<seq<Point>>)

  /** The three arrays are indexed by the same cluster indices. */
  predicate Aligned(s: MergeState)
  {
    |s.fits| == |s.root| && |s.clusters| == |s.root|
  }

  predicate Shaped(s: MergeState, env: MergeEnv)
  {
    Aligned(s) && |env.search| == |s.root|
  }

  /** The state before merging: every cluster its own root, fitted on its own points. */
  function InitialState(env: MergeEnv, clusters: seq<seq<Point>>): (s: MergeState)
    requires |env.search| == |clusters|
    ensures Shaped(s, env) && s.clusters == clusters
    ensures forall k :: 0 <= k < |clusters| ==> s.root[k] == k && s.fits[k] == Refit(env, clusters[k], k)
  {
    MergeState(
      seq(|clusters|, k requires 0 <= k => k as nat),
      seq(|clusters|, k requires 0 <= k < |clusters| => Refit(env, clusters[k], k)),
      clusters)
  }

  /** Cluster j may be merged into root i: the test of the inner `for` loop. */
  predicate IsPartner(s: MergeState, env: MergeEnv, i: nat, j: nat)
    requires Aligned(s) && i < |s.root| && s.fits[i] != []
  {
    i < j < |s.root| && s.root[j] == j && s.fits[j] != [] &&
    Close(s.fits[i][0], s.fits[j][0], env.threshold)
  }

  /** The inner `for` loop from j on: the first partner of i at or after j, or |root| if none. */
  function FindPartner(s: MergeState, env: MergeEnv, i: nat, j: nat): (r: nat)
    requires Aligned(s) && i < j <= |s.root| && s.fits[i] != []
    ensures j <= r <= |s.root|
    ensures r < |s.root| ==> IsPartner(s, env, i, r)
    ensures forall k :: j <= k < r ==> !IsPartner(s, env, i, k)
    decreases |s.root| - j
  {
    if j == |s.root| then j
    else if IsPartner(s, env, i, j) then j
    else FindPartner(s, env, i, j + 1)
  }

  /**
   * Cluster j is absorbed by cluster i. Exactly four things change: i's points
   * gain j's (in that order), j's fit list is cleared, root[j] becomes i, and
   * i is re-fitted on its merged points. j keeps its points.
   */
  function Absorb(s: MergeState, env: MergeEnv, i: nat, j: nat): (r: MergeState)
    requires Shaped(s, env) && i < j < |s.root|
    ensures Shaped(r, env) && |r.root| == |s.root|
    ensures r.clusters[i] == s.clusters[i] + s.clusters[j]
    ensures r.fits[j] == []
    ensures r.root[j] == i
    ensures r.fits[i] == Refit(env, r.clusters[i], i)
    ensures r.root[i] == s.root[i] && r.clusters[j] == s.clusters[j]
    ensures forall k :: 0 <= k < |s.root| && k != i && k != j ==>
              r.root[k] == s.root[k] && r.fits[k] == s.fits[k] && r.clusters[k] == s.clusters[k]
  {
    var merged := s.clusters[i] + s.clusters[j];
    MergeState(s.root[j := i], s.fits[j := []][i := Refit(env, merged, i)], s.clusters[i := merged])
  }

  /** The live roots above scan index i. */
  function LiveAbove(root: seq<nat>, i: nat): set<int>
  {
    set k | i < k < |root| && root[k] == k
  }

  /** Retiring one live root above i removes exactly that index from `LiveAbove`. */
  lemma LiveAboveDropsByOne(root: seq<nat>, root': seq<nat>, i: nat, j: nat)
    requires |root'| == |root| && i < j < |root| && root[j] == j && root'[j] != j
    requires forall k :: 0 <= k < |root| && k != j ==> root'[k] == root[k]
    ensures LiveAbove(root', i) == LiveAbove(root, i) - {j}
    ensures |LiveAbove(root', i)| == |LiveAbove(root, i)| - 1
  {
    assert LiveAbove(root', i) == LiveAbove(root, i) - {j};
  }

  /**
   * The merge `while` loop resumed at scan index i. It terminates because
   * every step either advances i or retires one live root above i.
   */
  function MergeFrom(s: MergeState, env: MergeEnv, i: nat): (r: MergeState)
    requires Shaped(s, env) && i <= |s.root|
    ensures Shaped(r, env) && |r.root| == |s.root|
    decreases |s.root| - i, |LiveAbove(s.root, i)|
  {
    if i == |s.root| then s
    else if s.root[i] != i || s.fits[i] == [] then MergeFrom(s, env, i + 1)
    else
      var j := FindPartner(s, env, i, i + 1);
      if j < |s.root| then
        var s' := Absorb(s, env, i, j);
        LiveAboveDropsByOne(s.root, s'.root, i, j);
        MergeFrom(s', env, i)
      else
        MergeFrom(s, env, i + 1)
  }

  /** The state `objectDetection` aggregates from. */
  function DetectionState(env: MergeEnv, clusters: seq<seq<Point>>, performFitMerge: bool): (s: MergeState)
    requires |env.search| == |clusters|
    ensures Shaped(s, env) && |s.root| == |clusters|
  {
    var init := InitialState(env, clusters);
    if performFitMerge then MergeFrom(init, env, 0) else init
  }

  /**
   * What holds throughout the merge loop at scan index i:
   * - an absorbed cluster points to a smaller index, at most i, which is still a live root;
   * - an absorbed cluster has no fits, and its points are among its root's points;
   * - a live root's fit list is the fitter's answer on its current points.
   */
  ghost predicate MergeInvariant(s: MergeState, env: MergeEnv, i: nat)
  {
    && Shaped(s, env)
    && (forall k :: 0 <= k < |s.root| && s.root[k] != k ==>
          && s.root[k] < k
          && s.root[k] <= i
          && s.root[s.root[k]] == s.root[k]
          && s.fits[k] == []
          && multiset(s.clusters[k]) <= multiset(s.clusters[s.root[k]]))
    && (forall k :: 0 <= k < |s.root| && s.root[k] == k ==> s.fits[k] == Refit(env, s.clusters[k], k))
  }

  lemma InitialStateSatisfiesInvariant(env: MergeEnv, clusters: seq<seq<Point>>)
    requires |env.search| == |clusters|
    ensures MergeInvariant(InitialState(env, clusters), env, 0)
  {
  }

  /** One absorption by the live root at the scan index keeps the invariant. */
  lemma AbsorbPreservesInvariant(s: MergeState, env: MergeEnv, i: nat, j: nat)
    requires MergeInvariant(s, env, i)
    requires i < j < |s.root| && s.root[i] == i && s.root[j] == j
    ensures MergeInvariant(Absorb(s, env, i, j), env, i)
  {
    var r := Absorb(s, env, i, j);
    forall k | 0 <= k < |r.root| && r.root[k] != k
      ensures r.root[k] < k && r.root[k] <= i && r.root[r.root[k]] == r.root[k] && r.fits[k] == []
      ensures multiset(r.clusters[k]) <= multiset(r.clusters[r.root[k]])
    {
      if k == j {
        assert r.clusters[i] == s.clusters[i] + s.clusters[j];
      } else {
        var p := s.root[k];
        assert r.root[k] == p && p != j && p != k;
        if p == i {
          assert multiset(s.clusters[i]) <= multiset(r.clusters[i]);
        }
      }
    }
  }

  lemma InvariantAdvances(s: MergeState, env: MergeEnv, i: nat)
    requires MergeInvariant(s, env, i)
    ensures MergeInvariant(s, env, i + 1)
  {
  }

  /**
   * A pass of the loop body that does not absorb (cluster i is absorbed, has
   * no fits, or has no partner) only moves the scan on.
   */
  lemma MergeFromSkips(s: MergeState, env: MergeEnv, i: nat)
    requires Shaped(s, env) && i < |s.root|
    requires s.root[i] != i || s.fits[i] == [] || FindPartner(s, env, i, i + 1) == |s.root|
    ensures MergeFrom(s, env, i) == MergeFrom(s, env, i + 1)
  {
  }

  /**
   * A pass of the loop body that absorbs the partner j of root i stays at
   * scan index i and retires one live root above it.
   */
  lemma MergeFromAbsorbs(s: MergeState, env: MergeEnv, i: nat) returns (j: nat)
    requires Shaped(s, env) && i < |s.root|
    requires s.root[i] == i && s.fits[i] != [] && FindPartner(s, env, i, i + 1) < |s.root|
    ensures j == FindPartner(s, env, i, i + 1) && i < j < |s.root| && s.root[j] == j
    ensures MergeFrom(s, env, i) == MergeFrom(Absorb(s, env, i, j), env, i)
    ensures LiveAbove(Absorb(s, env, i, j).root, i) == LiveAbove(s.root, i) - {j}
    ensures |LiveAbove(Absorb(s, env, i, j).root, i)| < |LiveAbove(s.root, i)|
  {
    j := FindPartner(s, env, i, i + 1);
    LiveAboveDropsByOne(s.root, Absorb(s, env, i, j).root, i, j);
  }

  /** The whole merge loop keeps the invariant; at its end the scan index is |root|. */
  lemma {:induction false} MergeFromPreservesInvariant(s: MergeState, env: MergeEnv, i: nat)
    requires MergeInvariant(s, env, i) && i <= |s.root|
    ensures MergeInvariant(MergeFrom(s, env, i), env, |s.root|)
    decreases |s.root| - i, |LiveAbove(s.root, i)|
  {
    if i < |s.root| {
      if s.root[i] != i || s.fits[i] == [] || FindPartner(s, env, i, i + 1) == |s.root| {
        MergeFromSkips(s, env, i);
        InvariantAdvances(s, env, i);
        MergeFromPreservesInvariant(s, env, i + 1);
      } else {
        var j := MergeFromAbsorbs(s, env, i);
        AbsorbPreservesInvariant(s, env, i, j);
        MergeFromPreservesInvariant(Absorb(s, env, i, j), env, i);
      }
    }
  }

  /** Clusters the scan has not reached, and absorbed clusters, hold their original points. */
  ghost predicate HoldsOriginalPoints(s: MergeState, original: seq<seq<Point>>, i: nat)
    requires Aligned(s) && |original| == |s.root|
  {
    forall k :: 0 <= k < |s.root| && (i < k || s.root[k] != k) ==> s.clusters[k] == original[k]
  }

  /**
   * Only the root at the scan index ever grows, and a cluster is absorbed only
   * while it is ahead of the scan: so an absorbed cluster never absorbed
   * anything and keeps exactly its original points.
   */
  lemma {:induction false} MergeFromKeepsAbsorbedPoints(s: MergeState, env: MergeEnv, original: seq<seq<Point>>, i: nat)
    requires Shaped(s, env) && |original| == |s.root| && i <= |s.root|
    requires HoldsOriginalPoints(s, original, i)
    ensures HoldsOriginalPoints(MergeFrom(s, env, i), original, |s.root|)
    decreases |s.root| - i, |LiveAbove(s.root, i)|
  {
    if i < |s.root| {
      if s.root[i] != i || s.fits[i] == [] || FindPartner(s, env, i, i + 1) == |s.root| {
        MergeFromSkips(s, env, i);
        MergeFromKeepsAbsorbedPoints(s, env, original, i + 1);
      } else {
        var j := MergeFromAbsorbs(s, env, i);
        MergeFromKeepsAbsorbedPoints(Absorb(s, env, i, j), env, original, i);
      }
    }
  }

  /**
   * The multiset sum of the original points of the clusters k < m whose root
   * entry is r: the points that a root r should end up holding.
   */
  function Gather(root: seq<nat>, original: seq<seq<Point>>, r: nat, m: nat): multiset<Point>
    requires m <= |root| && |original| == |root|
  {
    if m == 0 then multiset{}
    else Gather(root, original, r, m - 1) + (if root[m - 1] == r then multiset(original[m - 1]) else multiset{})
  }

  /** Before any merge every cluster is its own root and gathers only its own points. */
  lemma {:induction false} GatherIdentity(root: seq<nat>, original: seq<seq<Point>>, r: nat, m: nat)
    requires m <= |root| && |original| == |root|
    requires forall k :: 0 <= k < |root| ==> root[k] == k
    ensures Gather(root, original, r, m) == if r < m then multiset(original[r]) else multiset{}
  {
    if m > 0 {
      GatherIdentity(root, original, r, m - 1);
    }
  }

  /** Pointing the live root j at i adds j's original points to i's gather. */
  lemma {:induction false} GatherRedirectGain(root: seq<nat>, original: seq<seq<Point>>, i: nat, j: nat, m: nat)
    requires m <= |root| && |original| == |root| && i < j < |root| && root[j] == j
    ensures Gather(root[j := i], original, i, m) ==
              Gather(root, original, i, m) + (if j < m then multiset(original[j]) else multiset{})
  {
    if m > 0 {
      GatherRedirectGain(root, original, i, j, m - 1);
    }
  }

  /** Pointing the live root j at i leaves the gather of every other root r as it was. */
  lemma {:induction false} GatherRedirectOther(root: seq<nat>, original: seq<seq<Point>>, i: nat, j: nat, r: nat, m: nat)
    requires m <= |root| && |original| == |root| && i < j < |root| && root[j] == j && r != i && r != j
    ensures Gather(root[j := i], original, r, m) == Gather(root, original, r, m)
  {
    if m > 0 {
      GatherRedirectOther(root, original, i, j, r, m - 1);
    }
  }

  /** Every live root holds exactly the original points of the clusters whose root entry is it. */
  ghost predicate Conserves(s: MergeState, original: seq<seq<Point>>)
    requires Aligned(s) && |original| == |s.root|
  {
    forall r :: 0 <= r < |s.root| && s.root[r] == r ==>
      multiset(s.clusters[r]) == Gather(s.root, original, r, |s.root|)
  }

  /** An absorption moves exactly the absorbed cluster's original points into its new root. */
  lemma AbsorbConserves(s: MergeState, env: MergeEnv, original: seq<seq<Point>>, i: nat, j: nat)
    requires Shaped(s, env) && |original| == |s.root| && i < j < |s.root|
    requires s.root[i] == i && s.root[j] == j && s.clusters[j] == original[j]
    requires Conserves(s, original) && HoldsOriginalPoints(s, original, i)
    ensures Conserves(Absorb(s, env, i, j), original)
    ensures HoldsOriginalPoints(Absorb(s, env, i, j), original, i)
  {
    var r := Absorb(s, env, i, j);
    assert r.root == s.root[j := i];
    forall q | 0 <= q < |r.root| && r.root[q] == q
      ensures multiset(r.clusters[q]) == Gather(r.root, original, q, |r.root|)
    {
      if q == i {
        GatherRedirectGain(s.root, original, i, j, |s.root|);
        assert multiset(r.clusters[i]) == multiset(s.clusters[i]) + multiset(s.clusters[j]);
      } else {
        GatherRedirectOther(s.root, original, i, j, q, |s.root|);
      }
    }
  }

  /**
   * Over the whole merge loop no point is lost or duplicated: every live root
   * ends with exactly the original points of the clusters that point to it.
   */
  lemma {:induction false} MergeFromConserves(s: MergeState, env: MergeEnv, original: seq<seq<Point>>, i: nat)
    requires Shaped(s, env) && |original| == |s.root| && i <= |s.root|
    requires HoldsOriginalPoints(s, original, i) && Conserves(s, original)
    ensures Conserves(MergeFrom(s, env, i), original)
    decreases |s.root| - i, |LiveAbove(s.root, i)|
  {
    if i < |s.root| {
      if s.root[i] != i || s.fits[i] == [] || FindPartner(s, env, i, i + 1) == |s.root| {
        MergeFromSkips(s, env, i);
        MergeFromConserves(s, env, original, i + 1);
      } else {
        var j := MergeFromAbsorbs(s, env, i);
        AbsorbConserves(s, env, original, i, j);
        MergeFromConserves(Absorb(s, env, i, j), env, original, i);
      }
    }
  }

  /**
   * The scan only moves forward and absorbed clusters are frozen: nothing
   * below the scan index and nothing already absorbed is touched again, and
   * no absorbed cluster ever becomes a root again.
   */
  lemma {:induction false} MergeFromFrame(s: MergeState, env: MergeEnv, i: nat)
    requires Shaped(s, env) && i <= |s.root|
    ensures forall k {:trigger MergeFrom(s, env, i).root[k]} :: 0 <= k < |s.root| && (k < i || s.root[k] != k) ==>
              MergeFrom(s, env, i).root[k] == s.root[k]
    ensures forall k {:trigger MergeFrom(s, env, i).fits[k]} :: 0 <= k < |s.root| && (k < i || s.root[k] != k) ==>
              MergeFrom(s, env, i).fits[k] == s.fits[k]
    ensures forall k {:trigger MergeFrom(s, env, i).clusters[k]} :: 0 <= k < |s.root| && (k < i || s.root[k] != k) ==>
              MergeFrom(s, env, i).clusters[k] == s.clusters[k]
    ensures forall k {:trigger MergeFrom(s, env, i).root[k]} :: 0 <= k < |s.root| && MergeFrom(s, env, i).root[k] == k ==>
              s.root[k] == k
    decreases |s.root| - i, |LiveAbove(s.root, i)|
  {
    if i < |s.root| {
      if s.root[i] != i || s.fits[i] == [] || FindPartner(s, env, i, i + 1) == |s.root| {
        MergeFromSkips(s, env, i);
        MergeFromFrame(s, env, i + 1);
      } else {
        var j := MergeFromAbsorbs(s, env, i);
        MergeFromFrame(Absorb(s, env, i, j), env, i);
      }
    }
  }

  /**
   * A state in which no two live roots with fits are close is left alone by
   * the merge loop.
   */
  lemma {:induction false} NoCloseRootsIsFixedPoint(s: MergeState, env: MergeEnv, i: nat)
    requires Shaped(s, env) && i <= |s.root|
    requires forall a, b :: 0 <= a < b < |s.root| && s.root[a] == a && s.fits[a] != [] ==> !IsPartner(s, env, a, b)
    ensures MergeFrom(s, env, i) == s
    decreases |s.root| - i
  {
    if i < |s.root| {
      if s.root[i] == i && s.fits[i] != [] {
        var j := FindPartner(s, env, i, i + 1);
        assert j == |s.root|;
      }
      NoCloseRootsIsFixedPoint(s, env, i + 1);
    }
  }

  /**
   * Properties of the state `objectDetection` reports from: the invariant
   * holds at the end, absorbed clusters keep their original points, those
   * points are among the points of their root, and every live root holds
   * exactly the original points of itself and of the clusters it absorbed.
   */
  lemma DetectionStateProperties(env: MergeEnv, clusters: seq<seq<Point>>, performFitMerge: bool)
    requires |env.search| == |clusters|
    ensures var r := DetectionState(env, clusters, performFitMerge);
      && MergeInvariant(r, env, |clusters|)
      && (forall k :: 0 <= k < |clusters| && r.root[k] != k ==>
            r.clusters[k] == clusters[k] && multiset(clusters[k]) <= multiset(r.clusters[r.root[k]]))
      && (forall k :: 0 <= k < |clusters| && r.root[k] == k ==>
            multiset(r.clusters[k]) == Gather(r.root, clusters, k, |clusters|))
  {
    var init := InitialState(env, clusters);
    InitialStateSatisfiesInvariant(env, clusters);
    forall r | 0 <= r < |clusters|
      ensures Gather(init.root, clusters, r, |clusters|) == multiset(clusters[r])
    {
      GatherIdentity(init.root, clusters, r, |clusters|);
    }
    assert Conserves(init, clusters);
    if performFitMerge {
      MergeFromPreservesInvariant(init, env, 0);
      MergeFromKeepsAbsorbedPoints(init, env, clusters, 0);
      MergeFromConserves(init, env, clusters, 0);
    }
  }

  /** Without fit merging every cluster stays its own root with its initial fit. */
  lemma DetectionWithoutMergeKeepsClustersApart(env: MergeEnv, clusters: seq<seq<Point>>)
    requires |env.search| == |clusters|
    ensures var r := DetectionState(env, clusters, false);
      && r.clusters == clusters
      && (forall k :: 0 <= k < |clusters| ==> r.root[k] == k && r.fits[k] == Refit(env, clusters[k], k))
  {
  }
}
