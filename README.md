# Tabletop object recognizer: fit, merge and report

A Dafny model of the core of `TabletopObjectRecognizer`
(`include/tabletop/object/tabletop_object_detector.h`). The recognizer takes
point clusters produced by table-top segmentation, fits each one against the
registered object models, merges clusters whose best fits sit at the same
place on the table (they are fragments of one object), re-fits each merged
cluster, and reports one result per surviving cluster whose confidence
clears a cutoff.

Modules, one per concern of the header:

- `Geometry` (geometry.dfy): points, poses, fit records (`ModelFitInfo`),
  meshes, registry entries and the per-cluster search index, as plain records.
- `Confidence` (confidence.dfy): `getConfidence`, 1 - (1 - s)^2, and its
  range, end points, monotonicity and concavity.
- `FitDistance` (fit_distance.dfy): `fitDistance` as a squared planar
  distance, the merge test `Close`, and `fitClusterDistance` as a minimum loop.
- `FitMerge` (merge.dfy): the merge phase as functions over the three
  parallel arrays of the C++ (`cluster_model_indices` as `root`,
  `raw_fit_results` as `fits`, and the clusters): the inner partner search
  `FindPartner`, one absorption `Absorb`, the loop `MergeFrom`, and the
  lemmas about them (the root-map invariant, termination, the frame, the
  fixed point).
- `Aggregation` (aggregate.dfy): the result loop as `Aggregate`, with
  soundness, order, completeness and length.
- `Recognizer` (recognizer.dfy): the class itself. `ObjectDetection` works
  imperatively on arrays, with the same loops as the C++; each loop is
  proved to compute the matching function of `FitMerge` or `Aggregation`.
- `Scenarios` (scenarios.dfy): consequences on small inputs: two close
  clusters become one, two distant ones stay apart, and the merge output is
  not always a fixed point of the merge loop.

The model-search algorithm (`ExhaustiveFitDetector::fitBestModels`) is not
part of this model. It is the parameter `fitBestModels: FitFn` of the class.
The function receives the registry, the points, the number of models wanted,
the search index and the cutoff, and returns a best-first list of fits.
Nothing is assumed about the fits it returns. The model does assume the fitter is deterministic: its answer depends only on those five arguments, so fitting the same points with the same index gives the same list. The invariant that a live root's fits are the fitter's answer on its current points relies on this. Re-fitting after a merge passes the
cluster's merged points but the search index built over its original points,
as line 178 does with `search[i]`. The index is never rebuilt, and
`Refit` keeps that distinction.

Numbers are `real`. Distances are compared squared: `Close(a, b, t)` is
`0 < t && dx*dx + dy*dy < t*t`. `CloseIffBelowThreshold` proves this equals
`sqrt(dx*dx + dy*dy) < t` for every threshold `t`.

One might expect a second run of the merge loop to absorb nothing. The code
does not guarantee that, and the model follows the code. The scan only moves forward,
and a re-fit can move a grown root's fit onto the fit of a root the scan has
already passed. `Scenarios.MergeOutputNotAlwaysFixedPoint` gives three
clusters where a second run of the loop merges two roots that the first run
left apart. What does hold is `FitMerge.NoCloseRootsIsFixedPoint`: the loop
leaves alone any state in which no two live roots with fits are close.

## Model

| member | source | states |
|---|---|---|
| Confidence.GetConfidence | include/tabletop/object/tabletop_object_detector.h:60-63 | 1 - (1 - s)^2 on reals |
| Confidence.ConfidenceFixedPoints | include/tabletop/object/tabletop_object_detector.h:60-63 | the confidence of score 0 is 0, of score 1 is 1, of score 0.5 is 0.75 |
| Confidence.ConfidenceAtMostOne | include/tabletop/object/tabletop_object_detector.h:60-63 | no score, in range or not, yields a confidence above 1 |
| Confidence.ConfidenceInUnitInterval | include/tabletop/object/tabletop_object_detector.h:60-63 | a score in [0, 1] yields a confidence in [0, 1] |
| Confidence.ConfidenceMonotone | include/tabletop/object/tabletop_object_detector.h:60-63 | on [0, 1] the confidence never decreases as the score grows, and strictly increases for a strictly larger score |
| Confidence.ConfidenceOneOnlyForPerfectScore | include/tabletop/object/tabletop_object_detector.h:60-63 | on [0, 1] full confidence comes from score 1 and from no other score |
| Confidence.ConfidenceAtLeastScore | include/tabletop/object/tabletop_object_detector.h:60-63 | on [0, 1] the confidence is the score raised by exactly s(1 - s), so never below the score |
| Confidence.ConfidenceConcave | include/tabletop/object/tabletop_object_detector.h:60-63 | the transform is concave: the mean of two confidences is at most the confidence of the mean score |
| FitDistance.PlanarDistanceSq | include/tabletop/object/tabletop_object_detector.h:212-219 | the square of `fitDistance`: (dx)^2 + (dy)^2 over the x and y of the two fit positions |
| FitDistance.Close | include/tabletop/object/tabletop_object_detector.h:166 | the merge test `fitDistance(a, b) < fit_merge_threshold_`, as a comparison of squares with a positive threshold |
| FitDistance.PlanarDistanceSqNonNegative | include/tabletop/object/tabletop_object_detector.h:212-219 | the planar distance between two fits is non-negative and zero when their x/y positions coincide |
| FitDistance.PlanarDistanceSqSymmetric | include/tabletop/object/tabletop_object_detector.h:212-219 | the distance and the merge test do not depend on the order of the two fits |
| FitDistance.PlanarDistanceSqOnlyReadsXY | include/tabletop/object/tabletop_object_detector.h:212-219 | only the x and y of the two positions matter (not z, orientation, model or score) |
| FitDistance.CloseIffBelowThreshold | include/tabletop/object/tabletop_object_detector.h:166 | the squared comparison `Close` holds exactly when the square-root distance is below the threshold, for every threshold |
| FitDistance.FitClusterDistanceSq | include/tabletop/object/tabletop_object_detector.h:221-236 | the result is the least squared planar distance from a cluster point to the fit position, capped at 100 squared, and exactly 100 squared for an empty cluster |
| FitMerge.InitialState | include/tabletop/object/tabletop_object_detector.h:115-135 | before merging, every cluster is its own root and its fit list is the fitter's answer on its own points with its own index |
| FitMerge.Refit | include/tabletop/object/tabletop_object_detector.h:126-129 | the fitter applied to the registry, the given points, the model count (`max(1, num_models)` with `num_models` fixed at 1 by line 113), the cluster's own original search index and the cutoff, as in the first fit and the re-fit at line 178 |
| FitMerge.IsPartner | include/tabletop/object/tabletop_object_detector.h:154-166 | j is after i, still its own root, has fits, and its top fit is close to i's top fit |
| FitMerge.FindPartner | include/tabletop/object/tabletop_object_detector.h:150-168 | the partner is the smallest index after i that is a live root with fits whose top fit is close to i's top fit; no index before it qualifies; n when none does |
| FitMerge.Absorb | include/tabletop/object/tabletop_object_detector.h:169-178 | an absorption changes exactly four things: i's points gain j's, j's fits are cleared, root[j] becomes i, i is re-fitted on its merged points with its original index; every other entry is unchanged, and j keeps its points |
| FitMerge.LiveAboveDropsByOne | include/tabletop/object/tabletop_object_detector.h:141-184 | retiring a live root above the scan index removes exactly that index from the live roots above it; with the scan index this is the loop's termination measure |
| FitMerge.MergeFrom | include/tabletop/object/tabletop_object_detector.h:138-185 | the merge loop resumed at scan index i; it terminates on (n - i, live roots above i) and keeps the three arrays the same length |
| FitMerge.DetectionState | include/tabletop/object/tabletop_object_detector.h:107-185 | the state aggregated from: the initial fits, merged only when fit merging is on |
| FitMerge.InitialStateSatisfiesInvariant | include/tabletop/object/tabletop_object_detector.h:117 | the identity root map with the initial fits satisfies the merge invariant |
| FitMerge.MergeFromSkips | include/tabletop/object/tabletop_object_detector.h:144-183 | a pass that finds cluster i absorbed or fitless (lines 144-147), or without a partner (lines 180-183), only moves the scan to i + 1 |
| FitMerge.MergeFromAbsorbs | include/tabletop/object/tabletop_object_detector.h:166-179 | a pass that finds a partner j of live root i absorbs it and stays at i; the live roots above i are then exactly the previous ones without j |
| FitMerge.InvariantAdvances | include/tabletop/object/tabletop_object_detector.h:144-147 | skipping or finishing a root keeps the merge invariant at the next scan index |
| FitMerge.AbsorbPreservesInvariant | include/tabletop/object/tabletop_object_detector.h:172-178 | an absorption by the live root at the scan index keeps the invariant: absorbed entries point to a smaller live root at most the scan index, have no fits, and their points are among their root's; live roots' fits are the fitter's answer on their current points |
| FitMerge.MergeFromPreservesInvariant | include/tabletop/object/tabletop_object_detector.h:138-185 | the whole merge loop keeps that invariant |
| FitMerge.MergeFromKeepsAbsorbedPoints | include/tabletop/object/tabletop_object_detector.h:169-176 | an absorbed cluster never absorbed anything, so it ends with exactly its original points |
| FitMerge.MergeFromFrame | include/tabletop/object/tabletop_object_detector.h:141-184 | the scan never changes an entry below the scan index or an absorbed entry, and no absorbed entry becomes a root again |
| FitMerge.NoCloseRootsIsFixedPoint | include/tabletop/object/tabletop_object_detector.h:141-184 | when no two live roots with fits are close, the merge loop changes nothing |
| FitMerge.DetectionStateProperties | include/tabletop/object/tabletop_object_detector.h:107-185 | after detection the invariant holds; every absorbed cluster keeps its original points, all of which are among its root's final points; and every live root holds exactly (as a multiset) the original points of itself and of the clusters that point to it, none lost and none duplicated |
| FitMerge.AbsorbConserves | include/tabletop/object/tabletop_object_detector.h:172-176 | one absorption moves exactly the absorbed cluster's original points into the absorbing root and changes no other root's point total |
| FitMerge.MergeFromConserves | include/tabletop/object/tabletop_object_detector.h:138-185 | over the whole loop every live root's points stay the multiset sum of the original points of the clusters pointing to it |
| FitMerge.DetectionWithoutMergeKeepsClustersApart | include/tabletop/object/tabletop_object_detector.h:132-138 | without fit merging the root map stays the identity, the clusters are untouched and each fit list is the initial fit |
| Aggregation.Reported | include/tabletop/object/tabletop_object_detector.h:190-197 | cluster i is still its own root, has fits, and its top fit's confidence is not below the cutoff |
| Aggregation.ResultFor | include/tabletop/object/tabletop_object_detector.h:198-203 | the result carries the top fit's pose, its confidence, its model id, the cluster's final points and the cluster index |
| Aggregation.Aggregate | include/tabletop/object/tabletop_object_detector.h:187-206 | at most one result per visited cluster, in strictly ascending cluster order; each from a live root with fits whose confidence clears the cutoff, built from its top fit and its final points |
| Aggregation.AggregateResultFields | include/tabletop/object/tabletop_object_detector.h:193-205 | each result carries its root's index, final points, top-fit model id and pose, and that fit's confidence, which is not below the cutoff |
| Aggregation.AggregateComplete | include/tabletop/object/tabletop_object_detector.h:188-206 | every live root with fits whose confidence clears the cutoff has its result |
| Aggregation.AggregateContains | include/tabletop/object/tabletop_object_detector.h:188-206 | a reported cluster k has its result among those appended once the loop has passed k |
| Aggregation.AggregateLength | include/tabletop/object/tabletop_object_detector.h:188-206 | there are at most as many results as clusters, and as many only when every cluster is a root with fits that clears the cutoff |
| Recognizer.TabletopObjectRecognizer.constructor | include/tabletop/object/tabletop_object_detector.h:66-71 | the detector keeps the fitter it was given, the merge threshold starts at 0.02, and no model is registered |
| Recognizer.TabletopObjectRecognizer.ClearObjects | include/tabletop/object/tabletop_object_detector.h:78-82 | the detector forgets every registered model |
| Recognizer.TabletopObjectRecognizer.AddObject | include/tabletop/object/tabletop_object_detector.h:84-88 | the detector registers one more model after the existing ones |
| Recognizer.TabletopObjectRecognizer.ObjectDetection | include/tabletop/object/tabletop_object_detector.h:103-207 | the clusters end as the detection state's clusters and the caller's results gain exactly `Aggregate` of that state: earlier entries kept, at most one per cluster, ascending, each at or above the cutoff |
| Recognizer.TabletopObjectRecognizer.FitClusters | include/tabletop/object/tabletop_object_detector.h:108-135 | the fan-out and join leave the identity root map, one search index per cluster over its points, and each cluster's initial fit |
| Recognizer.TabletopObjectRecognizer.FindMergePartner | include/tabletop/object/tabletop_object_detector.h:150-168 | the inner loop stops at `FindPartner`'s index: the first close live partner, or n |
| Recognizer.TabletopObjectRecognizer.MergeCloseFits | include/tabletop/object/tabletop_object_detector.h:138-185 | the in-place merge loop leaves the arrays equal to `MergeFrom` of their initial contents |
| Recognizer.TabletopObjectRecognizer.MergeStep | include/tabletop/object/tabletop_object_detector.h:143-183 | one pass of the loop body leaves the remaining merge (`MergeFrom` from the new scan index) unchanged, and either advances the scan or retires a live root above it |
| Recognizer.TabletopObjectRecognizer.AbsorbPartner | include/tabletop/object/tabletop_object_detector.h:172-178 | the four in-place updates of an absorption leave the arrays equal to `Absorb` of their previous contents |
| Recognizer.TabletopObjectRecognizer.AppendResults | include/tabletop/object/tabletop_object_detector.h:187-206 | the result loop appends exactly `Aggregate` of the final arrays to the caller's results |
| Scenarios.DefaultThresholdExamples | include/tabletop/object/tabletop_object_detector.h:70 | at threshold 0.02, fits at (0, 0) and (0.01, 0.01) are close and fits at (0, 0) and (0.05, 0) are not |
| Scenarios.TwoCloseClustersMerge | include/tabletop/object/tabletop_object_detector.h:141-206 | two clusters with close top fits end as one root holding both point lists and the re-fit; the only possible result is that root's, and none if the re-fit is empty or below the cutoff |
| Scenarios.TwoDistantClustersStayApart | include/tabletop/object/tabletop_object_detector.h:141-185 | two clusters whose top fits are not close are left as two roots with their own points and fits |
| Scenarios.MergeOutputNotAlwaysFixedPoint | include/tabletop/object/tabletop_object_detector.h:151-183 | a three-cluster input whose merge output is changed by a second run of the loop: the forward-only scan plus re-fitting do not reach a fixed point |

## Left out

- The `std::async` fan-out and the `future.get()` join (lines 110, 126-135). The initial fits are computed one cluster after another. Each fit depends only on its own cluster, so the order does not matter.
- Building the OpenCV FLANN k-d tree (lines 111, 118-124). It is a foreign library. `KdIndex` records only the points it was built over.
- The internals of `ExhaustiveFitDetector` and `IterativeTranslationFitter` (`fitBestModels`, `addObject`, `clearObjects`): their sources are not part of this model. `fitBestModels` is the parameter `FitFn`, and the registry is a list of `(model id, mesh)` entries that `AddObject` appends to and `ClearObjects` empties.
- The disabled cluster-versus-fit merge fallback (lines 156-164). It is commented out in the source.
- Floating point: `float`/`double` rounding, the `float` field `confidence_` and the `float` cutoff are all `real`. A reported confidence therefore clears the cutoff exactly, with no rounding effects.
- FitDistance.PlanarDistanceSq: models the square of `fitDistance`; the final `sqrt` is not modelled, and `CloseIffBelowThreshold` connects the two.
- FitDistance.FitClusterDistanceSq: returns the squared distance; the final `sqrt` of `fitClusterDistance` is not modelled (the cap 100 appears as 100 squared).
- `cv::Mat(clusters[i])` at line 118 wraps the cluster's storage without copying, and the append at line 172 may reallocate that storage before line 178 re-fits with `search[i]`. `KdIndex` holds its own copy of the original points, so the model does not capture what the FLANN index reads if it keeps a pointer into the reallocated storage. The OpenCV source is not part of this model.
- Exceptions thrown by `fitBestModels` are not modelled, since the fitter is a total function here. In the source such an exception is rethrown by `future.get()` at line 134, or raised at line 178 after line 172 has already grown the caller's `clusters[i]`. The model therefore does not capture that partly merged state.
- ROS message types (`geometry_msgs::Pose`, `shape_msgs::Mesh`) are reduced to plain records. The orientation is carried through but never inspected.
- `objectDetection` appends to the caller's `results` vector in place. The model takes that list as an input and returns it with the appended entries.
- The integer width of `size_t` and the `(int)` casts in the root comparisons. Indices are unbounded naturals.
