/**
 * Plain records standing in for the message and OpenCV types the recognizer
 * handles: 3D points of a cluster, poses, fit records and model meshes.
 * Coordinates are `real`; the floating-point precision of the original
 * `float`/`double` values is not modelled.
 */
module Geometry {

  /** A 3D point (a `cv::Vec3f` of a cluster, or the position of a pose). */
  datatype Point = Point(x: real, y: real, z: real)

  /** Orientation part of a pose; carried through unchanged by the core. */
  datatype Quaternion = Quaternion(x: real, y: real, z: real, w: real)

  /** A 6-DoF pose: position plus orientation. */
  datatype Pose = Pose(position: Point, orientation: Quaternion)

  /** One candidate model fitted to one cluster: model id, pose and raw score. */
  datatype ModelFitInfo = ModelFitInfo(modelId: int, pose: Pose, score: real)

  /** A model mesh as registered with the detector. */
  datatype Mesh = Mesh(vertices: seq<Point>, triangles: seq<(nat, nat, nat)>)

  /** One entry of the detector's model registry. */
  datatype ModelEntry = ModelEntry(modelId: int, mesh: Mesh)

  /**
   * The nearest-neighbour index the fitter uses for one cluster. Its internal
   * structure belongs to a foreign library; all the model keeps is which
   * points it was built over.
   */
  datatype KdIndex = KdIndex(points: seq<Point>)

  /** The index over a cluster's points (`cv::flann::Index` over `cv::Mat(cluster)`). */
  function BuildIndex(points: seq<Point>): KdIndex
  {
    KdIndex(points)
  }
}
