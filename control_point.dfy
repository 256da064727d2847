/**
 * The per-cell payload of a mesh gradient: a position, the two tangents that
 * shape the surface around it, and an RGB colour. Its Swift declaration is not
 * part of this model; this record carries the four properties the animator
 * reads and builds (Sources/MeshGradient/MeshAnimator.swift:191).
 */
module ControlPoints {
  import opened Vectors

  datatype ControlPoint = ControlPoint(location: Vec2, uTangent: Vec2, vTangent: Vec2, color: Vec3)

  /** `ControlPoint.zero`, the fill value of a fresh result grid. */
  const ZERO_POINT: ControlPoint := ControlPoint(ZERO2, ZERO2, ZERO2, ZERO3)
}
