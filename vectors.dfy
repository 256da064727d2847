/**
 * The element types the mesh gradient works with: 2-D vectors (locations and
 * tangents) and 3-D vectors (RGB colours), with the vector-space operations the
 * grid relies on (Sources/MeshGradient/Grid.swift:95-112). Components are exact
 * reals; single-precision rounding is not modelled.
 */
module Vectors {

  /** A two-component vector (SIMD2<Float> in the source). */
  datatype Vec2 = Vec2(x: real, y: real)
  {
    function Add(other: Vec2): Vec2 { Vec2(x + other.x, y + other.y) }

    function Sub(other: Vec2): Vec2 { Vec2(x - other.x, y - other.y) }

    /** Component-wise multiplication by the same scalar, as `scale(by:)` does. */
    function Scale(k: real): Vec2 { Vec2(x * k, y * k) }

    function MagnitudeSquared(): real { x * x + y * y }
  }

  /** A three-component vector (SIMD3<Float> in the source). */
  datatype Vec3 = Vec3(x: real, y: real, z: real)
  {
    function Add(other: Vec3): Vec3 { Vec3(x + other.x, y + other.y, z + other.z) }

    function Sub(other: Vec3): Vec3 { Vec3(x - other.x, y - other.y, z - other.z) }

    function Scale(k: real): Vec3 { Vec3(x * k, y * k, z * k) }

    function MagnitudeSquared(): real { x * x + y * y + z * z }
  }

  const ZERO2: Vec2 := Vec2(0.0, 0.0)
  const ZERO3: Vec3 := Vec3(0.0, 0.0, 0.0)

  /**
   * The capabilities a grid element must offer for the grid's own arithmetic
   * (the `VectorArithmetic & AdditiveArithmetic` conformance the grid's
   * extension is conditioned on), passed explicitly as a record of operations.
   */
  datatype VectorSpace<!V> = VectorSpace(
    zero: V,
    add: (V, V) -> V,
    sub: (V, V) -> V,
    scale: (V, real) -> V,
    magnitudeSquared: V -> real)

  function Vec2Space(): VectorSpace<Vec2>
  {
    VectorSpace(ZERO2, (a: Vec2, b: Vec2) => a.Add(b), (a: Vec2, b: Vec2) => a.Sub(b),
                (a: Vec2, k: real) => a.Scale(k), (a: Vec2) => a.MagnitudeSquared())
  }

  function Vec3Space(): VectorSpace<Vec3>
  {
    VectorSpace(ZERO3, (a: Vec3, b: Vec3) => a.Add(b), (a: Vec3, b: Vec3) => a.Sub(b),
                (a: Vec3, k: real) => a.Scale(k), (a: Vec3) => a.MagnitudeSquared())
  }

  /**
   * The laws of an element type that the grid-level properties rest on: zero is
   * a right identity of `+` and `-`, subtraction undoes addition, squared
   * magnitudes are non-negative and scale with the square of the factor.
   */
  ghost predicate Lawful<V(!new)>(vs: VectorSpace<V>)
  {
    && (forall a :: vs.add(a, vs.zero) == a)
    && (forall a :: vs.sub(a, vs.zero) == a)
    && (forall a, b :: vs.sub(vs.add(a, b), b) == a)
    && (forall a :: vs.magnitudeSquared(a) >= 0.0)
    && (forall a, k :: vs.magnitudeSquared(vs.scale(a, k)) == k * k * vs.magnitudeSquared(a))
  }

  lemma Vec2MagnitudeSquaredScaled(a: Vec2, k: real)
    ensures a.Scale(k).MagnitudeSquared() == k * k * a.MagnitudeSquared()
  {
  }

  lemma Vec3MagnitudeSquaredScaled(a: Vec3, k: real)
    ensures a.Scale(k).MagnitudeSquared() == k * k * a.MagnitudeSquared()
  {
  }

  /** SIMD2 with the source's operations satisfies the element laws. */
  lemma Vec2SpaceLawful()
    ensures Lawful(Vec2Space())
  {
    var vs := Vec2Space();
    forall a: Vec2 ensures vs.magnitudeSquared(a) >= 0.0 {
      assert a.x * a.x >= 0.0 && a.y * a.y >= 0.0;
    }
    forall a: Vec2, k: real ensures vs.magnitudeSquared(vs.scale(a, k)) == k * k * vs.magnitudeSquared(a) {
      Vec2MagnitudeSquaredScaled(a, k);
    }
  }

  /** SIMD3 with the source's operations satisfies the element laws. */
  lemma Vec3SpaceLawful()
    ensures Lawful(Vec3Space())
  {
    var vs := Vec3Space();
    forall a: Vec3 ensures vs.magnitudeSquared(a) >= 0.0 {
      assert a.x * a.x >= 0.0 && a.y * a.y >= 0.0 && a.z * a.z >= 0.0;
    }
    forall a: Vec3, k: real ensures vs.magnitudeSquared(vs.scale(a, k)) == k * k * vs.magnitudeSquared(a) {
      Vec3MagnitudeSquaredScaled(a, k);
    }
  }
}
