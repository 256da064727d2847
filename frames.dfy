/**
 * The per-cell animation state of the active `MeshAnimator`
 * (Sources/MeshGradient/MeshAnimator.swift:136-250): four independent channels
 * (location, uTangent, vTangent, colour), each with its own start, target,
 * completion factor and per-tick increment. `AnimationFrameControlPoint` is a
 * Swift struct, so its `mutating` members become functions that return the
 * updated value; the four fields of a property are grouped into one `Channel`.
 */
module AnimationFrames {
  import opened Vectors
  import opened ControlPoints

  /** The four stored fields of one animated property. */
  datatype Channel<V> = Channel(final: V, start: V, completionFactor: real, scaleFactor: real)
  {
    /** Mid-segment: progress in [0, 1) and a positive per-tick increment. */
    predicate Live()
    {
      0.0 <= completionFactor < 1.0 && scaleFactor > 0.0
    }
  }

  datatype AnimationFrame = AnimationFrame(
    location: Channel<Vec2>,
    uTangent: Channel<Vec2>,
    vTangent: Channel<Vec2>,
    color: Channel<Vec3>)
  {
    predicate Live()
    {
      location.Live() && uTangent.Live() && vTangent.Live() && color.Live()
    }
  }

  /** `AnimationFrameControlPoint.zero` (lines 227-249). */
  const ZERO_FRAME: AnimationFrame :=
    AnimationFrame(Channel(ZERO2, ZERO2, 0.0, 0.0), Channel(ZERO2, ZERO2, 0.0, 0.0),
                   Channel(ZERO2, ZERO2, 0.0, 0.0), Channel(ZERO3, ZERO3, 0.0, 0.0))

  /**
   * The placeholder frame is not live: its increments are 0, so every cell
   * must be given a real segment before the first tick.
   */
  lemma ZeroFrameNotLive(f: AnimationFrame)
    requires f == ZERO_FRAME
    ensures !f.Live()
  {
    assert !f.location.Live();
  }

  /** A tick leaves the placeholder frame as it is and produces the zero control point. */
  lemma ZeroFrameIsInert(f: AnimationFrame)
    requires f == ZERO_FRAME
    ensures BumpNextFrame(f).frame == f
    ensures BumpNextFrame(f).point == ZERO_POINT
  {
    var b := BumpNextFrame(f);
    assert AdvanceCompletion(0.0, 0.0) == 0.0;
    assert b.frame.location == f.location && b.frame.uTangent == f.uTangent;
    assert b.frame.vTangent == f.vTangent && b.frame.color == f.color;
    ZeroLerp2(Smoothstep(0.0));
    ZeroLerp3(Smoothstep(0.0));
  }

  /** Interpolating from zero to zero gives zero, whatever the factor. */
  lemma ZeroLerp2(t: real)
    ensures Lerp2(ZERO2, ZERO2, t) == ZERO2
  {
    assert 0.0 * t == 0.0;
  }

  lemma ZeroLerp3(t: real)
    ensures Lerp3(ZERO3, ZERO3, t) == ZERO3
  {
    assert 0.0 * t == 0.0;
  }

  /** The smoothstep easing curve c * c * (3 - 2c): on [0, 1] it stays in [0, 1]. */
  function Smoothstep(c: real): (e: real)
    ensures 0.0 <= c <= 1.0 ==> 0.0 <= e <= 1.0
  {
    assert 0.0 <= c <= 1.0 ==> 0.0 <= c * c * (3.0 - 2.0 * c) <= 1.0 by {
      if 0.0 <= c <= 1.0 {
        ProductNonNegative(c, c);
        ProductNonNegative(c * c, 3.0 - 2.0 * c);
        assert 1.0 - c * c * (3.0 - 2.0 * c) == (1.0 - c) * (1.0 - c) * (1.0 + 2.0 * c);
        ProductNonNegative(1.0 - c, 1.0 - c);
        ProductNonNegative((1.0 - c) * (1.0 - c), 1.0 + 2.0 * c);
      }
    }
    c * c * (3.0 - 2.0 * c)
  }

  lemma SmoothstepFixedPoints()
    ensures Smoothstep(0.0) == 0.0 && Smoothstep(1.0) == 1.0 && Smoothstep(0.5) == 0.5
  {
  }

  /** The curve is symmetric about its midpoint: easing out mirrors easing in. */
  lemma SmoothstepSymmetric(c: real)
    ensures Smoothstep(1.0 - c) == 1.0 - Smoothstep(c)
  {
  }

  lemma ProductNonNegative(a: real, b: real)
    requires a >= 0.0 && b >= 0.0
    ensures a * b >= 0.0
  {
  }

  lemma ProductAtMost(a: real, b: real)
    requires a >= 0.0 && b <= 1.0
    ensures a * b <= a
  {
  }

  /** The difference quotient of the curve between a and b. */
  function Slope(a: real, b: real): real
  {
    3.0 * (a + b) - 2.0 * (a * a + a * b + b * b)
  }

  lemma SmoothstepDifference(a: real, b: real)
    ensures Smoothstep(b) - Smoothstep(a) == (b - a) * Slope(a, b)
  {
  }

  lemma SlopeNonNegative(a: real, b: real)
    requires 0.0 <= a <= b <= 1.0
    ensures Slope(a, b) >= 0.0
  {
    ProductAtMost(a, a);
    ProductAtMost(a, b);
    ProductAtMost(b, b);
    LinearSlopeBound(a, b, a * a, a * b, b * b);
  }

  /** The linear step of the slope bound, over the products as plain numbers. */
  lemma LinearSlopeBound(a: real, b: real, aa: real, ab: real, bb: real)
    requires 0.0 <= a <= b
    requires aa <= a && ab <= a && bb <= b
    ensures 3.0 * (a + b) - 2.0 * (aa + ab + bb) >= 0.0
  {
  }

  /** On [0, 1] the eased factor never decreases as completion grows. */
  lemma SmoothstepMonotone(a: real, b: real)
    requires 0.0 <= a <= b <= 1.0
    ensures Smoothstep(a) <= Smoothstep(b)
  {
    SmoothstepDifference(a, b);
    SlopeNonNegative(a, b);
    ProductNonNegative(b - a, Slope(a, b));
  }

  /** `completionFactor += scaleFactor`, clamped at 1 (lines 200-203). */
  function AdvanceCompletion(completionFactor: real, scaleFactor: real): (r: real)
    ensures r <= 1.0
    ensures r == 1.0 <==> completionFactor + scaleFactor >= 1.0
    ensures r < 1.0 ==> r == completionFactor + scaleFactor
    ensures completionFactor <= 1.0 && scaleFactor >= 0.0 ==> completionFactor <= r
  {
    if completionFactor + scaleFactor > 1.0 then 1.0 else completionFactor + scaleFactor
  }

  /** `start + (end - start) scaled by t`. */
  function Lerp2(start: Vec2, end: Vec2, t: real): Vec2
  {
    start.Add(end.Sub(start).Scale(t))
  }

  function Lerp3(start: Vec3, end: Vec3, t: real): Vec3
  {
    start.Add(end.Sub(start).Scale(t))
  }

  /** v lies between a and b. */
  predicate Between(a: real, b: real, v: real)
  {
    (a <= v <= b) || (b <= v <= a)
  }

  predicate Between2(a: Vec2, b: Vec2, v: Vec2)
  {
    Between(a.x, b.x, v.x) && Between(a.y, b.y, v.y)
  }

  predicate Between3(a: Vec3, b: Vec3, v: Vec3)
  {
    Between(a.x, b.x, v.x) && Between(a.y, b.y, v.y) && Between(a.z, b.z, v.z)
  }

  lemma InterpolationBetween(a: real, b: real, t: real)
    requires 0.0 <= t <= 1.0
    ensures Between(a, b, a + (b - a) * t)
  {
    if a <= b {
      assert (b - a) * t <= (b - a) * 1.0;
      assert (b - a) * t >= (b - a) * 0.0;
    } else {
      assert (b - a) * t >= (b - a) * 1.0;
      assert (b - a) * t <= (b - a) * 0.0;
    }
  }

  /** For completion in [0, 1] the eased value never overshoots its endpoints. */
  lemma EasedInterpolationBetween2(start: Vec2, end: Vec2, c: real)
    ensures 0.0 <= c <= 1.0 ==> Between2(start, end, Lerp2(start, end, Smoothstep(c)))
  {
    if 0.0 <= c <= 1.0 {
      var t := Smoothstep(c);
      var v := Lerp2(start, end, t);
      InterpolationBetween(start.x, end.x, t);
      assert v.x == start.x + (end.x - start.x) * t;
      InterpolationBetween(start.y, end.y, t);
      assert v.y == start.y + (end.y - start.y) * t;
    }
  }

  lemma EasedInterpolationBetween3(start: Vec3, end: Vec3, c: real)
    ensures 0.0 <= c <= 1.0 ==> Between3(start, end, Lerp3(start, end, Smoothstep(c)))
  {
    if 0.0 <= c <= 1.0 {
      var t := Smoothstep(c);
      var v := Lerp3(start, end, t);
      InterpolationBetween(start.x, end.x, t);
      assert v.x == start.x + (end.x - start.x) * t;
      InterpolationBetween(start.y, end.y, t);
      assert v.y == start.y + (end.y - start.y) * t;
      InterpolationBetween(start.z, end.z, t);
      assert v.z == start.z + (end.z - start.z) * t;
    }
  }

  /** What updateProperty returns (the value) and writes back (the completion factor). */
  datatype PropertyStep<V> = PropertyStep(value: V, completionFactor: real)

  /**
   * `updateProperty2` (lines 194-208): advances the completion factor and
   * returns the eased interpolation between start and end.
   */
  function UpdateProperty2(start: Vec2, end: Vec2, completionFactor: real, scaleFactor: real): (r: PropertyStep<Vec2>)
    ensures r.completionFactor == AdvanceCompletion(completionFactor, scaleFactor)
    ensures r.completionFactor == 1.0 ==> r.value == end
    ensures r.completionFactor == 0.0 ==> r.value == start
    ensures 0.0 <= r.completionFactor ==> Between2(start, end, r.value)
  {
    var c := AdvanceCompletion(completionFactor, scaleFactor);
    EasedInterpolationBetween2(start, end, c);
    PropertyStep(Lerp2(start, end, Smoothstep(c)), c)
  }

  /** `updateProperty3` (lines 210-224): the same step for the colour's three components. */
  function UpdateProperty3(start: Vec3, end: Vec3, completionFactor: real, scaleFactor: real): (r: PropertyStep<Vec3>)
    ensures r.completionFactor == AdvanceCompletion(completionFactor, scaleFactor)
    ensures r.completionFactor == 1.0 ==> r.value == end
    ensures r.completionFactor == 0.0 ==> r.value == start
    ensures 0.0 <= r.completionFactor ==> Between3(start, end, r.value)
  {
    var c := AdvanceCompletion(completionFactor, scaleFactor);
    EasedInterpolationBetween3(start, end, c);
    PropertyStep(Lerp3(start, end, Smoothstep(c)), c)
  }

  /** `after` is `before` with only its completion factor advanced. */
  predicate Advanced<V(==)>(before: Channel<V>, after: Channel<V>)
  {
    after == before.(completionFactor := AdvanceCompletion(before.completionFactor, before.scaleFactor))
  }

  /** The control point a frame produces and the frame with its completions advanced. */
  datatype Bumped = Bumped(point: ControlPoint, frame: AnimationFrame)

  /**
   * `bumpNextFrame` (lines 161-192): advances each channel by one tick. Each
   * output property and each new channel is a function of that channel alone.
   */
  function BumpNextFrame(f: AnimationFrame): (r: Bumped)
    ensures Advanced(f.location, r.frame.location)
    ensures Advanced(f.uTangent, r.frame.uTangent)
    ensures Advanced(f.vTangent, r.frame.vTangent)
    ensures Advanced(f.color, r.frame.color)
    ensures r.point.location == Lerp2(f.location.start, f.location.final, Smoothstep(r.frame.location.completionFactor))
    ensures r.point.uTangent == Lerp2(f.uTangent.start, f.uTangent.final, Smoothstep(r.frame.uTangent.completionFactor))
    ensures r.point.vTangent == Lerp2(f.vTangent.start, f.vTangent.final, Smoothstep(r.frame.vTangent.completionFactor))
    ensures r.point.color == Lerp3(f.color.start, f.color.final, Smoothstep(r.frame.color.completionFactor))
  {
    var location := UpdateProperty2(f.location.start, f.location.final, f.location.completionFactor, f.location.scaleFactor);
    var uTangent := UpdateProperty2(f.uTangent.start, f.uTangent.final, f.uTangent.completionFactor, f.uTangent.scaleFactor);
    var vTangent := UpdateProperty2(f.vTangent.start, f.vTangent.final, f.vTangent.completionFactor, f.vTangent.scaleFactor);
    var color := UpdateProperty3(f.color.start, f.color.final, f.color.completionFactor, f.color.scaleFactor);
    Bumped(ControlPoint(location.value, uTangent.value, vTangent.value, color.value),
           AnimationFrame(f.location.(completionFactor := location.completionFactor),
                          f.uTangent.(completionFactor := uTangent.completionFactor),
                          f.vTangent.(completionFactor := vTangent.completionFactor),
                          f.color.(completionFactor := color.completionFactor)))
  }

  /**
   * Two frames that agree on one channel produce the same output and the same
   * new state for that channel, whatever their other channels hold.
   */
  lemma ChannelsIndependent(f: AnimationFrame, g: AnimationFrame)
    ensures f.location == g.location ==>
      BumpNextFrame(f).point.location == BumpNextFrame(g).point.location
      && BumpNextFrame(f).frame.location == BumpNextFrame(g).frame.location
    ensures f.uTangent == g.uTangent ==>
      BumpNextFrame(f).point.uTangent == BumpNextFrame(g).point.uTangent
      && BumpNextFrame(f).frame.uTangent == BumpNextFrame(g).frame.uTangent
    ensures f.vTangent == g.vTangent ==>
      BumpNextFrame(f).point.vTangent == BumpNextFrame(g).point.vTangent
      && BumpNextFrame(f).frame.vTangent == BumpNextFrame(g).frame.vTangent
    ensures f.color == g.color ==>
      BumpNextFrame(f).point.color == BumpNextFrame(g).point.color
      && BumpNextFrame(f).frame.color == BumpNextFrame(g).frame.color
  {
  }

  /** The completion factor after n ticks of a channel that is not regenerated in between. */
  function CompletionAfter(c: real, s: real, n: nat): real
  {
    if n == 0 then c else AdvanceCompletion(CompletionAfter(c, s, n - 1), s)
  }

  function Min(a: real, b: real): real
  {
    if a <= b then a else b
  }

  /** The completion n increments of s take c to, before clamping. */
  function Unclamped(c: real, s: real, n: nat): real
  {
    c + n as real * s
  }

  /** n clamped ticks from c reach min(1, c + n * s). */
  lemma {:induction false} CompletionAfterTicks(c: real, s: real, n: nat)
    requires c <= 1.0 && s >= 0.0
    ensures CompletionAfter(c, s, n) == Min(1.0, Unclamped(c, s, n))
  {
    if n > 0 {
      CompletionAfterTicks(c, s, n - 1);
      OneMoreTick(c, s, n);
      AdvanceOfClamped(Unclamped(c, s, n - 1), s);
    }
  }

  /** The n-th tick adds one more increment to the unclamped sum. */
  lemma OneMoreTick(c: real, s: real, n: nat)
    requires n > 0
    ensures Unclamped(c, s, n) == Unclamped(c, s, n - 1) + s
  {
    var m := (n - 1) as real;
    assert n as real == m + 1.0;
    OneMoreIncrement(m, s);
  }

  /** Advancing a value already clamped at 1 is clamping the advanced value. */
  lemma AdvanceOfClamped(p: real, s: real)
    requires s >= 0.0
    ensures AdvanceCompletion(Min(1.0, p), s) == Min(1.0, p + s)
  {
  }

  lemma OneMoreIncrement(m: real, s: real)
    ensures (m + 1.0) * s == m * s + s
  {
  }
}
