/**
 * The active mesh animator (Sources/MeshGradient/MeshAnimator.swift:101-419).
 * It keeps the immutable initial grid and a grid of per-cell animation frames;
 * every read of `grid` advances every channel of every cell by one tick and
 * starts a fresh segment, towards a target derived from the INITIAL grid, for
 * each channel that reached completion.
 *
 * The random duration draw is a nondeterministic choice within the configured
 * range; the randomizer callbacks are function values of the configuration.
 */
module MeshAnimation {
  import opened Vectors
  import opened Grids
  import opened ControlPoints
  import opened AnimationFrames

  /** A closed range of animation durations in seconds (`ClosedRange<TimeInterval>`). */
  datatype DurationRange = DurationRange(lowerBound: real, upperBound: real)
  {
    /** Durations are positive, so that `1 / duration` is defined. */
    predicate Valid()
    {
      0.0 < lowerBound <= upperBound
    }

    predicate Contains(duration: real)
    {
      lowerBound <= duration <= upperBound
    }
  }

  /**
   * The randomizer callbacks: each takes the value to perturb (the colour one
   * also takes the current colour), the cell coordinates and the grid size.
   */
  datatype MeshRandomizer = MeshRandomizer(
    locationRandomizer: (Vec2, int, int, int, int) -> Vec2,
    turbulencyRandomizer: (Vec2, int, int, int, int) -> Vec2,
    colorRandomizer: (Vec3, Vec3, int, int, int, int) -> Vec3)

  datatype Configuration = Configuration(
    framesPerSecond: int,
    locationAnimationSpeedRange: DurationRange,
    tangentAnimationSpeedRange: DurationRange,
    colorAnimationSpeedRange: DurationRange,
    meshRandomizer: MeshRandomizer)
  {
    /** A positive frame rate and positive, ordered duration ranges. */
    predicate Valid()
    {
      && framesPerSecond > 0
      && locationAnimationSpeedRange.Valid()
      && tangentAnimationSpeedRange.Valid()
      && colorAnimationSpeedRange.Valid()
    }

    /**
     * `Configuration.init` with its default arguments (lines 121-133): 60
     * frames per second, 1 to 3 seconds per location and tangent segment and
     * 0.1 to 0.2 seconds per colour segment. The defaults are valid, and a
     * colour segment lasts 6 to 12 ticks where the others last 60 to 180.
     */
    static function Default(meshRandomizer: MeshRandomizer): (c: Configuration)
      ensures c.Valid() && c.meshRandomizer == meshRandomizer
      ensures forall d :: c.locationAnimationSpeedRange.Contains(d) ==> 60.0 <= c.framesPerSecond as real * d <= 180.0
      ensures forall d :: c.tangentAnimationSpeedRange.Contains(d) ==> 60.0 <= c.framesPerSecond as real * d <= 180.0
      ensures forall d :: c.colorAnimationSpeedRange.Contains(d) ==> 6.0 <= c.framesPerSecond as real * d <= 12.0
    {
      Configuration(60, DurationRange(1.0, 3.0), DurationRange(1.0, 3.0), DurationRange(0.1, 0.2), meshRandomizer)
    }
  }

  /** `Double.random(in:)`: some duration within the closed range. */
  method RandomDuration(range: DurationRange) returns (duration: real)
    requires range.Valid()
    ensures range.Contains(duration)
  {
    assert range.Contains(range.lowerBound);
    duration :| range.Contains(duration);
  }

  /**
   * `(1 / framesPerSecond) / duration`: the per-tick completion increment of a
   * segment lasting `duration` seconds, so that framesPerSecond * duration
   * increments add up to exactly 1.
   */
  function ScaleFactorFor(framesPerSecond: int, duration: real): (s: real)
    requires framesPerSecond > 0 && duration > 0.0
    ensures s > 0.0
    ensures s * (framesPerSecond as real * duration) == 1.0
  {
    (1.0 / framesPerSecond as real) / duration
  }

  /**
   * s is the increment of some duration d of the range: s = 1 / (fps * d)
   * with lowerBound <= d <= upperBound.
   */
  predicate ScaleFactorInRange(s: real, framesPerSecond: int, range: DurationRange)
  {
    && 0.0 < s
    && range.lowerBound * (framesPerSecond as real * s) <= 1.0
    && 1.0 <= range.upperBound * (framesPerSecond as real * s)
  }

  lemma ProductMonotone(a: real, b: real, c: real)
    requires a <= b && c >= 0.0
    ensures a * c <= b * c
  {
  }

  /** A duration drawn from the range yields an increment the range admits. */
  lemma ScaleFactorForInRange(framesPerSecond: int, duration: real, range: DurationRange)
    requires framesPerSecond > 0 && range.Valid()
    requires range.Contains(duration)
    ensures ScaleFactorInRange(ScaleFactorFor(framesPerSecond, duration), framesPerSecond, range)
  {
    var s := ScaleFactorFor(framesPerSecond, duration);
    var f := framesPerSecond as real;
    assert duration * (f * s) == 1.0 by {
      assert s * (f * duration) == 1.0;
    }
    ProductNonNegative(f, s);
    ProductMonotone(range.lowerBound, duration, f * s);
    ProductMonotone(duration, range.upperBound, f * s);
  }

  /**
   * A channel animated with the increment of a d-second segment at
   * framesPerSecond, starting from 0, has completed after n ticks exactly
   * when n >= framesPerSecond * d.
   */
  lemma ReachesCompletionAfterDuration(framesPerSecond: int, duration: real, n: nat)
    requires framesPerSecond > 0 && duration > 0.0
    ensures CompletionAfter(0.0, ScaleFactorFor(framesPerSecond, duration), n) == 1.0
            <==> n as real >= framesPerSecond as real * duration
  {
    var s := ScaleFactorFor(framesPerSecond, duration);
    CompletionAfterTicks(0.0, s, n);
    IncrementThreshold(n as real, s, framesPerSecond as real * duration);
  }

  /** With s * k == 1, x increments of s reach 1 exactly when x >= k. */
  lemma IncrementThreshold(x: real, s: real, k: real)
    requires s > 0.0 && s * k == 1.0
    ensures x * s >= 1.0 <==> x >= k
  {
    if x >= k {
      ProductMonotone(k, x, s);
    } else {
      ProductStrictlyMonotone(x, k, s);
    }
  }

  lemma ProductStrictlyMonotone(a: real, b: real, c: real)
    requires a < b && c > 0.0
    ensures a * c < b * c
  {
  }

  /**
   * At 10 frames per second a 1-second segment has increment 0.1: the channel
   * is still mid-segment after 1 to 9 ticks, and the 10th tick lands exactly
   * on the target.
   */
  lemma TenTicksReachTarget(start: Vec2, target: Vec2, n: nat)
    ensures ScaleFactorFor(10, 1.0) == 0.1
    ensures n < 10 ==> CompletionAfter(0.0, 0.1, n) < 1.0
    ensures CompletionAfter(0.0, 0.1, 10) == 1.0
    ensures UpdateProperty2(start, target, CompletionAfter(0.0, 0.1, 9), 0.1).value == target
  {
    CompletionAfterTicks(0.0, 0.1, n);
    CompletionAfterTicks(0.0, 0.1, 9);
    CompletionAfterTicks(0.0, 0.1, 10);
  }

  /**
   * The targets for cell (x, y): each randomizer applied to the INITIAL
   * grid's value of its property at that cell.
   */
  function Targets(initialGrid: MeshGradientGrid<ControlPoint>, cfg: Configuration, x: int, y: int, gridWidth: int, gridHeight: int): ControlPoint
    requires 0 <= initialGrid.Index(x, y) < |initialGrid.elements|
  {
    var p := initialGrid.GetCell(x, y);
    var r := cfg.meshRandomizer;
    ControlPoint(r.locationRandomizer(p.location, x, y, gridWidth, gridHeight),
                 r.turbulencyRandomizer(p.uTangent, x, y, gridWidth, gridHeight),
                 r.turbulencyRandomizer(p.vTangent, x, y, gridWidth, gridHeight),
                 r.colorRandomizer(p.color, p.color, x, y, gridWidth, gridHeight))
  }

  /** The current target of each channel of a frame. */
  function FinalsOf(frame: AnimationFrame): ControlPoint
  {
    ControlPoint(frame.location.final, frame.uTangent.final, frame.vTangent.final, frame.color.final)
  }

  /** A new segment from `start` towards `target`, at completion 0, with an increment drawn from `range`. */
  predicate FreshSegment<V(==)>(ch: Channel<V>, start: V, target: V, framesPerSecond: int, range: DurationRange)
  {
    && ch.start == start
    && ch.final == target
    && ch.completionFactor == 0.0
    && ScaleFactorInRange(ch.scaleFactor, framesPerSecond, range)
  }

  /**
   * What a tick leaves in one channel, given its bumped state and the value it
   * produced: an expired channel starts a fresh segment from that value towards
   * `target`; any other keeps its bumped state.
   */
  predicate Renewed<V(==)>(bumped: Channel<V>, after: Channel<V>, out: V, target: V, framesPerSecond: int, range: DurationRange)
  {
    if bumped.completionFactor >= 1.0 then FreshSegment(after, out, target, framesPerSecond, range)
    else after == bumped
  }

  /** The state the initialiser gives cell (x, y): fresh segments from the initial value. */
  ghost predicate CellStarted(initialGrid: MeshGradientGrid<ControlPoint>, cfg: Configuration, frame: AnimationFrame,
                              x: int, y: int, gridWidth: int, gridHeight: int)
  {
    && 0 <= initialGrid.Index(x, y) < |initialGrid.elements|
    && var p := initialGrid.GetCell(x, y);
       var t := Targets(initialGrid, cfg, x, y, gridWidth, gridHeight);
       && FreshSegment(frame.location, p.location, t.location, cfg.framesPerSecond, cfg.locationAnimationSpeedRange)
       && FreshSegment(frame.uTangent, p.uTangent, t.uTangent, cfg.framesPerSecond, cfg.tangentAnimationSpeedRange)
       && FreshSegment(frame.vTangent, p.vTangent, t.vTangent, cfg.framesPerSecond, cfg.tangentAnimationSpeedRange)
       && FreshSegment(frame.color, p.color, t.color, cfg.framesPerSecond, cfg.colorAnimationSpeedRange)
  }

  /**
   * One tick of cell (x, y): the cell outputs what `bumpNextFrame` produces,
   * and each channel is renewed on its own, with its own duration range.
   */
  ghost predicate CellAdvanced(initialGrid: MeshGradientGrid<ControlPoint>, cfg: Configuration,
                               before: AnimationFrame, after: AnimationFrame, out: ControlPoint,
                               x: int, y: int, gridWidth: int, gridHeight: int)
  {
    && 0 <= initialGrid.Index(x, y) < |initialGrid.elements|
    && var b := BumpNextFrame(before);
       var t := Targets(initialGrid, cfg, x, y, gridWidth, gridHeight);
       && out == b.point
       && Renewed(b.frame.location, after.location, out.location, t.location, cfg.framesPerSecond, cfg.locationAnimationSpeedRange)
       && Renewed(b.frame.uTangent, after.uTangent, out.uTangent, t.uTangent, cfg.framesPerSecond, cfg.tangentAnimationSpeedRange)
       && Renewed(b.frame.vTangent, after.vTangent, out.vTangent, t.vTangent, cfg.framesPerSecond, cfg.tangentAnimationSpeedRange)
       && Renewed(b.frame.color, after.color, out.color, t.color, cfg.framesPerSecond, cfg.colorAnimationSpeedRange)
  }

  /**
   * Renewal of a live channel: it is reset to 0 exactly when the tick brought
   * it to completion, and then continues from the value just produced towards
   * the new target; otherwise only its completion moved. Either way it is live
   * again.
   */
  lemma RenewedChannel<V>(before: Channel<V>, bumped: Channel<V>, after: Channel<V>, out: V, target: V,
                              framesPerSecond: int, range: DurationRange)
    requires before.Live() && framesPerSecond > 0 && range.Valid()
    requires Advanced(before, bumped)
    requires Renewed(bumped, after, out, target, framesPerSecond, range)
    ensures after.Live()
    ensures after.completionFactor == 0.0 <==> before.completionFactor + before.scaleFactor >= 1.0
    ensures after.completionFactor == 0.0 ==> after.start == out && after.final == target
    ensures after.completionFactor != 0.0 ==>
              after.start == before.start && after.final == before.final && after.scaleFactor == before.scaleFactor
              && after.completionFactor == before.completionFactor + before.scaleFactor
  {
  }

  /** A cell tick keeps every channel live. */
  lemma CellAdvancedIsLive(initialGrid: MeshGradientGrid<ControlPoint>, cfg: Configuration,
                           before: AnimationFrame, after: AnimationFrame, out: ControlPoint,
                           x: int, y: int, gridWidth: int, gridHeight: int)
    requires cfg.Valid() && before.Live()
    requires CellAdvanced(initialGrid, cfg, before, after, out, x, y, gridWidth, gridHeight)
    ensures after.Live()
  {
    var b := BumpNextFrame(before);
    var t := Targets(initialGrid, cfg, x, y, gridWidth, gridHeight);
    RenewedChannel(before.location, b.frame.location, after.location, out.location, t.location, cfg.framesPerSecond, cfg.locationAnimationSpeedRange);
    RenewedChannel(before.uTangent, b.frame.uTangent, after.uTangent, out.uTangent, t.uTangent, cfg.framesPerSecond, cfg.tangentAnimationSpeedRange);
    RenewedChannel(before.vTangent, b.frame.vTangent, after.vTangent, out.vTangent, t.vTangent, cfg.framesPerSecond, cfg.tangentAnimationSpeedRange);
    RenewedChannel(before.color, b.frame.color, after.color, out.color, t.color, cfg.framesPerSecond, cfg.colorAnimationSpeedRange);
  }

  /**
   * Targets never drift: if every target of a cell was the randomizers applied
   * to the initial grid, it still is after a tick.
   */
  lemma CellAdvancedKeepsTargets(initialGrid: MeshGradientGrid<ControlPoint>, cfg: Configuration,
                                 before: AnimationFrame, after: AnimationFrame, out: ControlPoint,
                                 x: int, y: int, gridWidth: int, gridHeight: int)
    requires CellAdvanced(initialGrid, cfg, before, after, out, x, y, gridWidth, gridHeight)
    requires FinalsOf(before) == Targets(initialGrid, cfg, x, y, gridWidth, gridHeight)
    ensures FinalsOf(after) == Targets(initialGrid, cfg, x, y, gridWidth, gridHeight)
  {
  }

  /** Every frame's targets are the randomizers applied to the initial grid at that frame's cell. */
  ghost predicate FramesAnchored(initialGrid: MeshGradientGrid<ControlPoint>, cfg: Configuration, frames: seq<AnimationFrame>)
    requires initialGrid.Valid() && |frames| == |initialGrid.elements|
  {
    forall i :: 0 <= i < |frames| ==>
      FinalsOf(frames[i]) == Targets(initialGrid, cfg, i % initialGrid.width, i / initialGrid.width,
                                     initialGrid.width, initialGrid.height)
  }

  /** A component differs from the original by at most `bound`. */
  predicate WithinOffset(v: real, original: real, bound: real)
  {
    original - bound <= v <= original + bound
  }

  /**
   * Bounded drift: if the location randomizer moves a point by at most `bound`
   * per component, every anchored location target stays within `bound` of the
   * initial grid's location, however many segments came before.
   */
  lemma BoundedDrift(initialGrid: MeshGradientGrid<ControlPoint>, cfg: Configuration, frames: seq<AnimationFrame>, bound: real, i: int)
    requires initialGrid.Valid() && |frames| == |initialGrid.elements|
    requires FramesAnchored(initialGrid, cfg, frames)
    requires forall v: Vec2, x: int, y: int, w: int, h: int ::
               WithinOffset(cfg.meshRandomizer.locationRandomizer(v, x, y, w, h).x, v.x, bound)
               && WithinOffset(cfg.meshRandomizer.locationRandomizer(v, x, y, w, h).y, v.y, bound)
    requires 0 <= i < |frames|
    ensures WithinOffset(frames[i].location.final.x, initialGrid.elements[i].location.x, bound)
    ensures WithinOffset(frames[i].location.final.y, initialGrid.elements[i].location.y, bound)
  {
    var w := initialGrid.width;
    assert initialGrid.Index(i % w, i / w) == i;
  }

  /** Cell i of a row-major grid of the initial grid's shape was started as the initialiser does. */
  ghost predicate StartedAt(initialGrid: MeshGradientGrid<ControlPoint>, cfg: Configuration, frames: seq<AnimationFrame>, i: int)
  {
    && 0 <= i < |frames|
    && initialGrid.width > 0
    && CellStarted(initialGrid, cfg, frames[i], i % initialGrid.width, i / initialGrid.width,
                   initialGrid.width, initialGrid.height)
  }

  /** Cell i went from `before[i]` to `after[i]`, producing `out[i]`, in one tick. */
  ghost predicate TickedAt(initialGrid: MeshGradientGrid<ControlPoint>, cfg: Configuration,
                           before: seq<AnimationFrame>, after: seq<AnimationFrame>, out: seq<ControlPoint>, i: int)
  {
    && 0 <= i < |before| && i < |after| && i < |out|
    && initialGrid.width > 0
    && CellAdvanced(initialGrid, cfg, before[i], after[i], out[i], i % initialGrid.width, i / initialGrid.width,
                    initialGrid.width, initialGrid.height)
  }

  /** Writing the k-th started cell extends a started prefix by one. */
  lemma StartedPrefixStep(initialGrid: MeshGradientGrid<ControlPoint>, cfg: Configuration, frames: seq<AnimationFrame>,
                          k: int, frame: AnimationFrame, frames': seq<AnimationFrame>)
    requires 0 <= k < |frames| && initialGrid.width > 0 && frames' == frames[k := frame]
    requires forall i :: 0 <= i < k ==> StartedAt(initialGrid, cfg, frames, i)
    requires CellStarted(initialGrid, cfg, frame, k % initialGrid.width, k / initialGrid.width, initialGrid.width, initialGrid.height)
    ensures forall i :: 0 <= i <= k ==> StartedAt(initialGrid, cfg, frames', i)
  {
    forall i | 0 <= i <= k ensures StartedAt(initialGrid, cfg, frames', i) {
      if i < k {
        assert StartedAt(initialGrid, cfg, frames, i);
      }
    }
  }

  /** Writing the k-th ticked cell extends a ticked prefix by one. */
  lemma TickedPrefixStep(initialGrid: MeshGradientGrid<ControlPoint>, cfg: Configuration,
                         before: seq<AnimationFrame>, after: seq<AnimationFrame>, out: seq<ControlPoint>,
                         k: int, frame: AnimationFrame, point: ControlPoint,
                         after': seq<AnimationFrame>, out': seq<ControlPoint>)
    requires 0 <= k < |before| == |after| == |out| && initialGrid.width > 0
    requires after' == after[k := frame] && out' == out[k := point]
    requires forall i :: 0 <= i < k ==> TickedAt(initialGrid, cfg, before, after, out, i)
    requires CellAdvanced(initialGrid, cfg, before[k], frame, point, k % initialGrid.width, k / initialGrid.width,
                          initialGrid.width, initialGrid.height)
    ensures forall i :: 0 <= i <= k ==> TickedAt(initialGrid, cfg, before, after', out', i)
  {
    forall i | 0 <= i <= k ensures TickedAt(initialGrid, cfg, before, after', out', i) {
      if i < k {
        assert TickedAt(initialGrid, cfg, before, after, out, i);
      }
    }
  }

  /**
   * A tick of every cell, stated cell by cell in (x, y) terms; it keeps every
   * target anchored to the initial grid.
   */
  lemma TickedEveryCell(initialGrid: MeshGradientGrid<ControlPoint>, cfg: Configuration,
                        before: seq<AnimationFrame>, after: seq<AnimationFrame>, out: seq<ControlPoint>)
    requires initialGrid.Valid()
    requires |before| == |after| == |out| == |initialGrid.elements|
    requires forall i :: 0 <= i < |before| ==> TickedAt(initialGrid, cfg, before, after, out, i)
    ensures forall i :: 0 <= i < |before| ==>
              CellAdvanced(initialGrid, cfg, before[i], after[i], out[i], i % initialGrid.width, i / initialGrid.width,
                           initialGrid.width, initialGrid.height)
    ensures FramesAnchored(initialGrid, cfg, before) ==> FramesAnchored(initialGrid, cfg, after)
    ensures cfg.Valid() && (forall i :: 0 <= i < |before| ==> before[i].Live()) ==>
              forall i :: 0 <= i < |after| ==> after[i].Live()
  {
    var w, h := initialGrid.width, initialGrid.height;
    forall i | 0 <= i < |before|
      ensures CellAdvanced(initialGrid, cfg, before[i], after[i], out[i], i % w, i / w, w, h)
    {
      assert TickedAt(initialGrid, cfg, before, after, out, i);
    }
    if cfg.Valid() && forall i :: 0 <= i < |before| ==> before[i].Live() {
      forall i | 0 <= i < |after|
        ensures after[i].Live()
      {
        CellAdvancedIsLive(initialGrid, cfg, before[i], after[i], out[i], i % w, i / w, w, h);
      }
    }
    if FramesAnchored(initialGrid, cfg, before) {
      forall i | 0 <= i < |after|
        ensures FinalsOf(after[i]) == Targets(initialGrid, cfg, i % w, i / w, w, h)
      {
        assert FinalsOf(before[i]) == Targets(initialGrid, cfg, i % w, i / w, w, h);
        CellAdvancedKeepsTargets(initialGrid, cfg, before[i], after[i], out[i], i % w, i / w, w, h);
      }
    }
  }

  class MeshAnimator
  {
    const initialGrid: MeshGradientGrid<ControlPoint>
    var configuration: Configuration
    var animationParameters: MeshGradientGrid<AnimationFrame>

    /** The animation state has the initial grid's shape and every channel is live. */
    ghost predicate Valid()
      reads this
    {
      && initialGrid.Valid()
      && configuration.Valid()
      && animationParameters.Valid()
      && animationParameters.width == initialGrid.width
      && animationParameters.height == initialGrid.height
      && forall i :: 0 <= i < |animationParameters.elements| ==> animationParameters.elements[i].Live()
    }

    /** Every channel's target derives from the initial grid under the current configuration. */
    ghost predicate Anchored()
      reads this
      requires Valid()
    {
      FramesAnchored(initialGrid, configuration, animationParameters.elements)
    }

    /**
     * `init(grid:configuration:)` (lines 258-296): one fresh segment per
     * channel per cell, starting at the grid's value.
     */
    constructor(grid: MeshGradientGrid<ControlPoint>, configuration: Configuration)
      requires grid.Valid() && configuration.Valid()
      ensures Valid() && Anchored()
      ensures initialGrid == grid && this.configuration == configuration
      ensures animationParameters.width == grid.width && animationParameters.height == grid.height
      ensures forall i :: 0 <= i < |grid.elements| ==>
                CellStarted(grid, configuration, animationParameters.elements[i], i % grid.width, i / grid.width, grid.width, grid.height)
    {
      initialGrid := grid;
      this.configuration := configuration;
      animationParameters := Repeating(ZERO_FRAME, grid.width, grid.height);
      new;
      var w, h := grid.width, grid.height;
      var y := 0;
      while y < animationParameters.height
        invariant 0 <= y <= h
        invariant this.configuration == configuration
        invariant animationParameters.width == w && animationParameters.height == h
        invariant |animationParameters.elements| == w * h
        invariant forall i :: 0 <= i < y * w ==> StartedAt(grid, configuration, animationParameters.elements, i)
      {
        var x := 0;
        while x < animationParameters.width
          invariant 0 <= x <= w
          invariant this.configuration == configuration
          invariant animationParameters.width == w && animationParameters.height == h
          invariant |animationParameters.elements| == w * h
          invariant forall i :: 0 <= i < x + y * w ==> StartedAt(grid, configuration, animationParameters.elements, i)
        {
          IndexCoordinates(w, h, x, y);
          var startPoint := grid.GetCell(x, y);
          var animationFrame := ZERO_FRAME;

          var locationFinal, locationScale := GenerateNextLocationEndpoint(x, y, w, h, startPoint.location);
          animationFrame := animationFrame.(location := animationFrame.location.(
            final := locationFinal, start := startPoint.location, scaleFactor := locationScale));

          var uTangentFinal, uTangentScale := GenerateNextTangentUEndpoint(x, y, w, h, startPoint.uTangent);
          animationFrame := animationFrame.(uTangent := animationFrame.uTangent.(
            final := uTangentFinal, start := startPoint.uTangent, scaleFactor := uTangentScale));

          var vTangentFinal, vTangentScale := GenerateNextTangentVEndpoint(x, y, w, h, startPoint.vTangent);
          animationFrame := animationFrame.(vTangent := animationFrame.vTangent.(
            final := vTangentFinal, start := startPoint.vTangent, scaleFactor := vTangentScale));

          var colorFinal, colorScale := GenerateNextColorEndpoint(x, y, w, h, startPoint.color);
          animationFrame := animationFrame.(color := animationFrame.color.(
            final := colorFinal, start := startPoint.color, scaleFactor := colorScale));

          ghost var previous := animationParameters.elements;
          animationParameters := animationParameters.SetCell(x, y, animationFrame);
          StartedPrefixStep(grid, configuration, previous, x + y * w, animationFrame, animationParameters.elements);
          x := x + 1;
        }
        assert w + y * w == (y + 1) * w;
        y := y + 1;
      }
      assert h * w == w * h;
      forall i | 0 <= i < |animationParameters.elements|
        ensures CellStarted(grid, configuration, animationParameters.elements[i], i % w, i / w, w, h)
        ensures animationParameters.elements[i].Live()
        ensures FinalsOf(animationParameters.elements[i]) == Targets(grid, configuration, i % w, i / w, w, h)
      {
        assert StartedAt(grid, configuration, animationParameters.elements, i);
      }
    }

    /**
     * The body of the `grid` getter's inner loop for one cell (lines 306-366):
     * bump every channel, then renew each channel that reached completion.
     */
    method AdvanceCell(frame: AnimationFrame, x: int, y: int, gridWidth: int, gridHeight: int)
      returns (updatedControlPoint: ControlPoint, animationFrame: AnimationFrame)
      requires configuration.Valid()
      requires 0 <= initialGrid.Index(x, y) < |initialGrid.elements|
      ensures CellAdvanced(initialGrid, configuration, frame, animationFrame, updatedControlPoint, x, y, gridWidth, gridHeight)
      ensures frame.Live() ==> animationFrame.Live()
    {
      var bumped := BumpNextFrame(frame);
      updatedControlPoint := bumped.point;
      animationFrame := bumped.frame;

      if animationFrame.location.completionFactor >= 1.0 {
        var final, scaleFactor := GenerateNextLocationEndpoint(x, y, gridWidth, gridHeight, updatedControlPoint.location);
        animationFrame := animationFrame.(location := Channel(final, updatedControlPoint.location, 0.0, scaleFactor));
      }

      if animationFrame.uTangent.completionFactor >= 1.0 {
        var final, scaleFactor := GenerateNextTangentUEndpoint(x, y, gridWidth, gridHeight, updatedControlPoint.uTangent);
        animationFrame := animationFrame.(uTangent := Channel(final, updatedControlPoint.uTangent, 0.0, scaleFactor));
      }

      if animationFrame.vTangent.completionFactor >= 1.0 {
        var final, scaleFactor := GenerateNextTangentVEndpoint(x, y, gridWidth, gridHeight, updatedControlPoint.vTangent);
        animationFrame := animationFrame.(vTangent := Channel(final, updatedControlPoint.vTangent, 0.0, scaleFactor));
      }

      if animationFrame.color.completionFactor >= 1.0 {
        var final, scaleFactor := GenerateNextColorEndpoint(x, y, gridWidth, gridHeight, updatedControlPoint.color);
        animationFrame := animationFrame.(color := Channel(final, updatedControlPoint.color, 0.0, scaleFactor));
      }

      if frame.Live() {
        CellAdvancedIsLive(initialGrid, configuration, frame, animationFrame, updatedControlPoint, x, y, gridWidth, gridHeight);
      }
    }

    /**
     * The `grid` getter (lines 298-372): advances every cell by one tick, in
     * row-major order, and returns the grid of the values produced.
     */
    method Grid() returns (resultGrid: MeshGradientGrid<ControlPoint>)
      requires Valid()
      modifies this
      ensures Valid()
      ensures configuration == old(configuration)
      ensures animationParameters.width == old(animationParameters.width)
      ensures animationParameters.height == old(animationParameters.height)
      ensures resultGrid.Valid() && resultGrid.width == initialGrid.width && resultGrid.height == initialGrid.height
      ensures forall i :: 0 <= i < |resultGrid.elements| ==>
                CellAdvanced(initialGrid, configuration, old(animationParameters.elements[i]), animationParameters.elements[i],
                             resultGrid.elements[i], i % initialGrid.width, i / initialGrid.width,
                             initialGrid.width, initialGrid.height)
      ensures old(Anchored()) ==> Anchored()
    {
      var w, h := animationParameters.width, animationParameters.height;
      resultGrid := Repeating(ZERO_POINT, w, h);
      ghost var before := animationParameters.elements;
      var y := 0;
      while y < animationParameters.height
        invariant 0 <= y <= h
        invariant configuration == old(configuration)
        invariant animationParameters.width == w && animationParameters.height == h
        invariant |animationParameters.elements| == w * h
        invariant resultGrid.width == w && resultGrid.height == h && |resultGrid.elements| == w * h
        invariant forall i :: 0 <= i < y * w ==>
                    TickedAt(initialGrid, configuration, before, animationParameters.elements, resultGrid.elements, i)
        invariant forall i :: y * w <= i < w * h ==> animationParameters.elements[i] == before[i]
      {
        var x := 0;
        while x < animationParameters.width
          invariant 0 <= x <= w
          invariant configuration == old(configuration)
          invariant animationParameters.width == w && animationParameters.height == h
          invariant |animationParameters.elements| == w * h
          invariant resultGrid.width == w && resultGrid.height == h && |resultGrid.elements| == w * h
          invariant forall i :: 0 <= i < x + y * w ==>
                      TickedAt(initialGrid, configuration, before, animationParameters.elements, resultGrid.elements, i)
          invariant forall i :: x + y * w <= i < w * h ==> animationParameters.elements[i] == before[i]
        {
          IndexCoordinates(w, h, x, y);
          var i := animationParameters.Index(x, y);
          var animationFrame := animationParameters.Get(i);
          var updatedControlPoint, nextFrame := AdvanceCell(animationFrame, x, y, resultGrid.width, resultGrid.height);
          ghost var previousFrames, previousPoints := animationParameters.elements, resultGrid.elements;
          resultGrid := resultGrid.Set(i, updatedControlPoint);
          animationParameters := animationParameters.Set(i, nextFrame);
          TickedPrefixStep(initialGrid, configuration, before, previousFrames, previousPoints,
                           i, nextFrame, updatedControlPoint, animationParameters.elements, resultGrid.elements);
          x := x + 1;
        }
        assert w + y * w == (y + 1) * w;
        y := y + 1;
      }
      assert h * w == w * h;
      TickedEveryCell(initialGrid, configuration, before, animationParameters.elements, resultGrid.elements);
    }

    /** `generateNextLocationEndpoint` (lines 374-383); `startLocation` is unused, as in the source. */
    method GenerateNextLocationEndpoint(x: int, y: int, gridWidth: int, gridHeight: int, startLocation: Vec2)
      returns (final: Vec2, scaleFactor: real)
      requires configuration.Valid()
      requires 0 <= initialGrid.Index(x, y) < |initialGrid.elements|
      ensures final == configuration.meshRandomizer.locationRandomizer(initialGrid.GetCell(x, y).location, x, y, gridWidth, gridHeight)
      ensures ScaleFactorInRange(scaleFactor, configuration.framesPerSecond, configuration.locationAnimationSpeedRange)
    {
      var animationDuration := RandomDuration(configuration.locationAnimationSpeedRange);
      scaleFactor := ScaleFactorFor(configuration.framesPerSecond, animationDuration);
      ScaleFactorForInRange(configuration.framesPerSecond, animationDuration, configuration.locationAnimationSpeedRange);
      var randomizedControlPoint := initialGrid.GetCell(x, y);
      randomizedControlPoint := randomizedControlPoint.(location :=
        configuration.meshRandomizer.locationRandomizer(randomizedControlPoint.location, x, y, gridWidth, gridHeight));
      final := randomizedControlPoint.location;
    }

    /** `generateNextTangentUEndpoint` (lines 385-395). */
    method GenerateNextTangentUEndpoint(x: int, y: int, gridWidth: int, gridHeight: int, startTangent: Vec2)
      returns (final: Vec2, scaleFactor: real)
      requires configuration.Valid()
      requires 0 <= initialGrid.Index(x, y) < |initialGrid.elements|
      ensures final == configuration.meshRandomizer.turbulencyRandomizer(initialGrid.GetCell(x, y).uTangent, x, y, gridWidth, gridHeight)
      ensures ScaleFactorInRange(scaleFactor, configuration.framesPerSecond, configuration.tangentAnimationSpeedRange)
    {
      var animationDuration := RandomDuration(configuration.tangentAnimationSpeedRange);
      scaleFactor := ScaleFactorFor(configuration.framesPerSecond, animationDuration);
      ScaleFactorForInRange(configuration.framesPerSecond, animationDuration, configuration.tangentAnimationSpeedRange);
      var randomizedControlPoint := initialGrid.GetCell(x, y);
      randomizedControlPoint := randomizedControlPoint.(uTangent :=
        configuration.meshRandomizer.turbulencyRandomizer(randomizedControlPoint.uTangent, x, y, gridWidth, gridHeight));
      final := randomizedControlPoint.uTangent;
    }

    /** `generateNextTangentVEndpoint` (lines 397-406). */
    method GenerateNextTangentVEndpoint(x: int, y: int, gridWidth: int, gridHeight: int, startTangent: Vec2)
      returns (final: Vec2, scaleFactor: real)
      requires configuration.Valid()
      requires 0 <= initialGrid.Index(x, y) < |initialGrid.elements|
      ensures final == configuration.meshRandomizer.turbulencyRandomizer(initialGrid.GetCell(x, y).vTangent, x, y, gridWidth, gridHeight)
      ensures ScaleFactorInRange(scaleFactor, configuration.framesPerSecond, configuration.tangentAnimationSpeedRange)
    {
      var animationDuration := RandomDuration(configuration.tangentAnimationSpeedRange);
      scaleFactor := ScaleFactorFor(configuration.framesPerSecond, animationDuration);
      ScaleFactorForInRange(configuration.framesPerSecond, animationDuration, configuration.tangentAnimationSpeedRange);
      var randomizedControlPoint := initialGrid.GetCell(x, y);
      randomizedControlPoint := randomizedControlPoint.(vTangent :=
        configuration.meshRandomizer.turbulencyRandomizer(randomizedControlPoint.vTangent, x, y, gridWidth, gridHeight));
      final := randomizedControlPoint.vTangent;
    }

    /** `generateNextColorEndpoint` (lines 409-418): the colour callback also receives the initial colour. */
    method GenerateNextColorEndpoint(x: int, y: int, gridWidth: int, gridHeight: int, startColor: Vec3)
      returns (final: Vec3, scaleFactor: real)
      requires configuration.Valid()
      requires 0 <= initialGrid.Index(x, y) < |initialGrid.elements|
      ensures final == configuration.meshRandomizer.colorRandomizer(initialGrid.GetCell(x, y).color, initialGrid.GetCell(x, y).color,
                                                                   x, y, gridWidth, gridHeight)
      ensures ScaleFactorInRange(scaleFactor, configuration.framesPerSecond, configuration.colorAnimationSpeedRange)
    {
      var animationDuration := RandomDuration(configuration.colorAnimationSpeedRange);
      scaleFactor := ScaleFactorFor(configuration.framesPerSecond, animationDuration);
      ScaleFactorForInRange(configuration.framesPerSecond, animationDuration, configuration.colorAnimationSpeedRange);
      var randomizedControlPoint := initialGrid.GetCell(x, y);
      randomizedControlPoint := randomizedControlPoint.(color :=
        configuration.meshRandomizer.colorRandomizer(randomizedControlPoint.color, randomizedControlPoint.color, x, y, gridWidth, gridHeight));
      final := randomizedControlPoint.color;
    }
  }
}
