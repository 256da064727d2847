# MeshGradient grid and animator, in Dafny

This project models the core of the MeshGradient Swift package:

- **The 2-D grid container `MeshGradientGrid`.** It is a row-major flat array that carries its width and height. It has:
  - flat and (x, y) subscripts, with cell (x, y) at index `x + y * width`;
  - two initialisers;
  - element-wise `+` and `-`, where a shorter right operand counts as `zero` past its end;
  - an in-place `scale(by:)`;
  - the `magnitudeSquared` sum;
  - the empty `zero` grid.
- **The active `MeshAnimator`.** Every cell of the mesh holds four independent channels: location, uTangent, vTangent and colour. Each channel has a start, a target (`final`), a completion factor and a per-tick increment (`scaleFactor`). Every read of `grid` advances every channel of every cell by one tick:
  - it adds the increment and clamps at 1;
  - it eases with smoothstep `c²(3 − 2c)` and interpolates from start to target;
  - every channel that reached 1 starts a fresh segment. The fresh segment begins at the value just produced, its completion is 0, and its target is the configured randomizer applied to the *initial* grid's value at that cell.

The files are laid out as follows:

- `vectors.dfy`: the SIMD2/SIMD3 element types as exact real vectors. The `VectorArithmetic` capabilities the grid relies on are passed as a `VectorSpace` record. `Lawful` states the laws those capabilities satisfy.
- `grid.dfy`: `MeshGradientGrid` as a datatype, because the Swift struct has value semantics. The subscript setters are functions returning the updated grid. `-`, `+` and `scale(by:)` are methods with the source's loops. `-` and `+` are proved against the element-wise specification `ElementWise`; `scale(by:)` is proved to scale each element.
- `control_point.dfy`: the `ControlPoint` record. Its Swift declaration is not part of this model; the record carries the four properties the animator uses.
- `frames.dfy`: `AnimationFrameControlPoint`, with the four fields of each property grouped into a `Channel`. Its `mutating` members and `inout` parameters become functions that return the new value. This file also holds smoothstep, `updateProperty2`/`updateProperty3` and `bumpNextFrame`.
- `animator.dfy`: the `MeshAnimator` class. It has:
  - `initialGrid` (a `const`), `configuration` and `animationParameters`;
  - the initialiser and the `grid` getter, written with the source's nested `y`/`x` loops;
  - the four `generateNext*Endpoint` helpers.

  The per-tick behaviour of one cell is specified by the predicates `CellStarted` and `CellAdvanced`. The class invariant `Valid` keeps every channel mid-segment, and `Anchored` keeps every target derived from the initial grid.

`Double.random(in:)` is a nondeterministic choice within the closed range (`RandomDuration`). The randomizer closures are function values in the configuration.

## Model

| member | source | states |
|---|---|---|
| Grids.Repeating | Sources/MeshGradient/Grid.swift:14-18 | exactly width * height elements, all equal to the fill value, with the given width and height |
| Grids.FromArray | Sources/MeshGradient/Grid.swift:20-26 | for a positive width dividing the count: the elements are kept in order, the width is kept and height * width equals the count |
| Grids.MeshGradientGrid.Index | Sources/MeshGradient/Grid.swift:28-30 | for a column within the row, the flat index's remainder and quotient by the width are the column and the row |
| Grids.MeshGradientGrid.Get | Sources/MeshGradient/Grid.swift:33-35 | the flat getter returns one of the grid's elements; `Set` then `Get` at the same index reads back the written value |
| Grids.MeshGradientGrid.GetCell | Sources/MeshGradient/Grid.swift:42-44 | the (x, y) getter returns the element held at every flat position whose remainder and quotient by the width are x and y |
| Grids.IndexCoordinates | Sources/MeshGradient/Grid.swift:28-30 | an in-range cell's index lies in [0, width * height) and maps back to (x, y) by remainder and quotient |
| Grids.IndexInjective | Sources/MeshGradient/Grid.swift:28-30 | distinct in-range cells have distinct flat indices |
| Grids.MeshGradientGrid.Set | Sources/MeshGradient/Grid.swift:32-39 | the flat setter writes element i and changes neither the other elements nor the shape |
| Grids.MeshGradientGrid.SetCell | Sources/MeshGradient/Grid.swift:41-48 | the (x, y) setter writes flat element index(x, y), readable through both getters, and changes nothing else |
| Grids.SetCellThenGet | Sources/MeshGradient/Grid.swift:32-48 | on a valid grid, writing (x, y) and reading it back gives the written value, and every other cell reads as before |
| Grids.Subtract | Sources/MeshGradient/Grid.swift:63-69 | `lhs - rhs` has lhs's shape; element i is lhs[i] - rhs[i] where rhs has element i and lhs[i] - zero elsewhere, which is the element-wise specification |
| Grids.Add | Sources/MeshGradient/Grid.swift:71-78 | `lhs + rhs` has lhs's shape; element i is lhs[i] + rhs[i] where rhs has element i and lhs[i] + zero elsewhere, which is the element-wise specification |
| Grids.Zero | Sources/MeshGradient/Grid.swift:90-92 | `zero` is the empty 0 x 0 grid |
| Grids.AddZeroIsIdentity | Sources/MeshGradient/Grid.swift:71-78 | with lawful elements, g + zero == g |
| Grids.SubtractZeroIsIdentity | Sources/MeshGradient/Grid.swift:63-69 | with lawful elements, g - zero == g |
| Grids.ZeroPlusIsEmpty | Sources/MeshGradient/Grid.swift:71-78 | zero + g is the empty grid for every g, so `+` is not symmetric |
| Grids.SubtractUndoesAdd | Sources/MeshGradient/Grid.swift:63-78 | with lawful elements, (g + h) - h == g |
| Grids.ElementWiseSameWidthCells | Sources/MeshGradient/Grid.swift:63-78 | for operands of equal width, cell (x, y) of the result combines both operands' cells (x, y), or the left cell with zero in rows the right operand lacks |
| Grids.Scale | Sources/MeshGradient/Grid.swift:80-84 | `scale(by: k)` keeps the shape and replaces each element by that element scaled by k |
| Grids.MagnitudeSquared | Sources/MeshGradient/Grid.swift:86-88 | the sum of the elements' squared magnitudes; with lawful elements it is at least each element's squared magnitude |
| Grids.MagnitudeSquaredNonNegative | Sources/MeshGradient/Grid.swift:86-88 | with lawful elements the grid's squared magnitude is never negative |
| Grids.MagnitudeSquaredOfZero | Sources/MeshGradient/Grid.swift:86-92 | the zero grid has squared magnitude 0 |
| Grids.MagnitudeSquaredOfScaled | Sources/MeshGradient/Grid.swift:80-88 | scaling by k multiplies the grid's squared magnitude by k * k |
| Vectors.Vec2MagnitudeSquaredScaled | Sources/MeshGradient/Grid.swift:95-102 | a 2-D vector scaled component-wise by k has k * k times its squared magnitude |
| Vectors.Vec3MagnitudeSquaredScaled | Sources/MeshGradient/Grid.swift:105-112 | a 3-D vector scaled component-wise by k has k * k times its squared magnitude |
| Vectors.Vec2SpaceLawful | Sources/MeshGradient/Grid.swift:95-102 | SIMD2 arithmetic satisfies the element laws: zero is a right identity, subtraction undoes addition, squared magnitude is non-negative and scales by k * k |
| Vectors.Vec3SpaceLawful | Sources/MeshGradient/Grid.swift:105-112 | SIMD3 arithmetic satisfies the same element laws |
| AnimationFrames.AdvanceCompletion | Sources/MeshGradient/MeshAnimator.swift:200-203 | the advanced completion is at most 1; it is exactly 1 iff completion + increment reaches 1; below 1 it is the plain sum; with a non-negative increment it never decreases |
| AnimationFrames.CompletionAfterTicks | Sources/MeshGradient/MeshAnimator.swift:200-203 | n clamped ticks from c with increment s give min(1, c + n * s) |
| AnimationFrames.SmoothstepFixedPoints | Sources/MeshGradient/MeshAnimator.swift:205 | the easing curve maps 0 to 0, 1 to 1 and 1/2 to 1/2 |
| AnimationFrames.Smoothstep | Sources/MeshGradient/MeshAnimator.swift:205 | the eased factor c * c * (3 - 2c) of a completion in [0, 1] lies in [0, 1] |
| AnimationFrames.SmoothstepMonotone | Sources/MeshGradient/MeshAnimator.swift:205 | on [0, 1] the eased factor never decreases |
| AnimationFrames.SmoothstepSymmetric | Sources/MeshGradient/MeshAnimator.swift:205 | e(1 - c) == 1 - e(c) |
| AnimationFrames.InterpolationBetween | Sources/MeshGradient/MeshAnimator.swift:204-207 | interpolating with a factor in [0, 1] stays between the two endpoints |
| AnimationFrames.EasedInterpolationBetween2 | Sources/MeshGradient/MeshAnimator.swift:204-207 | for completion in [0, 1] the eased 2-D value is component-wise between start and end |
| AnimationFrames.EasedInterpolationBetween3 | Sources/MeshGradient/MeshAnimator.swift:220-223 | for completion in [0, 1] the eased colour is component-wise between start and end |
| AnimationFrames.ZeroFrameNotLive | Sources/MeshGradient/MeshAnimator.swift:227-249 | the placeholder frame, with all increments 0, is not live, so each cell needs a real segment before the first tick |
| AnimationFrames.ZeroFrameIsInert | Sources/MeshGradient/MeshAnimator.swift:227-249 | a tick leaves the placeholder frame unchanged and produces the zero control point |
| AnimationFrames.UpdateProperty2 | Sources/MeshGradient/MeshAnimator.swift:194-208 | the new completion is the clamped advance; the value is the end exactly at completion 1 and the start at 0, and it never overshoots |
| AnimationFrames.UpdateProperty3 | Sources/MeshGradient/MeshAnimator.swift:210-224 | the same for colours |
| AnimationFrames.BumpNextFrame | Sources/MeshGradient/MeshAnimator.swift:161-192 | each channel only has its completion advanced; each output property is that channel's eased interpolation at its new completion |
| AnimationFrames.ChannelsIndependent | Sources/MeshGradient/MeshAnimator.swift:161-192 | two frames that agree on one channel produce the same output and new state for it, whatever the other channels hold |
| MeshAnimation.Configuration.Default | Sources/MeshGradient/MeshAnimator.swift:121-133 | the default configuration (60 fps, 1...3 s for locations and tangents, 0.1...0.2 s for colours) is valid and keeps the given randomizer; a colour segment lasts 6 to 12 ticks, a location or tangent segment 60 to 180 |
| MeshAnimation.RandomDuration | Sources/MeshGradient/MeshAnimator.swift:375 | the drawn duration lies in the closed range |
| MeshAnimation.ScaleFactorFor | Sources/MeshGradient/MeshAnimator.swift:376 | the increment (1 / fps) / duration is positive, and fps * duration increments add up to exactly 1 |
| MeshAnimation.ScaleFactorForInRange | Sources/MeshGradient/MeshAnimator.swift:374-376 | a duration from a range yields an increment that the range admits |
| MeshAnimation.ReachesCompletionAfterDuration | Sources/MeshGradient/MeshAnimator.swift:374-376 | starting from 0, a d-second segment at fps frames per second has completed after n ticks iff n >= fps * d |
| MeshAnimation.TenTicksReachTarget | Sources/MeshGradient/MeshAnimator.swift:194-208 | at 10 fps a 1-second segment has increment 0.1; it is mid-segment after 0 to 9 ticks and the 10th tick yields exactly the target |
| MeshAnimation.RenewedChannel | Sources/MeshGradient/MeshAnimator.swift:311-323 | after a tick, a live channel's completion is 0 iff the tick completed it; a reset channel starts at the value just produced and aims at the new target; otherwise only the completion moved by the increment; either way it is live |
| MeshAnimation.CellAdvancedIsLive | Sources/MeshGradient/MeshAnimator.swift:306-367 | a tick keeps every completion of a cell in [0, 1) with a positive increment |
| MeshAnimation.CellAdvancedKeepsTargets | Sources/MeshGradient/MeshAnimator.swift:311-365 | targets stay the randomizers applied to the initial grid's values across a tick |
| MeshAnimation.BoundedDrift | Sources/MeshGradient/MeshAnimator.swift:374-383 | with a location randomizer that moves each component by at most a bound, every anchored location target is within that bound of the initial grid's location |
| MeshAnimation.MeshAnimator.constructor | Sources/MeshGradient/MeshAnimator.swift:258-296 | the animation state has the grid's shape; each cell's four channels start at the grid's value of that cell, at completion 0, towards the randomized target, with an increment from that channel's own range; the state is valid and anchored |
| MeshAnimation.MeshAnimator.AdvanceCell | Sources/MeshGradient/MeshAnimator.swift:306-366 | one cell's tick: the output is bumpNextFrame's point; each completed channel restarts from that output towards its target, and the others keep the bumped state |
| MeshAnimation.MeshAnimator.Grid | Sources/MeshGradient/MeshAnimator.swift:298-372 | the returned grid has the initial grid's shape, and every cell is the output of exactly that cell's tick; the new state is each cell's ticked state; validity, the configuration and anchoring are preserved |
| MeshAnimation.MeshAnimator.GenerateNextLocationEndpoint | Sources/MeshGradient/MeshAnimator.swift:374-383 | the target is the location randomizer applied to the initial grid's location at (x, y); the increment comes from the location duration range |
| MeshAnimation.MeshAnimator.GenerateNextTangentUEndpoint | Sources/MeshGradient/MeshAnimator.swift:385-395 | the target is the turbulency randomizer applied to the initial uTangent; the increment comes from the tangent duration range |
| MeshAnimation.MeshAnimator.GenerateNextTangentVEndpoint | Sources/MeshGradient/MeshAnimator.swift:397-406 | the target is the turbulency randomizer applied to the initial vTangent; the increment comes from the tangent duration range |
| MeshAnimation.MeshAnimator.GenerateNextColorEndpoint | Sources/MeshGradient/MeshAnimator.swift:409-418 | the target is the colour randomizer applied to the initial colour, passed twice as the source does; the increment comes from the colour duration range |

## Left out

- Floating point: components and factors are exact reals. The `Float` narrowing of the eased factor (Sources/MeshGradient/MeshAnimator.swift:205, 221) and of the `scale(by:)` argument (Sources/MeshGradient/Grid.swift:97, 107) is not modelled. Neither are single-precision SIMD arithmetic and the `Double` widening in `magnitudeSquared`. The per-tick increment and the completion factor, `Double` in the source, are exact reals here too. Summation order therefore does not matter here.
- MeshAnimation.ReachesCompletionAfterDuration: the tick on which a segment ends is stated in exact reals, ⌈fps · d⌉. In `Double` the accumulated increments can fall one ulp short of 1; ten additions of 0.1 give 0.9999999999999999, for example. The clamp and the `>= 1` test then do not fire, and the source ends that segment one tick later.
- MeshAnimation.TenTicksReachTarget: the same caveat applies. With `Double` increments of 0.1, the 10th tick leaves the completion just below 1. The eased factor rounds to 1 in `Float`, so the value shown is within single-precision rounding of the target; the exact-real model gives the target itself. The channel renews on the 11th tick, not the 10th.
- Integer width: Dafny's `int` and `nat` are unbounded, unlike Swift's 64-bit `Int`. The overflow traps of `width * height` and `x + y * width` are not modelled.
- Negative dimensions: widths and heights are `nat`, so negative dimensions are excluded. Swift accepts them whenever the element count is non-negative. `init(repeating:width: -1, height: -1)` builds one element, and `init(width: -2, array:)` with four elements passes the divisibility assertion and sets height -2.
- Out-of-range subscripts and a zero width in `init(width:array:)` trap in Swift. Here they are preconditions.
- Grids.FromArray: the element closure is modelled as the sequence it returns. The divisibility `assert`, which release builds skip, becomes a precondition.
- Randomness: `Double.random(in:)` is a nondeterministic choice within the closed range. The randomizer closures are pure total functions. Their `inout` argument becomes the returned value, and their internals are not modelled.
- MeshAnimation.CellAdvancedKeepsTargets: because the randomizers are pure, every renewal of a channel aims at the same target, the randomizer's output for the initial grid's value at that cell. After its first segment a channel restarts from the value it reached, which is that target, so it stays there. The source's closures may return a fresh random target on each call (Sources/MeshGradient/MeshAnimator.swift:380, 391, 403, 414), which this model does not capture. For such closures, `Anchored` would have to say that each target is one of the randomizer's possible outputs for that cell's initial value.
- MeshAnimation.MeshAnimator.Grid: the randomizers are pure here, so the row-major order in which the source calls them is not stated. A stateful closure could observe that order.
- MeshAnimation.MeshAnimator.GenerateNextLocationEndpoint: the increment is stated as "1 / (fps * d) for some d in the range", since the drawn duration is not returned. The same holds for the three other `generateNext*Endpoint` helpers.
- Configuration validation: the source does not validate. A positive frame rate and ranges with 0 < lower bound <= upper bound are preconditions of the initialiser and of the getter.
- Mixed sizes: `+` and `-` pair elements by flat index, not by (x, y). For operands of different widths, cells therefore do not line up in two dimensions. The model follows the code; `Grids.ElementWiseSameWidthCells` states the 2-D reading for equal widths.
- The `Equatable`, `Hashable` and SwiftUI `VectorArithmetic` conformance plumbing becomes the explicit `VectorSpace` record.
- `ControlPoint`'s own declaration and arithmetic are not part of this model.
- The commented-out legacy animator (Sources/MeshGradient/MeshAnimator.swift:1-99) is not modelled, and neither is the `MeshDataProvider` protocol.
- The `grid` getter's per-cell body is a separate method, `AdvanceCell`. It runs the same steps in the same order. The write of the output into the result grid happens after the regeneration checks instead of before them, which changes nothing, since those checks do not touch the result grid.
