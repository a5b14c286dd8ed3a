# Window: rectangle intersection and draw pivot

A model of the self-contained logic in the `Window` facility of a small SDL
game. The facility is static. It owns the SDL window and renderer and wraps
SDL, SDL_image and SDL_ttf. Two parts of it compute something on their own,
and this project models those two as pure Dafny functions:

- **Rectangle intersection.** `Window::basicSdlRectsIntersect(A, B)` asks
  whether an end of A's horizontal span lies in B's closed horizontal span.
  It asks the same for the vertical spans and returns the AND of the two
  answers. `Window::sdlRectsIntersect(A, B)` ORs this test over both argument
  orders. These are `Window.BasicSdlRectsIntersect` and
  `Window.SdlRectsIntersect`.
- **Draw pivot.** `Window::Draw(tex, dstRect, clip, angle, xPivot, yPivot, flip)`
  receives a pivot relative to the centre of the destination rectangle. It
  adds `dstRect.w / 2` and `dstRect.h / 2` to get the pivot that
  `SDL_RenderCopyEx` expects, which is relative to the rectangle's top-left
  corner. `Window.Draw` returns the argument record of that renderer call.

`SDL_Rect` and `SDL_Point` are datatypes whose fields have the type `int32`,
the model's C `int` (module `SdlTypes`). The source may compute `x + w` and
`y + h` in C `int`, where signed overflow is undefined behaviour. Whether it
does depends on short-circuit evaluation: when the first disjunct on an axis
holds, `A.x + A.w` is never evaluated. The intersection predicates require
`EdgesFit()`, meaning neither sum overflows. This precondition
over-approximates what the source demands, because it also excludes some
pairs whose evaluation never reaches an overflowing sum. `Draw`
likewise requires that its two pivot additions stay in range. C++ `/`
truncates toward zero, while Dafny's `/` is Euclidean. `Window.HalfTowardZero`
therefore models `w / 2` explicitly, including negative odd sizes.

The main result concerns the intersection test. It is **sound**: if it
reports an intersection and both sizes are non-negative, then the closed
rectangles share a point. It is **not complete**. A horizontal bar and a
vertical bar that cross like a plus sign share a point, but the test reports
them apart. For rectangles of non-negative size,
`WindowProperties.IntersectExactly` proves that this crossing configuration
is the only kind of overlap the test misses. The function's name,
`sdlRectsIntersect`, promises an intersection test. Calling the basic test in
both orders (Project1/Window.cpp:120) shows that the authors meant to catch
every arrangement, including containment. The code still misses crossings.
This model follows the code, and the discrepancy is logged under Findings.

Modules: `SdlTypes` (sdl_types.dfy) has the value types. `Window`
(window.dfy) has the modelled operations and the corrected overlap test.
`WindowProperties` (window_properties.dfy) has the lemmas.

## Model

| member | source | states |
|---|---|---|
| `Window.HalfTowardZero` | Project1/Window.cpp:59-60 | `n / 2` rounds toward zero: for `n >= 0`, `n - 2q` is 0 or 1; for `n < 0`, `n - 2q` is 0 or -1 |
| `Window.Pivot` | Project1/Window.cpp:58-62 | each pivot coordinate is the caller's offset plus half the size, rounded toward zero: twice the added amount is within one of `w` (resp. `h`), on the side of zero |
| `Window.Draw` | Project1/Window.cpp:55-65 | the renderer receives `dstRect` unchanged, along with the same texture, clip, angle and flip, and the converted pivot |
| `Window.BasicSdlRectsIntersect` | Project1/Window.cpp:123-134 | for non-negative sizes, a true result means the closed spans meet on both axes; `WindowProperties.BasicMeaning` gives the exact characterisation |
| `Window.SdlRectsIntersect` | Project1/Window.cpp:118-121 | for non-negative sizes, a true result means the closed spans meet on both axes; `WindowProperties.IntersectExactly` and `WindowProperties.IntersectImpliesCommonPoint` give its full meaning |
| `Window.RectsOverlap` | Project1/Window.cpp:118-134 | the corrected test (see Findings): for non-negative sizes it holds iff the closed spans meet on both axes |
| `WindowProperties.ZeroOffsetPivotIsCentre` | Project1/Window.cpp:58-62 | with a zero offset and even sizes, the pivot is exactly the centre of the destination rectangle |
| `WindowProperties.HalfTowardZeroVsFloor` | Project1/Window.cpp:59-60 | C++ halving equals Dafny's `/ 2` for non-negative and even sizes, and is one more for negative odd sizes |
| `WindowProperties.BasicMeaning` | Project1/Window.cpp:123-134 | for non-negative sizes, the one-directional test holds iff on each axis the spans meet and A's span does not strictly enclose B's |
| `WindowProperties.ContainmentFoundByReversedCall` | Project1/Window.cpp:118-134 | a rectangle B inside A passes `basic(B, A)`, so `sdlRectsIntersect` holds in both orders; if B touches no edge of A, then `basic(A, B)` is false |
| `WindowProperties.IntersectSymmetric` | Project1/Window.cpp:118-121 | `sdlRectsIntersect(A, B) == sdlRectsIntersect(B, A)` for every pair |
| `WindowProperties.IntersectImpliesSpansMeet` | Project1/Window.cpp:118-134 | soundness: for non-negative sizes, a true result means the closed x-spans meet and the closed y-spans meet |
| `WindowProperties.IntersectImpliesCommonPoint` | Project1/Window.cpp:118-134 | soundness: for non-negative sizes, a true result means some point lies in both closed rectangles |
| `WindowProperties.SeparatedDoNotIntersect` | Project1/Window.cpp:118-134 | for non-negative sizes, a gap on either axis (`A.x + A.w < B.x`, or the same the other way or on y) makes the result false |
| `WindowProperties.IntersectExactly` | Project1/Window.cpp:118-134 | for non-negative sizes, the result is true iff the rectangles overlap and neither crosses the other like the bars of a plus sign |
| `WindowProperties.NotComplete` | Project1/Window.cpp:118-134 | some pair of rectangles with non-negative sizes overlaps but is reported as not intersecting |
| `WindowProperties.PlusShapeMissed` | Project1/Window.cpp:120-131 | `{0,5,20,2}` and `{8,0,2,20}` both contain `(9,6)`, yet the result is false |
| `WindowProperties.Examples` | Project1/Window.cpp:118-134 | partial overlap and edge touching are true; disjoint rectangles are false; containment is true, but only through the reversed call |
| `WindowProperties.IntersectImpliesOverlap` | Project1/Window.cpp:118-134 | every pair the source accepts is also accepted by the corrected per-axis test |
| `WindowProperties.OverlapIffCommonPoint` | Project1/Window.cpp:123-134 | for non-negative sizes, the corrected per-axis test holds iff the closed rectangles share a point |

## Findings

| source | as written | input that shows it | evidently intended | confidence | as-written member | corrected member |
|---|---|---|---|---|---|---|
| Project1/Window.cpp:120 | ORs two per-direction conjunctions: (hAB AND vAB) OR (hBA AND vBA) | `{0,5,20,2}` and `{8,0,2,20}` share `(9,6)`, yet the result is false | a per-axis OR: (hAB OR hBA) AND (vAB OR vBA), which for rectangles of non-negative size is true iff the closed rectangles share a point | medium (the function's name promises an intersection test); not executed | `WindowProperties.NotComplete` | `Window.RectsOverlap`, proved by `WindowProperties.OverlapIffCommonPoint` |

## Left out

- `Window::Init` (Project1/Window.cpp:23-48): it starts SDL and SDL_ttf and sets `mBox`. It then creates the window and renderer into process-wide `unique_ptr` handles, and throws when a foreign call reports failure.
- `Window::Quit` (Project1/Window.cpp:50-53): it shuts down the SDL_ttf and SDL subsystems and has no failure path. It does not reset the handles; their deleters (Project1/Window.cpp:6-9) run at static destruction.
- `SDL_RenderCopyEx` itself, and the renderer handle `Draw` passes to it: this is a foreign call. `Window.Draw` models only the arguments it builds.
- `Window::Draw(tex, x, y)` (Project1/Window.cpp:67-77): the texture size comes from `SDL_QueryTexture`, and the default arguments of the other `Draw` are declared in Window.h. Window.h is not part of this model.
- `LoadImage` and `RenderText` (Project1/Window.cpp:79-104): these are file, image and font I/O through SDL_image and SDL_ttf.
- `Clear`, `Present` and `Box` (Project1/Window.cpp:106-116): each is a single foreign call. `Box` refreshes the static `mBox` from `SDL_GetWindowSize`.
- The angle (a C `float`), the texture and the flip flags are type parameters of `Window.Draw`. They are passed through unchanged, so no float arithmetic is modelled.
- Overflowing `x + w`, `y + h` or pivot additions are excluded by preconditions rather than modelled. In C++ they are undefined behaviour. For the intersection test, the precondition `EdgesFit` over-approximates: it also excludes pairs where short-circuit evaluation never reaches the overflowing sum. An example is `{5,5,INT_MAX,0}` against `{0,0,10,10}`.
