/**
 * The self-contained logic of the static `Window` facility: the pivot
 * conversion that `Draw` performs before handing a texture to the renderer,
 * and the axis-aligned rectangle intersection test.
 */
module Window {
  import opened SdlTypes

  // ---------------------------------------------------------------------------
  // Draw
  // ---------------------------------------------------------------------------

  /**
   * The C++ expression `n / 2` on an `int`: the quotient is truncated toward
   * zero, so for a negative odd `n` it is one more than Dafny's `n / 2`.
   */
  function HalfTowardZero(n: int): (q: int)
    ensures 0 <= n ==> 0 <= n - 2 * q <= 1
    ensures n < 0 ==> -1 <= n - 2 * q <= 0
  {
    if n >= 0 then n / 2 else -((-n) / 2)
  }

  /**
   * `Draw` takes a pivot relative to the centre of the destination rectangle
   * and converts it to the pivot `SDL_RenderCopyEx` expects, which is relative
   * to the rectangle's top-left corner, by adding half the width and half the
   * height. The additions are C `int` additions, so they must not overflow.
   */
  predicate PivotFits(dst: Rect, xPivot: int32, yPivot: int32) {
    && InInt32(xPivot as int + HalfTowardZero(dst.w as int))
    && InInt32(yPivot as int + HalfTowardZero(dst.h as int))
  }

  function Pivot(dst: Rect, xPivot: int32, yPivot: int32): (p: Point)
    requires PivotFits(dst, xPivot, yPivot)
    // twice the added offset is the size rounded toward zero to an even number
    ensures 0 <= dst.w ==> 0 <= dst.w as int - 2 * (p.x as int - xPivot as int) <= 1
    ensures dst.w < 0 ==> -1 <= dst.w as int - 2 * (p.x as int - xPivot as int) <= 0
    ensures 0 <= dst.h ==> 0 <= dst.h as int - 2 * (p.y as int - yPivot as int) <= 1
    ensures dst.h < 0 ==> -1 <= dst.h as int - 2 * (p.y as int - yPivot as int) <= 0
  {
    Point((xPivot as int + HalfTowardZero(dst.w as int)) as int32,
          (yPivot as int + HalfTowardZero(dst.h as int)) as int32)
  }

  /**
   * The arguments `Draw` passes to `SDL_RenderCopyEx`. The texture, the angle
   * (a `float`) and the flip flags are handed through untouched, so they are
   * kept abstract.
   */
  datatype RenderCopyEx<Tex, Angle, Flip> =
    RenderCopyEx(tex: Tex, clip: Option<Rect>, dst: Rect, angle: Angle, center: Point, flip: Flip)

  /**
   * `Window::Draw(tex, dstRect, clip, angle, xPivot, yPivot, flip)`: the
   * renderer call it makes. `dstRect` is taken by reference but is passed on
   * unchanged; only the pivot is computed.
   */
  function Draw<Tex(==), Angle(==), Flip(==)>(tex: Tex, dst: Rect, clip: Option<Rect>, angle: Angle,
                                              xPivot: int32, yPivot: int32, flip: Flip): (call: RenderCopyEx<Tex, Angle, Flip>)
    requires PivotFits(dst, xPivot, yPivot)
    ensures call.dst == dst && call.clip == clip
    ensures call.tex == tex && call.angle == angle && call.flip == flip
    ensures call.center == Pivot(dst, xPivot, yPivot)
  {
    RenderCopyEx(tex, clip, dst, angle, Pivot(dst, xPivot, yPivot), flip)
  }

  // ---------------------------------------------------------------------------
  // Rectangle intersection
  // ---------------------------------------------------------------------------

  /**
   * One end of the interval from `lo` to `hi` lies in the closed interval
   * [lo', hi']. Only the ends are tested, never the inside.
   */
  predicate EndIn(lo: int, hi: int, lo': int, hi': int) {
    (lo >= lo' && lo <= hi') || (hi >= lo' && hi <= hi')
  }

  /** The closed intervals [lo, hi] and [lo', hi'] have a point in common. */
  predicate SpansMeet(lo: int, hi: int, lo': int, hi': int) {
    lo <= hi' && lo' <= hi
  }

  predicate XSpansMeet(a: Rect, b: Rect) {
    SpansMeet(a.x as int, a.Right(), b.x as int, b.Right())
  }

  predicate YSpansMeet(a: Rect, b: Rect) {
    SpansMeet(a.y as int, a.Bottom(), b.y as int, b.Bottom())
  }

  /**
   * `Window::basicSdlRectsIntersect(a, b)`: an end of `a`'s horizontal span
   * lies in `b`'s horizontal span, and an end of `a`'s vertical span lies in
   * `b`'s vertical span.
   */
  predicate BasicSdlRectsIntersect(a: Rect, b: Rect)
    requires a.EdgesFit() && b.EdgesFit()
    // sound for sizes that are not negative: the spans meet on both axes
    ensures BasicSdlRectsIntersect(a, b) && a.NonNegativeSize() && b.NonNegativeSize() ==>
              XSpansMeet(a, b) && YSpansMeet(a, b)
  {
    var horizOverlap := EndIn(a.x as int, a.Right(), b.x as int, b.Right());
    var vertOverlap := EndIn(a.y as int, a.Bottom(), b.y as int, b.Bottom());
    horizOverlap && vertOverlap
  }

  /** `Window::sdlRectsIntersect(a, b)`: the basic test in either order. */
  predicate SdlRectsIntersect(a: Rect, b: Rect)
    requires a.EdgesFit() && b.EdgesFit()
    ensures SdlRectsIntersect(a, b) && a.NonNegativeSize() && b.NonNegativeSize() ==>
              XSpansMeet(a, b) && YSpansMeet(a, b)
  {
    BasicSdlRectsIntersect(a, b) || BasicSdlRectsIntersect(b, a)
  }

  /**
   * The test as evidently intended: the spans meet on each axis separately,
   * with the two argument orders combined per axis rather than per rectangle.
   */
  predicate RectsOverlap(a: Rect, b: Rect)
    requires a.EdgesFit() && b.EdgesFit()
    // for sizes that are not negative it is exactly closed-interval overlap on both axes
    ensures a.NonNegativeSize() && b.NonNegativeSize() ==>
              (RectsOverlap(a, b) <==> XSpansMeet(a, b) && YSpansMeet(a, b))
  {
    && (EndIn(a.x as int, a.Right(), b.x as int, b.Right()) || EndIn(b.x as int, b.Right(), a.x as int, a.Right()))
    && (EndIn(a.y as int, a.Bottom(), b.y as int, b.Bottom()) || EndIn(b.y as int, b.Bottom(), a.y as int, a.Bottom()))
  }

  function Max(m: int32, n: int32): int32 {
    if m < n then n else m
  }

  /** A point that two overlapping rectangles share: the corner of their common part. */
  function CommonPoint(a: Rect, b: Rect): (p: Point)
    requires a.EdgesFit() && b.EdgesFit()
    requires a.NonNegativeSize() && b.NonNegativeSize()
    requires RectsOverlap(a, b)
    ensures a.Contains(p) && b.Contains(p)
  {
    Point(Max(a.x, b.x), Max(a.y, b.y))
  }
}
