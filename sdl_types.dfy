/**
 * The value types of the SDL C API that the window wrapper works with.
 *
 * SDL declares the fields of `SDL_Rect` and `SDL_Point` as C `int`, which is a
 * 32-bit two's-complement integer on every platform SDL targets. Signed
 * overflow is undefined behaviour in C++, so the sums `x + w` and `y + h`
 * are only meaningful when they stay in range; `Rect.EdgesFit` says so.
 */
module SdlTypes {

  /** `n` is in the range of a C `int`. */
  predicate InInt32(n: int) {
    -0x8000_0000 <= n < 0x8000_0000
  }

  /** C `int`. */
  newtype int32 = n: int | InInt32(n)

  /** `SDL_Point`: a position in screen space. */
  datatype Point = Point(x: int32, y: int32)

  /** `SDL_Rect`: origin (x, y) and size (w, h). */
  datatype Rect = Rect(x: int32, y: int32, w: int32, h: int32)
  {
    /** The value of the C expression `x + w`, when it does not overflow. */
    function Right(): int {
      x as int + w as int
    }

    /** The value of the C expression `y + h`, when it does not overflow. */
    function Bottom(): int {
      y as int + h as int
    }

    /** Neither `x + w` nor `y + h` overflows a C `int`. */
    predicate EdgesFit() {
      InInt32(Right()) && InInt32(Bottom())
    }

    predicate NonNegativeSize() {
      0 <= w && 0 <= h
    }

    /** `p` lies in the closed region [x, x + w] × [y, y + h]. */
    predicate Contains(p: Point) {
      && x <= p.x && p.x as int <= Right()
      && y <= p.y && p.y as int <= Bottom()
    }
  }

  /** A C pointer that may be NULL, such as the optional clip rectangle. */
  datatype Option<T> = None | Some(value: T)
}
