/**
 * What the rectangle intersection test and the pivot conversion of `Window`
 * guarantee, stated against plain interval geometry.
 *
 * The test is sound: whenever it reports an intersection, the two closed
 * rectangles share a point. It is not complete: two bars crossing like a plus
 * sign share a point, yet neither corner test sees it.
 */
module WindowProperties {
  import opened SdlTypes
  import opened Window

  /** [lo', hi'] lies strictly inside [lo, hi], touching neither end. */
  predicate StrictlyEncloses(lo: int, hi: int, lo': int, hi': int) {
    lo < lo' && hi' < hi
  }

  /** The closed rectangle `b` lies within the closed rectangle `a`. */
  predicate Within(b: Rect, a: Rect) {
    && a.x <= b.x && b.Right() <= a.Right()
    && a.y <= b.y && b.Bottom() <= a.Bottom()
  }

  /** `b` lies within `a` and touches none of its edges. */
  predicate StrictlyWithin(b: Rect, a: Rect) {
    && StrictlyEncloses(a.x as int, a.Right(), b.x as int, b.Right())
    && StrictlyEncloses(a.y as int, a.Bottom(), b.y as int, b.Bottom())
  }

  /**
   * `a` is a vertical bar running through the horizontal bar `b`: `a`'s
   * horizontal span lies strictly inside `b`'s, and `b`'s vertical span lies
   * strictly inside `a`'s. No corner of either lies in the other.
   */
  predicate Crosses(a: Rect, b: Rect) {
    && StrictlyEncloses(b.x as int, b.Right(), a.x as int, a.Right())
    && StrictlyEncloses(a.y as int, a.Bottom(), b.y as int, b.Bottom())
  }

  // ---------------------------------------------------------------------------
  // The one-directional test
  // ---------------------------------------------------------------------------

  /**
   * For rectangles of non-negative size, the one-directional test holds
   * exactly when the spans meet on both axes and on neither axis `a`'s span
   * strictly encloses `b`'s.
   */
  lemma BasicMeaning(a: Rect, b: Rect)
    requires a.EdgesFit() && b.EdgesFit()
    requires a.NonNegativeSize() && b.NonNegativeSize()
    ensures BasicSdlRectsIntersect(a, b) <==>
              && XSpansMeet(a, b) && !StrictlyEncloses(a.x as int, a.Right(), b.x as int, b.Right())
              && YSpansMeet(a, b) && !StrictlyEncloses(a.y as int, a.Bottom(), b.y as int, b.Bottom())
  {
  }

  /**
   * A rectangle within another is found only by testing it against the
   * larger one; testing the larger one against it fails when it touches
   * none of the larger one's edges.
   */
  lemma ContainmentFoundByReversedCall(a: Rect, b: Rect)
    requires a.EdgesFit() && b.EdgesFit()
    requires b.NonNegativeSize()
    requires Within(b, a)
    ensures BasicSdlRectsIntersect(b, a)
    ensures SdlRectsIntersect(a, b) && SdlRectsIntersect(b, a)
    ensures StrictlyWithin(b, a) ==> !BasicSdlRectsIntersect(a, b)
  {
  }

  // ---------------------------------------------------------------------------
  // The two-directional test
  // ---------------------------------------------------------------------------

  /** Testing in both orders makes the result independent of argument order. */
  lemma IntersectSymmetric(a: Rect, b: Rect)
    requires a.EdgesFit() && b.EdgesFit()
    ensures SdlRectsIntersect(a, b) == SdlRectsIntersect(b, a)
  {
  }

  /** Soundness: a reported intersection means the spans meet on both axes. */
  lemma IntersectImpliesSpansMeet(a: Rect, b: Rect)
    requires a.EdgesFit() && b.EdgesFit()
    requires a.NonNegativeSize() && b.NonNegativeSize()
    requires SdlRectsIntersect(a, b)
    ensures XSpansMeet(a, b) && YSpansMeet(a, b)
    ensures RectsOverlap(a, b)
  {
  }

  /** Soundness, geometrically: a reported intersection has a witness point. */
  lemma IntersectImpliesCommonPoint(a: Rect, b: Rect)
    requires a.EdgesFit() && b.EdgesFit()
    requires a.NonNegativeSize() && b.NonNegativeSize()
    requires SdlRectsIntersect(a, b)
    ensures exists p :: a.Contains(p) && b.Contains(p)
  {
    IntersectImpliesSpansMeet(a, b);
    var p := CommonPoint(a, b);
    assert a.Contains(p) && b.Contains(p);
  }

  /** Rectangles separated by a gap on either axis never intersect. */
  lemma SeparatedDoNotIntersect(a: Rect, b: Rect)
    requires a.EdgesFit() && b.EdgesFit()
    requires a.NonNegativeSize() && b.NonNegativeSize()
    requires a.Right() < b.x as int || b.Right() < a.x as int || a.Bottom() < b.y as int || b.Bottom() < a.y as int
    ensures !SdlRectsIntersect(a, b)
  {
    if SdlRectsIntersect(a, b) {
      IntersectImpliesSpansMeet(a, b);
    }
  }

  /**
   * Exactly what the test misses: for rectangles of non-negative size it
   * reports an intersection precisely when the rectangles overlap and neither
   * crosses the other like the bars of a plus sign.
   */
  lemma IntersectExactly(a: Rect, b: Rect)
    requires a.EdgesFit() && b.EdgesFit()
    requires a.NonNegativeSize() && b.NonNegativeSize()
    ensures SdlRectsIntersect(a, b) <==> RectsOverlap(a, b) && !Crosses(a, b) && !Crosses(b, a)
  {
  }

  /** The test is not complete: some overlapping pair is reported as apart. */
  lemma NotComplete()
    ensures exists a: Rect, b: Rect ::
              && a.EdgesFit() && b.EdgesFit()
              && a.NonNegativeSize() && b.NonNegativeSize()
              && RectsOverlap(a, b) && !SdlRectsIntersect(a, b)
  {
    var a, b := Rect(0, 5, 20, 2), Rect(8, 0, 2, 20);
    assert && a.EdgesFit() && b.EdgesFit()
           && a.NonNegativeSize() && b.NonNegativeSize()
           && RectsOverlap(a, b) && !SdlRectsIntersect(a, b);
  }

  /** A horizontal bar and a vertical bar crossing at (8..10, 5..7). */
  lemma PlusShapeMissed()
    ensures var a, b := Rect(0, 5, 20, 2), Rect(8, 0, 2, 20);
            && a.EdgesFit() && b.EdgesFit()
            && a.Contains(Point(9, 6)) && b.Contains(Point(9, 6))
            && RectsOverlap(a, b) && Crosses(b, a)
            && !SdlRectsIntersect(a, b)
  {
  }

  /**
   * Partial overlap, disjoint rectangles, containment and edge touching, and
   * the two one-directional results for containment.
   */
  lemma Examples()
    ensures SdlRectsIntersect(Rect(0, 0, 10, 10), Rect(5, 5, 10, 10))
    ensures !SdlRectsIntersect(Rect(0, 0, 10, 10), Rect(20, 20, 5, 5))
    ensures SdlRectsIntersect(Rect(0, 0, 10, 10), Rect(2, 2, 1, 1))
    ensures SdlRectsIntersect(Rect(0, 0, 10, 10), Rect(10, 0, 10, 10))
    ensures !BasicSdlRectsIntersect(Rect(0, 0, 10, 10), Rect(2, 2, 1, 1))
    ensures BasicSdlRectsIntersect(Rect(2, 2, 1, 1), Rect(0, 0, 10, 10))
  {
  }

  // ---------------------------------------------------------------------------
  // The corrected test
  // ---------------------------------------------------------------------------

  /**
   * Combining the two argument orders per axis gives true closed-interval
   * overlap: the corrected test holds exactly when the rectangles share a point.
   */
  lemma OverlapIffCommonPoint(a: Rect, b: Rect)
    requires a.EdgesFit() && b.EdgesFit()
    requires a.NonNegativeSize() && b.NonNegativeSize()
    ensures RectsOverlap(a, b) <==> exists p :: a.Contains(p) && b.Contains(p)
  {
    if RectsOverlap(a, b) {
      var p := CommonPoint(a, b);
      assert a.Contains(p) && b.Contains(p);
    }
  }

  /** The corrected test accepts everything the original does. */
  lemma IntersectImpliesOverlap(a: Rect, b: Rect)
    requires a.EdgesFit() && b.EdgesFit()
    ensures SdlRectsIntersect(a, b) ==> RectsOverlap(a, b)
  {
  }

  // ---------------------------------------------------------------------------
  // The pivot
  // ---------------------------------------------------------------------------

  /**
   * C++ division agrees with Dafny's for a non-negative size and differs by
   * one for a negative odd size.
   */
  lemma HalfTowardZeroVsFloor(n: int)
    ensures 0 <= n ==> HalfTowardZero(n) == n / 2
    ensures n < 0 && n % 2 == 0 ==> HalfTowardZero(n) == n / 2
    ensures n < 0 && n % 2 == 1 ==> HalfTowardZero(n) == n / 2 + 1
  {
  }

  /** With no offset and even sizes the pivot is the exact centre of `dst`. */
  lemma ZeroOffsetPivotIsCentre(dst: Rect)
    requires dst.w as int % 2 == 0 && dst.h as int % 2 == 0
    requires PivotFits(dst, 0, 0)
    ensures 2 * Pivot(dst, 0, 0).x as int == dst.w as int
    ensures 2 * Pivot(dst, 0, 0).y as int == dst.h as int
  {
  }
}
