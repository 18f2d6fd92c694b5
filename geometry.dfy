/** Integer rectangles with the intersection test of `java.awt.Rectangle`,
    the gap-widening used by the spacing checks, and Java's `(int)` cast. */
module Geometry {

  datatype Rect = Rect(x: int, y: int, width: int, height: int)

  /** `java.awt.Rectangle.intersects`: an empty rectangle meets nothing, and two
      rectangles meet only when they overlap strictly on both axes, so shared
      edges do not count. Coordinates are unbounded here (no int overflow). */
  predicate Intersects(a: Rect, b: Rect) {
    && a.width > 0 && a.height > 0 && b.width > 0 && b.height > 0
    && b.x < a.x + a.width && a.x < b.x + b.width
    && b.y < a.y + a.height && a.y < b.y + b.height
  }

  /** `expanded`/`expand`: widen by `gap` on the left and the right, same y and height. */
  function Expanded(r: Rect, gap: int): Rect {
    Rect(r.x - gap, r.y, r.width + 2 * gap, r.height)
  }

  /** One rectangle lies at least `gap` to the left of the other. */
  predicate HorizontallyClear(a: Rect, b: Rect, gap: int) {
    b.x >= a.x + a.width + gap || a.x >= b.x + b.width + gap
  }

  /** Widening `a` by `gap` and testing it against `b` is the same as asking whether
      the two are closer than `gap` horizontally while overlapping vertically. */
  lemma ExpandedIntersectsIff(a: Rect, b: Rect, gap: int)
    requires a.width > 0 && a.height > 0 && b.width > 0 && b.height > 0 && gap >= 0
    ensures Intersects(Expanded(a, gap), b) <==>
              !HorizontallyClear(a, b, gap) && b.y < a.y + a.height && a.y < b.y + b.height
  {
  }

  /** The widened test does not depend on which of the two rectangles is widened. */
  lemma ExpandedSymmetric(a: Rect, b: Rect, gap: int)
    requires a.width > 0 && a.height > 0 && b.width > 0 && b.height > 0 && gap >= 0
    ensures Intersects(Expanded(a, gap), b) <==> Intersects(Expanded(b, gap), a)
  {
  }

  /** Two rectangles that are horizontally clear by `gap` never make the widened test fire,
      whatever their heights. */
  lemma ClearNeverIntersects(a: Rect, b: Rect, gap: int)
    requires HorizontallyClear(a, b, gap)
    ensures !Intersects(Expanded(a, gap), b) && !Intersects(Expanded(b, gap), a)
  {
  }

  /** Java's `(int)` cast of a double: truncation toward zero (the saturation at the
      int range and NaN are not modelled). */
  function Trunc(r: real): (n: int)
    ensures 0.0 <= r ==> 0 <= n && n as real <= r < n as real + 1.0
    ensures r < 0.0 ==> n <= 0 && n as real - 1.0 < r <= n as real
  {
    if r >= 0.0 then r.Floor else -((-r).Floor)
  }

  /** Truncation is exact on whole numbers and shifting a position by a whole number
      shifts its truncation by the same amount as long as the sign does not change. */
  lemma TruncShift(r: real, k: int)
    requires (r >= 0.0 && r + k as real >= 0.0) || (r <= 0.0 && r + k as real <= 0.0)
    ensures Trunc(r + k as real) == Trunc(r) + k
  {
  }

  lemma TruncOfInt(n: int)
    ensures Trunc(n as real) == n
  {
  }

  /** A whole number is its own floor. */
  lemma WholeFloor(k: int)
    ensures (k as real).Floor == k
  {
  }
}
