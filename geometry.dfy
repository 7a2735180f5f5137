/**
 * Screen geometry used by the bathing page: bounding boxes as the browser
 * reports them (`getBoundingClientRect`), with integer coordinates. The y
 * axis grows downwards, so `top <= bottom` for a laid-out box.
 */
module Geometry {

  /** An axis-aligned box in client coordinates. */
  datatype Rect = Rect(left: int, top: int, right: int, bottom: int)

  /** A position in the coordinate space of an element's parent. */
  datatype Pos = Pos(x: int, y: int)

  /**
   * The drop test of `endDrag`: the boxes overlap unless one lies strictly
   * to one side of the other on some axis. Because the comparisons are
   * strict, boxes that only share an edge or a corner overlap.
   */
  predicate Overlaps(a: Rect, b: Rect): (r: bool)
    ensures r <==> Meet(a.left, a.right, b.left, b.right) && Meet(a.top, a.bottom, b.top, b.bottom)
  {
    !(a.right < b.left || a.left > b.right || a.bottom < b.top || a.top > b.bottom)
  }

  /** The closed intervals [lo1, hi1] and [lo2, hi2] are not apart. */
  predicate Meet(lo1: int, hi1: int, lo2: int, hi2: int)
  {
    lo1 <= hi2 && lo2 <= hi1
  }

  /** The point lies in the closed box, edges included. */
  predicate Inside(p: Pos, r: Rect)
  {
    r.left <= p.x <= r.right && r.top <= p.y <= r.bottom
  }

  /**
   * For laid-out boxes the drop test is exactly "the closed boxes share a
   * point": the point proves overlap, and overlap yields the point
   * (the larger of the two left edges, the larger of the two top edges).
   */
  lemma OverlapsIffSharedPoint(a: Rect, b: Rect)
    requires a.left <= a.right && a.top <= a.bottom
    requires b.left <= b.right && b.top <= b.bottom
    ensures Overlaps(a, b) <==> exists p :: Inside(p, a) && Inside(p, b)
  {
    if Overlaps(a, b) {
      var x := if a.left < b.left then b.left else a.left;
      var y := if a.top < b.top then b.top else a.top;
      assert Inside(Pos(x, y), a) && Inside(Pos(x, y), b);
    }
  }

  /** The test does not depend on which box is the dragged item. */
  lemma OverlapsSymmetric(a: Rect, b: Rect)
    ensures Overlaps(a, b) == Overlaps(b, a)
  {
  }

  /** Boxes touching along a vertical edge count as overlapping. */
  lemma TouchingEdgesOverlap(a: Rect, b: Rect)
    requires a.left <= a.right && b.left <= b.right
    requires a.right == b.left
    requires a.top <= b.bottom && b.top <= a.bottom
    ensures Overlaps(a, b)
  {
  }

  /** A gap of one unit on either axis is enough to miss. */
  lemma SeparatedBoxesMiss(a: Rect, b: Rect)
    requires a.right < b.left || a.bottom < b.top
    ensures !Overlaps(a, b) && !Overlaps(b, a)
  {
  }
}
