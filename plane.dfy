/**
 * Points and axis-aligned rectangles of the drawing surface, and the two
 * pure computations the canvas does on them: the knob-drag resize (the box
 * spanning a fixed anchor and the pointer) and the 9-unit knob squares
 * centred on a control point. Coordinates are reals, so the arithmetic is
 * exact.
 */
module Plane {

  datatype Point = Point(x: real, y: real)

  /** A rectangle given by its top-left origin, its width and its height. */
  datatype Rect = Rect(x: real, y: real, w: real, h: real)

  /** Edge length of every knob square. */
  const KnobSize: real := 9.0

  /** The rectangle has no negative extent. */
  predicate Normal(r: Rect) {
    r.w >= 0.0 && r.h >= 0.0
  }

  /** The normal box r has a and p on opposite edges, in each axis. */
  predicate Spans(r: Rect, a: Point, p: Point) {
    && Normal(r)
    && ((r.x == a.x && r.x + r.w == p.x) || (r.x == p.x && r.x + r.w == a.x))
    && ((r.y == a.y && r.y + r.h == p.y) || (r.y == p.y && r.y + r.h == a.y))
  }

  /** Closed containment of a point in a rectangle (used for shapes and knobs alike). */
  predicate Contains(r: Rect, p: Point) {
    r.x <= p.x <= r.x + r.w && r.y <= p.y <= r.y + r.h
  }

  function TopLeft(r: Rect): Point { Point(r.x, r.y) }
  function TopRight(r: Rect): Point { Point(r.x + r.w, r.y) }
  function BottomLeft(r: Rect): Point { Point(r.x, r.y + r.h) }
  function BottomRight(r: Rect): Point { Point(r.x + r.w, r.y + r.h) }

  function Centre(r: Rect): Point {
    Point(r.x + r.w / 2.0, r.y + r.h / 2.0)
  }

  /** The smaller coordinate, picked the way the source's conditional does. */
  function Lower(result: real, anchor: real): (m: real)
    ensures m <= result && m <= anchor
    ensures m == result || m == anchor
  {
    if result < anchor then result else anchor
  }

  function Distance(a: real, b: real): (d: real)
    ensures d >= 0.0
    ensures d == a - b || d == b - a
  {
    if a - b < 0.0 then b - a else a - b
  }

  /**
   * The box a knob drag produces: origin at the per-axis minimum of anchor
   * and pointer, width and height their distance. The box has no negative
   * extent and anchor and pointer sit on its opposite edges in each axis.
   */
  function Span(anchor: Point, pointer: Point): (r: Rect)
    ensures Spans(r, anchor, pointer)
    ensures Contains(r, anchor) && Contains(r, pointer)
  {
    Rect(Lower(pointer.x, anchor.x), Lower(pointer.y, anchor.y),
         Distance(anchor.x, pointer.x), Distance(anchor.y, pointer.y))
  }

  /** A knob: a square of side KnobSize centred on the control point c. */
  function Square(c: Point): (r: Rect)
    ensures r.w == KnobSize && r.h == KnobSize
    ensures Centre(r) == c
    ensures Contains(r, c)
  {
    Rect(c.x - KnobSize / 2.0, c.y - KnobSize / 2.0, KnobSize, KnobSize)
  }

  /** The rectangle moved by (dx, dy), its size unchanged. */
  function Shift(r: Rect, dx: real, dy: real): (s: Rect)
    ensures s.w == r.w && s.h == r.h
    ensures TopLeft(s) == Point(r.x + dx, r.y + dy)
  {
    Rect(r.x + dx, r.y + dy, r.w, r.h)
  }

  /** The spanned box does not depend on which of the two points is the anchor. */
  lemma SpanSymmetric(a: Point, p: Point)
    ensures Span(a, p) == Span(p, a)
  {
  }

  /**
   * Span is the inverse of taking two opposite corners: for a box with no
   * negative extent, each pair of opposite corners, in either order, spans
   * the box again.
   */
  lemma SpanOfOppositeCorners(r: Rect)
    requires Normal(r)
    ensures Span(TopLeft(r), BottomRight(r)) == r && Span(BottomRight(r), TopLeft(r)) == r
    ensures Span(TopRight(r), BottomLeft(r)) == r && Span(BottomLeft(r), TopRight(r)) == r
  {
  }

  /** The box spanned by two points is the unique normal box having them on opposite edges. */
  lemma SpanUnique(a: Point, p: Point, r: Rect)
    requires Spans(r, a, p)
    ensures r == Span(a, p)
  {
  }
}
