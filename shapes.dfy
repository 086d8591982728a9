/** Option, for the canvas's nullable references. */
module Wrappers {
  datatype Option<T> = None | Some(value: T)
}

/**
 * Shape models, the view factory that dispatches on the model's variant,
 * the geometry a view draws, and the knobs the canvas builds around it.
 */
module Shapes {
  import opened Wrappers
  import opened Plane

  /** Identity of a view object (a DShape). */
  type ShapeId = nat

  /** Identity of a model object (a DShapeModel). */
  type ModelId = nat

  datatype Color = Color(red: real, green: real, blue: real, opacity: real)

  /**
   * The data of a shape model, by variant. OtherModel stands for any model
   * class the view factory does not know.
   */
  datatype ShapeModel =
    | RectModel(box: Rect, color: Color)
    | OvalModel(box: Rect, color: Color)
    | LineModel(start: Point, end: Point, color: Color)
    | TextModel(box: Rect, color: Color)
    | OtherModel(box: Rect, color: Color)

  /** The view classes. */
  datatype Kind = DRect | DOval | DLine | DText

  /** What a view draws: a box (rectangles, ovals, text) or a segment (lines). */
  datatype Geometry = Box(rect: Rect) | Segment(start: Point, end: Point)

  /** A view on the canvas: its class, its paired model, and that model's geometry and colour. */
  datatype View = View(kind: Kind, model: ModelId, geom: Geometry, color: Color)

  /** A knob: its square, and the anchor its drag handler captured when it was set up. */
  datatype Knob = Knob(square: Rect, anchor: Point)

  /** Lines, and only lines, are drawn as segments. */
  predicate WellFormed(v: View) {
    v.kind == DLine <==> v.geom.Segment?
  }

  /**
   * The view factory: the view class matching the model's variant, and
   * nothing for a variant it does not know.
   */
  function ViewFor(m: ShapeModel): (k: Option<Kind>)
    ensures k == Some(DRect) <==> m.RectModel?
    ensures k == Some(DOval) <==> m.OvalModel?
    ensures k == Some(DLine) <==> m.LineModel?
    ensures k == Some(DText) <==> m.TextModel?
    ensures k == None <==> m.OtherModel?
  {
    match m
    case RectModel(_, _) => Some(DRect)
    case OvalModel(_, _) => Some(DOval)
    case LineModel(_, _, _) => Some(DLine)
    case TextModel(_, _) => Some(DText)
    case OtherModel(_, _) => None
  }

  function GeometryOf(m: ShapeModel): Geometry {
    if m.LineModel? then Segment(m.start, m.end) else Box(m.box)
  }

  /** The view the factory builds for a model, bound to model id `id`. */
  function NewView(id: ModelId, m: ShapeModel): (v: View)
    requires ViewFor(m).Some?
    ensures WellFormed(v)
    ensures v.model == id && v.color == m.color && v.geom == GeometryOf(m)
    ensures Some(v.kind) == ViewFor(m)
  {
    View(ViewFor(m).value, id, GeometryOf(m), m.color)
  }

  /** The bounding box used for hit-testing; a segment's is the box spanning its endpoints. */
  function Bounds(g: Geometry): Rect {
    match g
    case Box(r) => r
    case Segment(s, e) => Span(s, e)
  }

  /** A whole-shape drag: a box is shifted, a segment has both endpoints shifted. */
  function MoveBy(g: Geometry, dx: real, dy: real): (r: Geometry)
    ensures r.Box? == g.Box?
    ensures g.Box? ==> r.rect.w == g.rect.w && r.rect.h == g.rect.h
    ensures g.Box? ==> TopLeft(r.rect) == Point(g.rect.x + dx, g.rect.y + dy)
    ensures g.Segment? ==> r.start == Point(g.start.x + dx, g.start.y + dy)
    ensures g.Segment? ==> r.end == Point(g.end.x + dx, g.end.y + dy)
  {
    match g
    case Box(rect) => Box(Shift(rect, dx, dy))
    case Segment(s, e) => Segment(Point(s.x + dx, s.y + dy), Point(e.x + dx, e.y + dy))
  }

  /** Successive drag steps add up: the shape ends where one step by the total offset puts it. */
  lemma MoveByCompose(g: Geometry, dx1: real, dy1: real, dx2: real, dy2: real)
    ensures MoveBy(MoveBy(g, dx1, dy1), dx2, dy2) == MoveBy(g, dx1 + dx2, dy1 + dy2)
  {
  }

  /**
   * A knob drag: a box becomes the box spanning the anchor and the pointer;
   * a segment runs from the anchor to the pointer.
   */
  function Resize(g: Geometry, anchor: Point, pointer: Point): (r: Geometry)
    ensures r.Box? == g.Box?
    ensures r.Box? ==> Spans(r.rect, anchor, pointer)
    ensures r.Segment? ==> r.start == anchor && r.end == pointer
  {
    if g.Segment? then Segment(anchor, pointer) else Box(Span(anchor, pointer))
  }

  /**
   * The knob squares for a geometry: for a box, four squares of side
   * KnobSize centred on its top-left, top-right, bottom-left and
   * bottom-right corners, in that order; for a segment, two, the first on
   * the end point and the second on the start point.
   */
  function KnobSquares(g: Geometry): (ks: seq<Rect>)
    ensures forall i :: 0 <= i < |ks| ==> ks[i].w == KnobSize && ks[i].h == KnobSize
    ensures g.Box? ==> (|ks| == 4 && Centre(ks[0]) == TopLeft(g.rect) && Centre(ks[1]) == TopRight(g.rect)
                        && Centre(ks[2]) == BottomLeft(g.rect) && Centre(ks[3]) == BottomRight(g.rect))
    ensures g.Segment? ==> |ks| == 2 && Centre(ks[0]) == g.end && Centre(ks[1]) == g.start
  {
    match g
    case Box(r) => [Square(TopLeft(r)), Square(TopRight(r)), Square(BottomLeft(r)), Square(BottomRight(r))]
    case Segment(s, e) => [Square(e), Square(s)]
  }

  /** The squares of a knob list. */
  function Squares(ks: seq<Knob>): (rs: seq<Rect>)
    ensures |rs| == |ks|
    ensures forall i :: 0 <= i < |ks| ==> rs[i] == ks[i].square
  {
    seq(|ks|, i requires 0 <= i < |ks| => ks[i].square)
  }

  /**
   * The knobs built when a shape's knobs are set up afresh: the squares of
   * KnobSquares, each with the anchor its drag will hold fixed. A box
   * knob's anchor is the diagonally opposite corner; a line knob's anchor
   * is the endpoint it does not sit on.
   */
  function FreshKnobs(g: Geometry): (ks: seq<Knob>)
    ensures Squares(ks) == KnobSquares(g)
    ensures g.Box? ==> (ks[0].anchor == BottomRight(g.rect) && ks[1].anchor == BottomLeft(g.rect)
                        && ks[2].anchor == TopRight(g.rect) && ks[3].anchor == TopLeft(g.rect))
    ensures g.Segment? ==> ks[0].anchor == g.start && ks[1].anchor == g.end
  {
    var sq := KnobSquares(g);
    match g
    case Box(r) =>
      [Knob(sq[0], BottomRight(r)), Knob(sq[1], BottomLeft(r)),
       Knob(sq[2], TopRight(r)), Knob(sq[3], TopLeft(r))]
    case Segment(s, e) => [Knob(sq[0], s), Knob(sq[1], e)]
  }

  /**
   * The knobs after the shape's geometry changed under them: each square is
   * recomputed for the new geometry, each drag handler keeps its anchor.
   */
  function Reposition(ks: seq<Knob>, g: Geometry): (r: seq<Knob>)
    requires |ks| == |KnobSquares(g)|
    ensures Squares(r) == KnobSquares(g)
    ensures forall i :: 0 <= i < |r| ==> r[i].anchor == ks[i].anchor
  {
    var sq := KnobSquares(g);
    seq(|ks|, i requires 0 <= i < |ks| => Knob(sq[i], ks[i].anchor))
  }

  /** The number of knobs depends only on whether the shape is a box or a segment. */
  lemma KnobCountStable(g: Geometry, g': Geometry)
    requires g.Box? == g'.Box?
    ensures |KnobSquares(g)| == |KnobSquares(g')|
  {
  }

  /**
   * Dragging any fresh knob of a normal box back onto its own centre
   * rebuilds the box: the anchors are exactly the opposite corners.
   */
  lemma BoxKnobRoundTrip(r: Rect, i: nat)
    requires Normal(r) && i < 4
    ensures Resize(Box(r), FreshKnobs(Box(r))[i].anchor, Centre(FreshKnobs(Box(r))[i].square)) == Box(r)
  {
    var ks := FreshKnobs(Box(r));
    assert Squares(ks)[i] == ks[i].square;
    SpanOfOppositeCorners(r);
  }

  /**
   * Dragging a fresh line knob keeps the endpoint it does not sit on and
   * puts the pointer in place of the other: the first knob (on the end
   * point) keeps the orientation, the second (on the start point) reverses
   * it, so the kept endpoint becomes the start.
   */
  lemma LineKnobDrag(s: Point, e: Point, p: Point)
    ensures Resize(Segment(s, e), FreshKnobs(Segment(s, e))[0].anchor, p) == Segment(s, p)
    ensures Resize(Segment(s, e), FreshKnobs(Segment(s, e))[1].anchor, p) == Segment(e, p)
  {
  }
}
