/**
 * The canvas: the ordered, parallel lists of shape views and shape models,
 * the single selected shape, the knobs around it, and the operations that
 * select, drag, resize, reorder, recolour and delete shapes.
 */
module Drawing {
  import opened Wrappers
  import opened Plane
  import opened Shapes
  import opened Lists

  /**
   * The parallel-lists invariant: the shape list and the model list have the
   * same length, neither repeats an element, and the model at each index is
   * the model of the view at that index.
   */
  ghost predicate Parallel(shapes: seq<ShapeId>, models: seq<ModelId>, views: map<ShapeId, View>) {
    && |shapes| == |models|
    && Distinct(shapes) && Distinct(models)
    && forall i :: 0 <= i < |shapes| ==> shapes[i] in views && views[shapes[i]].model == models[i]
  }

  /** Every view built so far is well formed and has an identity below next. */
  ghost predicate Catalogued(views: map<ShapeId, View>, next: ShapeId) {
    forall s :: s in views ==> s < next && WellFormed(views[s])
  }

  /** Every listed shape has a view. */
  ghost predicate Listed(shapes: seq<ShapeId>, views: map<ShapeId, View>) {
    forall i :: 0 <= i < |shapes| ==> shapes[i] in views
  }

  /** The bounds of shape s contain p. */
  predicate Hit(views: map<ShapeId, View>, s: ShapeId, p: Point)
    requires s in views
  {
    Contains(Bounds(views[s].geom), p)
  }

  /** Some knob's square contains p. */
  ghost predicate OnKnob(knobs: seq<Knob>, p: Point) {
    exists k :: 0 <= k < |knobs| && Contains(knobs[k].square, p)
  }

  /**
   * The hit-test: the last shape, in list (back-to-front) order, whose
   * bounds contain p, or nothing when no shape's bounds do.
   */
  function Frontmost(shapes: seq<ShapeId>, views: map<ShapeId, View>, p: Point): (r: Option<ShapeId>)
    requires Listed(shapes, views)
    ensures r.Some? ==> r.value in shapes && r.value in views && Hit(views, r.value, p)
  {
    if shapes == [] then None
    else if Hit(views, shapes[|shapes| - 1], p) then Some(shapes[|shapes| - 1])
    else Frontmost(shapes[..|shapes| - 1], views, p)
  }

  /**
   * Frontmost picks the last hit: it is nothing exactly when no shape is
   * hit, and otherwise the shape at some index i that is hit while no
   * shape after i is.
   */
  lemma {:induction false} FrontmostIsLastHit(shapes: seq<ShapeId>, views: map<ShapeId, View>, p: Point)
    requires Listed(shapes, views)
    ensures Frontmost(shapes, views, p).None? <==> forall i :: 0 <= i < |shapes| ==> !Hit(views, shapes[i], p)
    ensures Frontmost(shapes, views, p).Some? ==>
      exists i :: 0 <= i < |shapes| && shapes[i] == Frontmost(shapes, views, p).value
        && forall j :: i < j < |shapes| ==> !Hit(views, shapes[j], p)
  {
    if shapes != [] {
      var n := |shapes| - 1;
      var front := shapes[..n];
      if !Hit(views, shapes[n], p) {
        FrontmostIsLastHit(front, views, p);
        if Frontmost(front, views, p).Some? {
          var i :| 0 <= i < |front| && front[i] == Frontmost(front, views, p).value
            && forall j :: i < j < |front| ==> !Hit(views, front[j], p);
          assert shapes[i] == front[i];
          forall j | i < j < |shapes| ensures !Hit(views, shapes[j], p) {
            if j < n { assert shapes[j] == front[j]; }
          }
        } else {
          forall i | 0 <= i < |shapes| ensures !Hit(views, shapes[i], p) {
            if i < n { assert shapes[i] == front[i]; }
          }
        }
      }
    }
  }

  /**
   * Front-most priority: when the shape at index j is hit, the hit-test
   * picks a hit shape at index j or later. Of two overlapping shapes, a
   * click in the overlap selects the one added (or raised) later.
   */
  lemma FrontmostPrefersFront(shapes: seq<ShapeId>, views: map<ShapeId, View>, p: Point, j: nat)
    requires Listed(shapes, views) && j < |shapes| && Hit(views, shapes[j], p)
    ensures Frontmost(shapes, views, p).Some?
    ensures exists k :: j <= k < |shapes| && shapes[k] == Frontmost(shapes, views, p).value
  {
    FrontmostIsLastHit(shapes, views, p);
    var k :| 0 <= k < |shapes| && shapes[k] == Frontmost(shapes, views, p).value
      && forall i :: k < i < |shapes| ==> !Hit(views, shapes[i], p);
    assert j <= k;
  }

  /**
   * A click raises the shape it selects, so a second click at the same
   * point picks the same shape again: it is now last in the list and hit.
   */
  lemma RaisedIsFrontmost(shapes: seq<ShapeId>, views: map<ShapeId, View>, p: Point, s: ShapeId)
    requires Listed(shapes, views) && s in views && Hit(views, s, p)
    ensures Listed(MoveToEnd(shapes, s), views)
    ensures Frontmost(MoveToEnd(shapes, s), views, p) == Some(s)
  {
    var rest := Remove(shapes, s);
    RemovePermutes(shapes, s);
    forall i | 0 <= i < |rest| ensures rest[i] in views {
      assert rest[i] in multiset(rest);
      var j :| 0 <= j < |shapes| && shapes[j] == rest[i];
    }
    var r := MoveToEnd(shapes, s);
    forall i | 0 <= i < |r| ensures r[i] in views {
      if i < |rest| { assert r[i] == rest[i]; }
    }
  }

  /**
   * Removing the view at index i from the shape list and its model from the
   * model list cuts both lists at the same index i and keeps them parallel.
   */
  lemma ParallelRemove(shapes: seq<ShapeId>, models: seq<ModelId>, views: map<ShapeId, View>, i: nat)
    requires Parallel(shapes, models, views) && i < |shapes|
    ensures views[shapes[i]].model == models[i]
    ensures Remove(shapes, shapes[i]) == shapes[..i] + shapes[i + 1..]
    ensures Remove(models, models[i]) == models[..i] + models[i + 1..]
    ensures Parallel(Remove(shapes, shapes[i]), Remove(models, models[i]), views)
    ensures shapes[i] !in Remove(shapes, shapes[i]) && models[i] !in Remove(models, models[i])
  {
    RemoveDistinct(shapes, i);
    RemoveDistinct(models, i);
    var s, m := Remove(shapes, shapes[i]), Remove(models, models[i]);
    forall k | 0 <= k < |s| ensures s[k] in views && views[s[k]].model == m[k] {
      var k' := if k < i then k else k + 1;
      assert s[k] == shapes[k'] && m[k] == models[k'];
    }
  }

  /** Putting a view at the end of the shape list and its model at the end of the model list keeps them parallel. */
  lemma ParallelAppend(shapes: seq<ShapeId>, models: seq<ModelId>, views: map<ShapeId, View>, s: ShapeId)
    requires Parallel(shapes, models, views) && s in views && s !in shapes && views[s].model !in models
    ensures Parallel(shapes + [s], models + [views[s].model], views)
    ensures Parallel([s] + shapes, [views[s].model] + models, views)
  {
    DistinctAdd(shapes, s);
    DistinctAdd(models, views[s].model);
  }

  /** The index of a listed shape. */
  lemma IndexOf(shapes: seq<ShapeId>, s: ShapeId) returns (i: nat)
    requires s in shapes
    ensures i < |shapes| && shapes[i] == s
  {
    i :| 0 <= i < |shapes| && shapes[i] == s;
  }

  /** Deleting a listed shape and its model keeps the lists parallel and drops the shape. */
  lemma RemoveKeepsParallel(shapes: seq<ShapeId>, models: seq<ModelId>, views: map<ShapeId, View>, s: ShapeId)
    requires Parallel(shapes, models, views) && s in shapes
    ensures s in views && views[s].model in models
    ensures Parallel(Remove(shapes, s), Remove(models, views[s].model), views)
    ensures s !in Remove(shapes, s) && views[s].model !in Remove(models, views[s].model)
  {
    var i := IndexOf(shapes, s);
    ParallelRemove(shapes, models, views, i);
  }

  /**
   * Moving a shape to the end (front of the z-order) or to index 0 (back)
   * of the shape list, and its model likewise in the model list, keeps the
   * lists parallel.
   */
  lemma ReorderKeepsParallel(shapes: seq<ShapeId>, models: seq<ModelId>, views: map<ShapeId, View>, s: ShapeId)
    requires Parallel(shapes, models, views) && s in shapes
    ensures s in views && views[s].model in models
    ensures Parallel(MoveToEnd(shapes, s), MoveToEnd(models, views[s].model), views)
    ensures Parallel(MoveToStart(shapes, s), MoveToStart(models, views[s].model), views)
  {
    RemoveKeepsParallel(shapes, models, views, s);
    ParallelAppend(Remove(shapes, s), Remove(models, views[s].model), views, s);
  }

  /**
   * Where a reordered or deleted shape was: both lists are cut at the same
   * index i and every other shape and model keeps its relative order.
   */
  lemma ReorderCuts(shapes: seq<ShapeId>, models: seq<ModelId>, views: map<ShapeId, View>, s: ShapeId)
      returns (i: nat)
    requires Parallel(shapes, models, views) && s in shapes
    ensures i < |shapes| && shapes[i] == s && models[i] == views[s].model
    ensures Remove(shapes, s) == shapes[..i] + shapes[i + 1..]
    ensures Remove(models, views[s].model) == models[..i] + models[i + 1..]
    ensures MoveToEnd(shapes, s) == shapes[..i] + shapes[i + 1..] + [s]
    ensures MoveToEnd(models, views[s].model) == models[..i] + models[i + 1..] + [views[s].model]
    ensures MoveToStart(shapes, s) == [s] + (shapes[..i] + shapes[i + 1..])
    ensures MoveToStart(models, views[s].model) == [views[s].model] + (models[..i] + models[i + 1..])
  {
    i := IndexOf(shapes, s);
    ParallelRemove(shapes, models, views, i);
  }

  /**
   * Keeping the knob anchors across a shape-body drag, as the knob drag
   * handlers do when only the squares are repositioned: after a box is
   * dragged right by less than its width, dragging its top-left knob onto
   * its own centre narrows the box by the drag distance, because the anchor
   * is still the bottom-right corner from before the drag. (The box
   * (0, 0, 10, 10) dragged by (5, 5) becomes (5, 5, 5, 5).)
   */
  lemma StaleAnchorSnapsBack(r: Rect, dx: real, dy: real)
    requires Normal(r) && 0.0 < dx < r.w
    ensures
      var moved := MoveBy(Box(r), dx, dy);
      var ks := Reposition(FreshKnobs(Box(r)), moved);
      && |ks| == 4
      && Resize(moved, ks[0].anchor, Centre(ks[0].square)).rect.w == r.w - dx
      && Resize(moved, ks[0].anchor, Centre(ks[0].square)) != moved
  {
    var moved := MoveBy(Box(r), dx, dy);
    var ks := Reposition(FreshKnobs(Box(r)), moved);
    assert Squares(ks)[0] == ks[0].square;
    assert ks[0].anchor == BottomRight(r);
    assert Centre(ks[0].square) == TopLeft(moved.rect);
  }

  /**
   * With the anchors rebuilt after a body drag, dragging any knob of the
   * moved box onto its own centre leaves the box as it is.
   */
  lemma RefreshedAnchorsHold(g: Geometry, dx: real, dy: real, i: nat)
    requires g.Box? && Normal(g.rect) && i < 4
    ensures
      var moved := MoveBy(g, dx, dy);
      Resize(moved, FreshKnobs(moved)[i].anchor, Centre(FreshKnobs(moved)[i].square)) == moved
  {
    var moved := MoveBy(g, dx, dy);
    BoxKnobRoundTrip(moved.rect, i);
  }

  /**
   * The stale-anchor sequence replayed on a canvas: with a box selected and
   * its knobs fresh, a body drag step as the code does it, moving the box
   * right by less than its width, then a drag of the top-left knob onto its
   * own centre. The box ends narrowed by the drag distance instead of where
   * the body drag put it.
   */
  method StaleAnchorReplay(c: Canvas, r: Rect, p: Point)
    requires c.Valid() && c.selected.Some? && c.dragFrom.Some?
    requires c.views[c.selected.value].geom == Box(r) && c.knobs == FreshKnobs(Box(r))
    requires Normal(r) && 0.0 < p.x - c.dragFrom.value.x < r.w
    requires r.x + (p.x - c.dragFrom.value.x) > 0.0 && r.y + (p.y - c.dragFrom.value.y) > 0.0
    modifies c
    ensures c.Valid() && c.selected == old(c.selected)
    ensures c.views[c.selected.value].geom.Box?
    ensures c.views[c.selected.value].geom.rect.w == r.w - (p.x - old(c.dragFrom).value.x)
    ensures c.views[c.selected.value].geom != MoveBy(Box(r), p.x - old(c.dragFrom).value.x, p.y - old(c.dragFrom).value.y)
  {
    var dx, dy := p.x - c.dragFrom.value.x, p.y - c.dragFrom.value.y;
    c.ShapeDragStepAsWritten(p);
    StaleAnchorSnapsBack(r, dx, dy);
    var moved := MoveBy(Box(r), dx, dy);
    assert Squares(c.knobs)[0] == c.knobs[0].square;
    assert Centre(c.knobs[0].square) == TopLeft(moved.rect);
    c.KnobDragStep(0, Centre(c.knobs[0].square));
  }

  /**
   * The same sequence with the knobs rebuilt after the body drag: dragging
   * the top-left knob onto its own centre leaves the box where the body
   * drag put it.
   */
  method RefreshedAnchorReplay(c: Canvas, r: Rect, p: Point)
    requires c.Valid() && c.selected.Some? && c.dragFrom.Some?
    requires c.views[c.selected.value].geom == Box(r)
    requires Normal(r)
    requires r.x + (p.x - c.dragFrom.value.x) > 0.0 && r.y + (p.y - c.dragFrom.value.y) > 0.0
    modifies c
    ensures c.Valid() && c.selected == old(c.selected)
    ensures c.views[c.selected.value].geom == MoveBy(Box(r), p.x - old(c.dragFrom).value.x, p.y - old(c.dragFrom).value.y)
  {
    var dx, dy := p.x - c.dragFrom.value.x, p.y - c.dragFrom.value.y;
    c.ShapeDragStep(p);
    RefreshedAnchorsHold(Box(r), dx, dy, 0);
    var moved := MoveBy(Box(r), dx, dy);
    assert Squares(c.knobs)[0] == c.knobs[0].square;
    assert Centre(c.knobs[0].square) == TopLeft(moved.rect);
    c.KnobDragStep(0, Centre(c.knobs[0].square));
  }

  class Canvas {
    /** The views, back to front. */
    var shapes: seq<ShapeId>
    /** Their models, index-aligned with shapes. */
    var models: seq<ModelId>
    /** Every view ever built, by identity. */
    var views: map<ShapeId, View>
    var selected: Option<ShapeId>
    var knobs: seq<Knob>
    /** Last pointer position of a shape-body drag in progress. */
    var dragFrom: Option<Point>
    /** The next view identity to hand out. */
    var nextId: ShapeId

    /** The parallel lists, and every view built so far well formed and older than nextId. */
    ghost predicate Aligned()
      reads this
    {
      Parallel(shapes, models, views) && Catalogued(views, nextId)
    }

    /**
     * The canvas invariant: the lists are aligned; a selected shape is on
     * the canvas and the knobs are the knob squares of its current geometry;
     * with nothing selected there are no knobs.
     */
    ghost predicate Valid()
      reads this
    {
      && Aligned()
      && (selected.Some? ==> selected.value in shapes && Squares(knobs) == KnobSquares(views[selected.value].geom))
      && (selected.None? ==> knobs == [])
    }

    constructor ()
      ensures Valid()
      ensures shapes == [] && models == [] && selected == None && knobs == [] && dragFrom == None
    {
      shapes, models, views := [], [], map[];
      selected, knobs, dragFrom := None, [], None;
      nextId := 0;
    }

    /**
     * Adds a shape for model m: the factory builds the matching view, which
     * is appended with its model and then selected. For a model variant the
     * factory does not know, nothing changes (ok is false).
     */
    method AddShape(m: ModelId, data: ShapeModel) returns (ok: bool)
      requires Valid() && m !in models
      modifies this
      ensures Valid()
      ensures ok <==> ViewFor(data).Some?
      ensures !ok ==> unchanged(this)
      ensures ok ==>
        && old(nextId) !in old(views)
        && shapes == old(shapes) + [old(nextId)] && models == old(models) + [m]
        && views == old(views)[old(nextId) := NewView(m, data)]
        && selected == Some(old(nextId))
        && knobs == FreshKnobs(GeometryOf(data))
        && dragFrom == None && nextId == old(nextId) + 1
    {
      var kind := ViewFor(data);
      if kind.None? {
        return false;
      }
      var s := nextId;
      nextId := nextId + 1;
      views := views[s := NewView(m, data)];
      assert s !in shapes;
      ParallelAppend(shapes, models, views, s);
      shapes := shapes + [s];
      models := models + [m];
      RemoveAppended(old(shapes), s);
      RemoveAppended(old(models), m);
      UpdateSelection(s);
      ok := true;
    }

    /** Changes the colour of the selected shape only; with nothing selected, nothing changes. */
    method UpdateColor(c: Color)
      requires Valid()
      modifies this`views
      ensures Valid()
      ensures old(selected).None? ==> views == old(views)
      ensures old(selected).Some? ==>
        views == old(views)[selected.value := old(views)[selected.value].(color := c)]
    {
      if selected.Some? {
        var s := selected.value;
        views := views[s := views[s].(color := c)];
      }
    }

    /** Whether p lies inside one of the knobs. */
    method DetectKnobClick(p: Point) returns (hit: bool)
      ensures hit <==> exists k :: 0 <= k < |knobs| && Contains(knobs[k].square, p)
    {
      for i := 0 to |knobs|
        invariant forall k :: 0 <= k < i ==> !Contains(knobs[k].square, p)
      {
        if Contains(knobs[i].square, p) {
          return true;
        }
      }
      return false;
    }

    /** The hit-test loop: walks the shapes back to front, keeping the last one hit. */
    method FrontmostAt(p: Point) returns (hit: Option<ShapeId>)
      requires Aligned()
      ensures hit == Frontmost(shapes, views, p)
    {
      hit := None;
      var i := 0;
      while i < |shapes|
        invariant i <= |shapes|
        invariant hit == Frontmost(shapes[..i], views, p)
      {
        assert shapes[..i + 1][..i] == shapes[..i];
        if Hit(views, shapes[i], p) {
          hit := Some(shapes[i]);
        }
        i := i + 1;
      }
      assert shapes[..i] == shapes;
    }

    /**
     * A click at p. With a shape selected, a click inside a knob changes
     * nothing. Otherwise the front-most shape containing p is selected and
     * raised; when there is none, the selection and the knobs are cleared.
     */
    method MakeSelection(p: Point)
      requires Valid()
      modifies this
      ensures Valid()
      ensures old(selected).Some? && OnKnob(old(knobs), p) ==> unchanged(this)
      ensures !(old(selected).Some? && OnKnob(old(knobs), p)) ==>
        match Frontmost(old(shapes), old(views), p)
        case None =>
          && selected == None && knobs == []
          && shapes == old(shapes) && models == old(models) && views == old(views) && dragFrom == old(dragFrom)
          && nextId == old(nextId)
        case Some(s) =>
          && selected == Some(s) && knobs == FreshKnobs(old(views)[s].geom)
          && shapes == MoveToEnd(old(shapes), s) && models == MoveToEnd(old(models), old(views)[s].model)
          && views == old(views) && dragFrom == None && nextId == old(nextId)
    {
      if selected.Some? {
        var onKnob := DetectKnobClick(p);
        if onKnob {
          return;
        }
      }
      var hit := FrontmostAt(p);
      if hit.None? {
        RemoveSelection();
      } else {
        UpdateSelection(hit.value);
      }
    }

    /**
     * Selects s: s becomes the selection and moves to the end of the shape
     * list, its model to the end of the model list, and its knobs are built
     * afresh. Any shape-body drag in progress is forgotten.
     */
    method UpdateSelection(s: ShapeId)
      requires Aligned() && s in shapes
      modifies this
      ensures Valid()
      ensures selected == Some(s) && dragFrom == None
      ensures shapes == MoveToEnd(old(shapes), s) && models == MoveToEnd(old(models), old(views)[s].model)
      ensures shapes[|shapes| - 1] == s && models[|models| - 1] == views[s].model
      ensures views == old(views) && nextId == old(nextId)
      ensures knobs == FreshKnobs(views[s].geom)
    {
      dragFrom := None;
      selected := Some(s);
      var m := views[s].model;
      ReorderKeepsParallel(shapes, models, views, s);
      shapes := MoveToEnd(shapes, s);
      models := MoveToEnd(models, m);
      var raised := MoveToFront();
      MoveToEndIdempotent(old(shapes), s);
      MoveToEndIdempotent(old(models), m);
    }

    /** Clears the selection and its knobs (nothing to do when nothing is selected). */
    method RemoveSelection()
      requires Valid()
      modifies this`selected, this`knobs
      ensures Valid()
      ensures selected == None && knobs == []
    {
      if selected.Some? {
        selected := None;
        RemoveKnobs();
      }
    }

    /**
     * Deletes the selected shape: it and its model leave both lists (which,
     * by ReorderCuts, cuts them at the same index and keeps the others in
     * order), and the selection and knobs are cleared. With nothing
     * selected, nothing changes.
     */
    method DeleteSelected()
      requires Valid()
      modifies this
      ensures Valid()
      ensures old(selected).None? ==> unchanged(this)
      ensures old(selected).Some? ==>
        && shapes == Remove(old(shapes), old(selected).value)
        && models == Remove(old(models), old(views)[old(selected).value].model)
        && selected == None && knobs == []
        && views == old(views) && dragFrom == old(dragFrom) && nextId == old(nextId)
    {
      if selected.Some? {
        var s := selected.value;
        RemoveKeepsParallel(shapes, models, views, s);
        shapes := Remove(shapes, s);
        models := Remove(models, views[s].model);
        RemoveKnobs();
        selected := None;
      }
    }

    /** Builds the knobs of the selected shape afresh, each with the anchor its drag holds fixed. */
    method AddKnobs()
      requires Aligned() && selected.Some? && selected.value in shapes
      modifies this`knobs
      ensures Valid()
      ensures knobs == FreshKnobs(views[selected.value].geom)
    {
      knobs := FreshKnobs(views[selected.value].geom);
    }

    method RemoveKnobs()
      modifies this`knobs
      ensures knobs == []
    {
      knobs := [];
    }

    /**
     * Raises the selected shape: it moves to the end of the shape list, its
     * model to the end of the model list, and the knobs are rebuilt. With
     * nothing selected the source dereferences null; here ok is false and
     * nothing changes.
     */
    method MoveToFront() returns (ok: bool)
      requires Aligned() && (selected.Some? ==> selected.value in shapes)
      modifies this
      ensures ok <==> old(selected).Some?
      ensures !ok ==> unchanged(this)
      ensures ok ==>
        && Valid() && selected == old(selected)
        && shapes == MoveToEnd(old(shapes), selected.value)
        && models == MoveToEnd(old(models), old(views)[selected.value].model)
        && knobs == FreshKnobs(views[selected.value].geom)
        && views == old(views) && dragFrom == old(dragFrom) && nextId == old(nextId)
    {
      if selected.None? {
        return false;
      }
      var s := selected.value;
      ReorderKeepsParallel(shapes, models, views, s);
      shapes := MoveToEnd(shapes, s);
      models := MoveToEnd(models, views[s].model);
      RemoveKnobs();
      AddKnobs();
      ok := true;
    }

    /**
     * Lowers the selected shape: it moves to index 0 of the shape list, its
     * model to index 0 of the model list, and the knobs are rebuilt. With
     * nothing selected the source dereferences null; here ok is false and
     * nothing changes.
     */
    method MoveToBack() returns (ok: bool)
      requires Valid()
      modifies this
      ensures Valid()
      ensures ok <==> old(selected).Some?
      ensures !ok ==> unchanged(this)
      ensures ok ==>
        && selected == old(selected)
        && shapes == MoveToStart(old(shapes), selected.value)
        && models == MoveToStart(old(models), old(views)[selected.value].model)
        && knobs == FreshKnobs(views[selected.value].geom)
        && views == old(views) && dragFrom == old(dragFrom) && nextId == old(nextId)
    {
      if selected.None? {
        return false;
      }
      var s := selected.value;
      ReorderKeepsParallel(shapes, models, views, s);
      shapes := MoveToStart(shapes, s);
      models := MoveToStart(models, views[s].model);
      RemoveKnobs();
      AddKnobs();
      ok := true;
    }

    /**
     * Empties both lists and the knobs and clears the selection. The source
     * clears the two lists and then dereferences the selection, which fails
     * when nothing is selected (ok is false); the knobs are then already
     * empty and the selection already absent, so the end state is the same.
     */
    method ClearCanvas() returns (ok: bool)
      requires Valid()
      modifies this
      ensures Valid()
      ensures ok <==> old(selected).Some?
      ensures shapes == [] && models == [] && knobs == [] && selected == None
      ensures views == old(views) && dragFrom == old(dragFrom) && nextId == old(nextId)
    {
      shapes := [];
      models := [];
      if selected.None? {
        return false;
      }
      RemoveKnobs();
      selected := None;
      ok := true;
    }

    /** A drag detected on a shape's body: the drag starts from p. */
    method BeginShapeDrag(p: Point)
      modifies this`dragFrom
      ensures dragFrom == Some(p)
    {
      dragFrom := Some(p);
    }

    /** The pointer released over a shape's body: no drag is in progress. */
    method EndShapeDrag()
      modifies this`dragFrom
      ensures dragFrom == None
    {
      dragFrom := None;
    }

    /**
     * One pointer move of a shape-body drag, to p, as the code does it: the
     * selected shape moves by the offset from the previous pointer position
     * and p becomes the previous position. The knob squares follow the shape
     * but each knob keeps the anchor it captured when the knobs were set up
     * (see StaleAnchorSnapsBack and StaleAnchorReplay for what that does to
     * the next knob drag). Without a drag in progress or a selection,
     * nothing changes.
     */
    method ShapeDragStepAsWritten(p: Point)
      requires Valid()
      modifies this
      ensures Valid()
      ensures old(dragFrom).None? || old(selected).None? ==> unchanged(this)
      ensures old(dragFrom).Some? && old(selected).Some? ==>
        && selected == old(selected) && shapes == old(shapes) && models == old(models) && nextId == old(nextId)
        && views == old(views)[selected.value := old(views)[selected.value].(
             geom := MoveBy(old(views)[selected.value].geom, p.x - old(dragFrom).value.x, p.y - old(dragFrom).value.y))]
        && knobs == Reposition(old(knobs), views[selected.value].geom)
        && dragFrom == Some(p)
    {
      if dragFrom.Some? && selected.Some? {
        var s, from := selected.value, dragFrom.value;
        var v := views[s];
        views := views[s := v.(geom := MoveBy(v.geom, p.x - from.x, p.y - from.y))];
        KnobCountStable(v.geom, views[s].geom);
        knobs := Reposition(knobs, views[s].geom);
        dragFrom := Some(p);
      }
    }

    /**
     * One pointer move of a shape-body drag with the knobs rebuilt, anchors
     * included, for the moved shape: the step as written, followed by
     * setting up the knobs afresh (see RefreshedAnchorsHold and
     * RefreshedAnchorReplay). Without a drag in progress or a selection,
     * nothing changes.
     */
    method ShapeDragStep(p: Point)
      requires Valid()
      modifies this
      ensures Valid()
      ensures old(dragFrom).None? || old(selected).None? ==> unchanged(this)
      ensures old(dragFrom).Some? && old(selected).Some? ==>
        && selected == old(selected) && shapes == old(shapes) && models == old(models) && nextId == old(nextId)
        && views == old(views)[selected.value := old(views)[selected.value].(
             geom := MoveBy(old(views)[selected.value].geom, p.x - old(dragFrom).value.x, p.y - old(dragFrom).value.y))]
        && knobs == FreshKnobs(views[selected.value].geom)
        && dragFrom == Some(p)
    {
      if dragFrom.Some? && selected.Some? {
        ShapeDragStepAsWritten(p);
        AddKnobs();
      }
    }

    /**
     * One pointer move of a drag on knob k, to p (in canvas coordinates):
     * when p lies strictly inside the positive quadrant, the selected shape
     * is reshaped from the anchor knob k captured and p; otherwise nothing
     * changes.
     */
    method KnobDragStep(k: nat, p: Point)
      requires Valid() && k < |knobs|
      modifies this
      ensures Valid()
      ensures old(selected).Some?
      ensures !(p.x > 0.0 && p.y > 0.0) ==> unchanged(this)
      ensures p.x > 0.0 && p.y > 0.0 ==>
        && selected == old(selected)
        && views == old(views)[selected.value := old(views)[selected.value].(
             geom := Resize(old(views)[selected.value].geom, old(knobs)[k].anchor, p))]
        && knobs == Reposition(old(knobs), views[selected.value].geom)
        && shapes == old(shapes) && models == old(models) && dragFrom == old(dragFrom) && nextId == old(nextId)
    {
      if p.x > 0.0 && p.y > 0.0 {
        DragKnob(knobs[k].anchor, p);
      }
    }

    /**
     * Reshapes the selected shape from a fixed anchor and the pointer: a
     * line runs from the anchor to the pointer, any other shape becomes the
     * box spanning them. The knob squares follow; each knob keeps its anchor.
     */
    method DragKnob(anchor: Point, pointer: Point)
      requires Valid() && selected.Some?
      modifies this
      ensures Valid()
      ensures selected == old(selected)
      ensures views == old(views)[selected.value := old(views)[selected.value].(
                geom := Resize(old(views)[selected.value].geom, anchor, pointer))]
      ensures knobs == Reposition(old(knobs), views[selected.value].geom)
      ensures shapes == old(shapes) && models == old(models) && dragFrom == old(dragFrom) && nextId == old(nextId)
    {
      var s := selected.value;
      var g := views[s].geom;
      if views[s].kind == DLine {
        MoveLine(anchor, pointer);
      } else {
        Move(anchor, pointer);
        SpanUnique(anchor, pointer, views[s].geom.rect);
      }
      KnobCountStable(g, views[s].geom);
      knobs := Reposition(knobs, views[s].geom);
    }

    /** Sets the selected line's endpoints. */
    method MoveLine(start: Point, end: Point)
      requires Aligned() && selected.Some? && selected.value in views && views[selected.value].kind == DLine
      modifies this`views
      ensures Aligned()
      ensures views == old(views)[selected.value := old(views)[selected.value].(geom := Segment(start, end))]
    {
      var s := selected.value;
      views := views[s := views[s].(geom := Segment(start, end))];
    }

    /**
     * Resizes the selected box shape to the box with the anchor and the
     * pointer on opposite corners: no negative width or height, whichever
     * side of the anchor the pointer is on.
     */
    method Move(anchor: Point, pointer: Point)
      requires Aligned() && selected.Some? && selected.value in views && views[selected.value].kind != DLine
      modifies this`views
      ensures Aligned()
      ensures selected.value in views && views[selected.value].geom.Box?
      ensures Spans(views[selected.value].geom.rect, anchor, pointer)
      ensures views == old(views)[selected.value := old(views)[selected.value].(geom := views[selected.value].geom)]
    {
      var s := selected.value;
      var x := if pointer.x < anchor.x then pointer.x else anchor.x;
      var y := if pointer.y < anchor.y then pointer.y else anchor.y;
      var width := Distance(anchor.x, pointer.x);
      var height := Distance(anchor.y, pointer.y);
      views := views[s := views[s].(geom := Box(Rect(x, y, width, height)))];
    }
  }
}
