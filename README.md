# Whiteboard canvas: selection, z-order and knobs

A model of the drawing canvas of the CS151 Whiteboard (`src/CS151/Canvas.java`).
The canvas keeps these pieces of state:

- a list of shape views in back-to-front order;
- a parallel list of their shape models;
- at most one selected shape;
- the knobs, the small 9-unit squares drawn around the selected shape.

Its operations are these:

- add a shape through the view factory;
- select by clicking, where the front-most shape under the pointer wins unless the click lands on a knob;
- raise or lower the selected shape in the z-order;
- recolour or delete the selected shape;
- clear the canvas;
- drag a shape by its body;
- resize a shape by dragging one of its knobs.

The project has four modules:

- `Plane` (`plane.dfy`): points and rectangles. It holds the knob-drag box computation (the box spanning a fixed anchor and the pointer) and the knob square centred on a control point.
- `Shapes` (`shapes.dfy`): shape models and views, and the view factory. It also holds the geometry a view draws, the knob layout for boxes and lines, and the drag and resize geometry.
- `Lists` (`lists.dfy`): removal of the first occurrence (what `ArrayList.remove(Object)` does) and moving an element to either end.
- `Drawing` (`drawing.dfy`): the `Canvas` class, whose fields the operations update in place. It holds the hit-test, and the parallel-lists and selection invariants that every operation keeps.

Views are identified by a counter (`nextId`) that hands out a fresh identity for every view the factory builds. Model identities are chosen by the caller. A view's class, paired model, geometry and colour are kept in the `views` map.

The invariant `Valid()` has three parts:

- The two lists have the same length, neither repeats an element, and the model at each index is the model of the view at that index.
- A selected shape is on the canvas, and the knob squares are the knob squares of its current geometry.
- With nothing selected, there are no knobs.

Coordinates are reals, so the box arithmetic is exact.

Where the model follows the code rather than the intended behaviour:

- The code dereferences the selection without a check in `moveToFront`, `moveToBack` and `clearCanvas`. With nothing selected, the model returns `ok == false` for these.
  - `moveToFront`/`moveToBack` fail before changing anything.
  - `clearCanvas` has already emptied both lists when it fails. Its knobs are already empty and its selection already absent, so the end state matches a successful clear.
- `addShape` with a model variant the factory does not know fails at once on the missing view. The model returns `ok == false` and nothing changes.
- Each knob remembers the anchor its drag handler captured when the knobs were last set up. Repositioning the squares after a knob drag keeps the anchors, as the code does. A line knob drag calls `moveTo(anchor, pointer)`, so dragging the knob on the start point reverses the line's direction.

## Model

| member | source | states |
|---|---|---|
| Drawing.Canvas.constructor | src/CS151/Canvas.java:34-52 | a new canvas has empty lists, no selection, no knobs and no drag in progress, and satisfies the canvas invariant |
| Drawing.Canvas.AddShape | src/CS151/Canvas.java:78-87 | for a known model variant, the new view (built by the factory for this model) is appended to the shape list and its model to the model list, and it becomes the selection with fresh knobs; for an unknown variant nothing changes and ok is false; the invariant is kept |
| Shapes.ViewFor | src/CS151/Canvas.java:96-111 | the factory yields a rectangle, oval, line or text view exactly for the matching model variant, and nothing exactly for any other variant |
| Shapes.NewView | src/CS151/Canvas.java:80-81 | the built view is bound to the given model, draws that model's geometry and colour, is of the factory's class, and is a line exactly when it draws a segment |
| Drawing.Canvas.UpdateColor | src/CS151/Canvas.java:127-131 | only the selected shape's colour changes; with nothing selected no view changes |
| Drawing.Canvas.DetectKnobClick | src/CS151/Canvas.java:163-170 | true exactly when some knob square contains the point |
| Drawing.Frontmost | src/CS151/Canvas.java:146-150 | the hit-test result, when present, is a listed shape whose bounds contain the point |
| Drawing.FrontmostIsLastHit | src/CS151/Canvas.java:146-150 | the hit-test finds nothing exactly when no shape is hit, and otherwise returns a hit shape with no hit shape after it in the list |
| Drawing.FrontmostPrefersFront | src/CS151/Canvas.java:146-150 | when the shape at index j is hit, the result sits at index j or later: the shape added or raised later wins an overlap |
| Drawing.Canvas.FrontmostAt | src/CS151/Canvas.java:146-150 | the loop that overwrites its candidate at every hit ends with exactly the hit-test result |
| Drawing.Canvas.MakeSelection | src/CS151/Canvas.java:139-156 | a click on a knob of a selected shape changes nothing; otherwise, with no shape under the point, the selection and knobs are cleared and nothing else changes; with one, the front-most such shape is selected, raised in both lists and given fresh knobs |
| Drawing.RaisedIsFrontmost | src/CS151/Canvas.java:139-156 | after a click raises the shape it hits, a second click at the same point picks the same shape |
| Drawing.Canvas.UpdateSelection | src/CS151/Canvas.java:177-188 | the shape becomes the selection, moves to the end of the shape list and its model to the end of the model list, views are untouched, the knobs are fresh and any body drag is forgotten; the invariant is re-established |
| Lists.MoveToEndIdempotent | src/CS151/Canvas.java:181-186 | the second raise that selection triggers through moveToFront changes nothing further |
| Drawing.Canvas.RemoveSelection | src/CS151/Canvas.java:214-220 | the selection and the knobs are cleared, keeping the invariant |
| Drawing.Canvas.DeleteSelected | src/CS151/Canvas.java:226-236 | with nothing selected nothing changes; otherwise the selected shape leaves the shape list and its model leaves the model list, the selection and knobs are cleared, views and drag state are untouched, and the invariant is kept |
| Drawing.ParallelRemove | src/CS151/Canvas.java:229-230 | cutting the shape at index i and its model out of the parallel lists removes index i from both, keeps them parallel and drops the shape and model entirely |
| Drawing.ReorderCuts | src/CS151/Canvas.java:229-230 | deleting, raising or lowering a listed shape cuts both lists at the same index, every other shape and model keeping its relative order |
| Drawing.ReorderKeepsParallel | src/CS151/Canvas.java:429-446 | moving a shape and its model to the end, or to index 0, of both lists keeps the lists parallel and repetition-free |
| Lists.Remove | src/CS151/Canvas.java:229-230 | removal leaves a list lacking the element unchanged and otherwise shortens it by one |
| Lists.RemoveAt | src/CS151/Canvas.java:229-230 | when the first occurrence is at index i, removal cuts out exactly index i |
| Lists.RemovePermutes | src/CS151/Canvas.java:229-230 | removal takes exactly one copy of the element out, and nothing else |
| Lists.RemoveDistinct | src/CS151/Canvas.java:229-230 | in a list without repetitions, removal cuts out the element's index and leaves a repetition-free list without it |
| Lists.MoveToEnd | src/CS151/Canvas.java:430-433 | the moved element is last |
| Lists.MoveToStart | src/CS151/Canvas.java:443-446 | the moved element is first |
| Lists.MovePermutes | src/CS151/Canvas.java:430-446 | moving a listed element to either end only permutes the list |
| Lists.DistinctAdd | src/CS151/Canvas.java:82-83 | appending or prepending an absent element keeps a list repetition-free |
| Lists.RemoveAppended | src/CS151/Canvas.java:82-83 | removing a just-appended element gives back the list before the append: deleting a shape just added restores both lists |
| Drawing.ParallelAppend | src/CS151/Canvas.java:82-83 | appending or prepending a new view and its new model keeps the lists parallel |
| Drawing.Canvas.AddKnobs | src/CS151/Canvas.java:251-271 | the knobs become the fresh knobs of the selected shape's current geometry, establishing the invariant |
| Shapes.FreshKnobs | src/CS151/Canvas.java:251-271 | fresh knobs sit on the knob squares of the geometry; box knobs are anchored at the diagonally opposite corner, line knobs at the endpoint they do not sit on |
| Shapes.KnobSquares | src/CS151/Canvas.java:273-287 | every knob is a 9 by 9 square; a box has four, centred on its top-left, top-right, bottom-left and bottom-right corners in that order; a line has two, the first centred on its end point and the second on its start point |
| Plane.Square | src/CS151/Canvas.java:281-287 | a knob square has side 9, is centred on its control point and contains it |
| Drawing.Canvas.RemoveKnobs | src/CS151/Canvas.java:423-427 | the knob list is empty afterwards |
| Drawing.Canvas.MoveToFront | src/CS151/Canvas.java:429-440 | with a selection, the selected shape moves to the end of the shape list and its model to the end of the model list, knobs are rebuilt and the invariant holds; with none, ok is false and nothing changes |
| Drawing.Canvas.MoveToBack | src/CS151/Canvas.java:442-452 | with a selection, the selected shape moves to index 0 of the shape list and its model to index 0 of the model list, knobs are rebuilt and the invariant is kept; with none, ok is false and nothing changes |
| Drawing.Canvas.ClearCanvas | src/CS151/Canvas.java:459-465 | both lists and the knobs end empty with nothing selected, views and drag state untouched; ok is false exactly when nothing was selected |
| Drawing.Canvas.BeginShapeDrag | src/CS151/Canvas.java:369-374 | a detected body drag starts from the pointer position |
| Drawing.Canvas.EndShapeDrag | src/CS151/Canvas.java:376-379 | releasing the body ends the drag |
| Drawing.Canvas.ShapeDragStepAsWritten | src/CS151/Canvas.java:191-209 | with a drag in progress and a selection, the selected shape moves by the pointer offset since the last step, the knob squares follow it while every knob keeps its old anchor, and the pointer becomes the last position; otherwise nothing changes; the invariant is kept |
| Drawing.Canvas.ShapeDragStep | src/CS151/Canvas.java:191-209 | the corrected body-drag step: the same move, with the knobs, anchors included, rebuilt for the new position; otherwise nothing changes; the invariant is kept |
| Shapes.MoveBy | src/CS151/Canvas.java:195-201 | a box keeps its size and its origin shifts by the offset; both endpoints of a segment shift by the offset |
| Shapes.MoveByCompose | src/CS151/Canvas.java:191-209 | successive drag steps add up to one step by the total offset |
| Drawing.Canvas.KnobDragStep | src/CS151/Canvas.java:317-325 | a pointer outside the positive quadrant changes nothing; inside it, the selected shape is reshaped from knob k's captured anchor to the pointer, with the knob squares following and anchors kept |
| Drawing.Canvas.DragKnob | src/CS151/Canvas.java:290-299 | a line runs from the anchor to the pointer, any other shape becomes the box spanning them; the knob squares follow the new geometry, each knob keeping its anchor; lists and selection are untouched |
| Shapes.Resize | src/CS151/Canvas.java:290-297 | a resized box has no negative extent and has the anchor and the pointer on opposite edges in each axis; a resized segment runs from the anchor to the pointer |
| Shapes.Reposition | src/CS151/Canvas.java:293-296 | after a drag each knob square is recomputed for the new geometry while each knob keeps its anchor |
| Drawing.Canvas.MoveLine | src/CS151/Canvas.java:302-305 | only the selected line's endpoints change, to the given start and end |
| Drawing.Canvas.Move | src/CS151/Canvas.java:307-314 | only the selected shape's geometry changes, to a box with no negative extent having anchor and pointer on opposite corners |
| Plane.Span | src/CS151/Canvas.java:307-314 | the box has no negative width or height, has anchor and pointer on opposite edges in each axis, and contains both |
| Plane.Lower | src/CS151/Canvas.java:308-309 | the conditional picks the smaller coordinate |
| Plane.Distance | src/CS151/Canvas.java:310-311 | the absolute difference is non-negative and is one of the two differences |
| Plane.SpanUnique | src/CS151/Canvas.java:307-314 | the spanned box is the only box with no negative extent having the two points on opposite edges |
| Plane.SpanOfOppositeCorners | src/CS151/Canvas.java:263-266 | for a box with no negative extent, each pair of opposite corners, in either order, spans the box again |
| Plane.SpanSymmetric | src/CS151/Canvas.java:307-314 | swapping anchor and pointer gives the same box |
| Shapes.BoxKnobRoundTrip | src/CS151/Canvas.java:262-266 | dragging any fresh knob of a box back onto its own centre rebuilds the box |
| Shapes.LineKnobDrag | src/CS151/Canvas.java:253-258 | dragging the first fresh line knob keeps the start and moves the end; dragging the second makes the old end the start and the pointer the end |
| Shapes.KnobCountStable | src/CS151/Canvas.java:293-296 | the number of knobs depends only on whether the shape is a box or a line, so the squares can be repositioned in place |
| Drawing.StaleAnchorSnapsBack | src/CS151/Canvas.java:191-209 | with the anchors kept across a body drag, dragging the top-left knob of a box moved right by less than its width onto its own centre narrows the box by the drag distance |
| Drawing.RefreshedAnchorsHold | src/CS151/Canvas.java:251-271 | with the anchors rebuilt after a body drag, dragging any knob of the moved box onto its own centre leaves the box as it is |
| Drawing.StaleAnchorReplay | src/CS151/Canvas.java:191-209 | on a canvas with a box selected and fresh knobs, a body drag step as written, right by less than the box's width, followed by a drag of the top-left knob onto its own centre, leaves the box narrowed by the drag distance and not where the body drag put it |
| Drawing.RefreshedAnchorReplay | src/CS151/Canvas.java:191-209 | the same sequence with the corrected body drag step leaves the box exactly where the body drag put it |

## Left out

- JavaFX scene-graph and rendering calls are not modelled: adding and removing nodes, the order of the pane's children, fills, cursors, style and size binding. The shape list's order stands for the drawing order.
- Registering event handlers is not modelled. The drag handlers become plain methods that take the pointer position: `BeginShapeDrag`, `ShapeDragStepAsWritten`/`ShapeDragStep`, `EndShapeDrag`, `KnobDragStep`, and `AddKnobs` on knob release.
- `knob.sceneToLocal` is not modelled. `KnobDragStep` receives the pointer already in canvas coordinates.
- `gui.updateTable()` notifications are not modelled. They change no canvas state.
- `paintComponent` and `draw` are not modelled, because they only render.
- `removeKnobs`'s loop is not modelled, because it only detaches knob nodes from the pane; the knob list ends empty.
- The getters `getShapeModels`, `getShapes` and `getSelected` are not modelled, because they only return fields.
- The listener protocol is not modelled: `removeListener` in `deleteSelected`, and the model-to-view listeners. `DShapeModel` and `DShape` are not part of this model.
- `DShape`/`DLine` bounds, `moveBy` and `moveTo` are not part of this model. The model assumes these:
  - a box shape's bounds are its box;
  - a line's bounds are the box spanning its endpoints;
  - `getTopLeft`..`getBottomRight` are the corners of the bounds;
  - `moveBy` shifts, and `moveTo` sets the box or the endpoints.
- `DOval` rendering and `DTextModel` are not modelled, because they are property glue with no canvas logic.
- The edge semantics of JavaFX `contains` are not modelled. Containment is taken as the closed rectangle, for shape bounds and knobs alike.
- Drawing.Canvas.AddShape: requires that the model is not already on the canvas. The source would list the model twice, and the parallel-lists invariant, which `remove(Object)` relies on, would no longer hold.
- Drawing.Canvas.AddKnobs: requires a selection. The source would dereference null, but it only sets up knobs for a selected shape.
- Drawing.Canvas.ShapeDragStep: rebuilds the knobs, anchors included, after each body drag step, where the code only moves the squares and keeps the anchors; this is the corrected behaviour of the finding below. The behaviour as written is `Drawing.Canvas.ShapeDragStepAsWritten`.
- Drawing.Canvas.KnobDragStep: requires the dragged knob to exist. A drag handler fires only on a knob that is on the pane.

## Findings

| source | as written | input that shows it | evidently intended | confidence | as-written member | corrected member |
|---|---|---|---|---|---|---|
| src/CS151/Canvas.java:191-209 | a body drag repositions the knob squares (`setupShapeKnobs`/`setupLineKnobs`) but leaves the knob drag handlers with the anchors captured by `addKnobs` before the drag (lines 263-266, 317-325) | select the box (0, 0, 10, 10), drag its body by (5, 5), then drag its top-left knob onto its own centre (5, 5): the box becomes (5, 5, 5, 5) instead of staying (5, 5, 10, 10) | the anchors follow the shape, as after `addKnobs`, so the opposite corner stays put during a knob drag | likely: it assumes that the press starting the knob drag reaches `makeSelection`, which short-circuits on a knob without rebuilding the knobs (139-144); where presses are wired to `makeSelection` is in the Whiteboard class, which is not part of this model; not executed | Drawing.Canvas.ShapeDragStepAsWritten | Drawing.Canvas.ShapeDragStep |
