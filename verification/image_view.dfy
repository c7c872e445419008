/** `ImageViewWidget` (gui/image_view_widget.py): shows rendered frames and
    turns mouse events into renderer requests, or, in edit mode, into a
    stroke of captured positions. The float-to-pixel mapping of a left
    press is left out; the mapped pixel arrives with the event. */
module ImageView {
  import opened Base
  import opened Pointer

  datatype Widget = Widget(
    image: Option<Frame>,
    lastPos: Option<Pos>,
    editMode: bool,
    editTool: Option<string>,
    editPoints: seq<Pos>)

  /** A mouse event. A press carries the image pixel its position maps to. */
  datatype Event =
    | Press(pos: Pos, button: Button, px: int, py: int)
    | Move(pos: Pos, held: Held)
    | Release
    | Wheel(delta: int)

  /** The state `__init__` leaves behind. */
  function Init(): (w: Widget)
    ensures !w.editMode && w.lastPos.None? && w.image.None? && w.editPoints == []
  {
    Widget(None, None, false, None, [])
  }

  /** `set_image`: the frame `render_ready` delivered. */
  function SetImage(w: Widget, frame: Frame): (r: Widget)
    ensures r.image == Some(frame)
    ensures r.(image := w.image) == w
  {
    w.(image := Some(frame))
  }

  /** `set_edit_mode`: the mode and tool are replaced and any stroke in
      progress is discarded. */
  function SetEditMode(w: Widget, enabled: bool, tool: Option<string>): (r: Widget)
    ensures r.editMode == enabled && r.editTool == tool && r.editPoints == []
    ensures r.image == w.image && r.lastPos == w.lastPos
  {
    w.(editMode := enabled, editTool := tool, editPoints := [])
  }

  /** `finalize_edit`: an empty stroke is left alone; otherwise the stroke
      is consumed (the edit itself is not implemented) and cleared. */
  function FinalizeEdit(w: Widget): (r: Widget)
    ensures r.editPoints == []
    ensures w.editPoints == [] ==> r == w
    ensures r.(editPoints := w.editPoints) == w
  {
    if w.editPoints == [] then w else w.(editPoints := [])
  }

  /** The left-press guard: an image is shown and the mapped pixel lies
      inside it. */
  predicate InImage(w: Widget, px: int, py: int)
  {
    w.image.Some? && 0 <= px < w.image.value.width && 0 <= py < w.image.value.height
  }

  /** `mousePressEvent`. In edit mode the position joins the stroke. In
      navigation mode a left press clicks the mapped pixel when it is inside
      the image (and does not start a drag); any other button starts a drag. */
  function MousePress(w: Widget, pos: Pos, button: Button, px: int, py: int): (res: (Widget, Effect))
    ensures w.editMode ==> res == (w.(editPoints := w.editPoints + [pos]), NoEffect)
    ensures !w.editMode && button == LeftButton ==> res.0 == w
    ensures !w.editMode && button == LeftButton ==>
              (res.1.ClickAt? <==> InImage(w, px, py)) && (res.1.ClickAt? ==> res.1 == ClickAt(px, py))
    ensures !w.editMode && button == LeftButton && !InImage(w, px, py) ==> res.1 == NoEffect
    ensures !w.editMode && button != LeftButton ==> res == (w.(lastPos := Some(pos)), NoEffect)
  {
    if w.editMode then (w.(editPoints := w.editPoints + [pos]), NoEffect)
    else if button == LeftButton then
      if w.image.Some? && 0 <= px < w.image.value.width && 0 <= py < w.image.value.height
      then (w, ClickAt(px, py)) else (w, NoEffect)
    else (w.(lastPos := Some(pos)), NoEffect)
  }

  /** `mouseMoveEvent`. A left-held move in edit mode extends the stroke;
      otherwise, once a drag has started, the offset rotates or pans and
      the drag position follows the pointer. */
  function MouseMove(w: Widget, pos: Pos, held: Held): (res: (Widget, Effect))
    ensures w.editMode && held.left ==> res == (w.(editPoints := w.editPoints + [pos]), NoEffect)
    ensures !(w.editMode && held.left) && w.lastPos.None? ==> res == (w, NoEffect)
    ensures !(w.editMode && held.left) && w.lastPos.Some? ==>
              res == (w.(lastPos := Some(pos)), Drag(w.lastPos.value, pos, held))
  {
    if w.editMode && held.left then (w.(editPoints := w.editPoints + [pos]), NoEffect)
    else if w.lastPos.Some? then (w.(lastPos := Some(pos)), Drag(w.lastPos.value, pos, held))
    else (w, NoEffect)
  }

  /** `mouseReleaseEvent`: finishes the stroke in edit mode, ends the drag
      otherwise. */
  function MouseRelease(w: Widget): (r: Widget)
    ensures w.editMode ==> r == FinalizeEdit(w) && r.editPoints == []
    ensures !w.editMode ==> r == w.(lastPos := None)
  {
    if w.editMode then FinalizeEdit(w) else w.(lastPos := None)
  }

  /** `wheelEvent`: zooms only outside edit mode. */
  function WheelEvent(w: Widget, delta: int): (e: Effect)
    ensures e == (if w.editMode then NoEffect else ZoomBy(delta))
  {
    if !w.editMode then ZoomBy(delta) else NoEffect
  }

  /** Dispatch of one mouse event. No mouse event changes the mode, the
      tool or the image. */
  function Handle(w: Widget, e: Event): (res: (Widget, Effect))
    ensures res.0.editMode == w.editMode && res.0.editTool == w.editTool && res.0.image == w.image
  {
    match e
    case Press(pos, button, px, py) => MousePress(w, pos, button, px, py)
    case Move(pos, held) => MouseMove(w, pos, held)
    case Release => (MouseRelease(w), NoEffect)
    case Wheel(delta) => (w, WheelEvent(w, delta))
  }

  /** A run of events, oldest first, with the effects they produce. */
  function Run(w: Widget, es: seq<Event>): (res: (Widget, seq<Effect>))
    ensures |res.1| == |es|
    ensures res.0.editMode == w.editMode
    decreases |es|
  {
    if |es| == 0 then (w, [])
    else
      var first := Handle(w, es[0]);
      var rest := Run(first.0, es[1..]);
      (rest.0, [first.1] + rest.1)
  }

  /** No event of the run is a press with a button other than the left. */
  predicate OnlyLeftPresses(es: seq<Event>)
  {
    forall i :: 0 <= i < |es| ==> (es[i].Press? ==> es[i].button == LeftButton)
  }

  /** In navigation mode a drag is started only by a non-left press: from a
      widget with no drag in progress, a run whose presses are all left
      presses never rotates or pans, whatever buttons are held while moving. */
  lemma {:induction false} LeftDragNeverRotates(w: Widget, es: seq<Event>)
    requires !w.editMode && w.lastPos.None?
    requires OnlyLeftPresses(es)
    ensures forall i :: 0 <= i < |es| ==> !Run(w, es).1[i].RotateBy? && !Run(w, es).1[i].PanBy?
    decreases |es|
  {
    if |es| > 0 {
      var first := Handle(w, es[0]);
      assert first.0.lastPos.None?;
      assert !first.1.RotateBy? && !first.1.PanBy?;
      assert OnlyLeftPresses(es[1..]) by {
        forall i | 0 <= i < |es[1..]|
          ensures es[1..][i].Press? ==> es[1..][i].button == LeftButton
        {
          assert es[1..][i] == es[i + 1];
        }
      }
      LeftDragNeverRotates(first.0, es[1..]);
    }
  }

  /** In edit mode a stroke is captured point by point: a press and any
      number of left-held moves append exactly their positions, in order,
      and never ask anything of the renderer. */
  lemma {:induction false} StrokeCapture(w: Widget, ps: seq<Pos>)
    requires w.editMode
    ensures var es := seq(|ps|, i requires 0 <= i < |ps| => Move(ps[i], Held(true, false)));
            && Run(w, es).0 == w.(editPoints := w.editPoints + ps)
            && forall i :: 0 <= i < |es| ==> Run(w, es).1[i] == NoEffect
    decreases |ps|
  {
    var es := seq(|ps|, i requires 0 <= i < |ps| => Move(ps[i], Held(true, false)));
    if |ps| > 0 {
      var w1 := w.(editPoints := w.editPoints + [ps[0]]);
      assert Handle(w, es[0]) == (w1, NoEffect);
      var rest := seq(|ps[1..]|, i requires 0 <= i < |ps[1..]| => Move(ps[1..][i], Held(true, false)));
      assert es[1..] == rest;
      StrokeCapture(w1, ps[1..]);
      assert w.editPoints + [ps[0]] + ps[1..] == w.editPoints + ps;
    }
  }

  /** Releasing in edit mode always leaves an empty stroke; in navigation
      mode it ends the drag and keeps the stroke. */
  lemma ReleaseEndsStroke(w: Widget)
    ensures Handle(w, Release).1 == NoEffect
    ensures w.editMode ==> Handle(w, Release).0.editPoints == []
    ensures !w.editMode ==> Handle(w, Release).0.lastPos.None? && Handle(w, Release).0.editPoints == w.editPoints
  {
  }
}
