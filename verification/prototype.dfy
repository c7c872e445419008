/** The single-file prototypes open3d_qt_v0.4.py and File/open3d_qt_v0.3.py:
    an earlier renderer whose loader falls through on an unknown suffix, an
    image widget without edit mode or click handling, and (v0.4 only) two
    checkable tool buttons that exclude each other. The two versions share
    the loader, the render gate, the zoom rule and the drag logic, which is
    what is modelled here. Their height ramps differ: the model gives the
    prototype v0.4's, which is the renderer module's. The background colour,
    placeholder text, palette, styled frame and window layout also differ
    and are not modelled. */
module Prototype {
  import opened Base
  import opened Geometry
  import opened Pointer
  import R = Renderer

  /** The prototype renderer keeps only the loaded flag and what the
      visualizer shows. */
  datatype ProtoRenderer = ProtoRenderer(geometryLoaded: bool, shown: Option<Geometry>)

  datatype ProtoLoaded = ProtoLoaded(renderer: ProtoRenderer, ok: bool, outputs: seq<R.Output>)

  /** The prototype's shared success tail: reset the view point and raise
      the flag. */
  function Finish(shown: Option<Geometry>): ProtoLoaded
  {
    ProtoLoaded(ProtoRenderer(true, shown), true, [R.ResetViewPoint])
  }

  /** `set_geometry` of the prototypes: the flag drops and the visualizer is
      cleared; a `.pcd` or `.obj`/`.ply` file goes through the same checks
      as in the renderer module (empty, refused by the visualizer, raised),
      but any other suffix skips both branches and reports success with
      nothing shown. Failure messages are printed, not signalled. */
  function SetGeometry(p: ProtoRenderer, path: string, lib: R.Library): (l: ProtoLoaded)
    ensures l.ok <==> l.renderer.geometryLoaded
    ensures R.KindOf(path) == R.OtherFile ==> l.ok && l.renderer.shown.None?
    ensures l.ok ==> l.outputs == [R.ResetViewPoint]
    ensures !l.ok ==> l.outputs == [] && l.renderer.shown.None?
  {
    var cleared := ProtoRenderer(false, None);
    match R.KindOf(path)
    case CloudFile =>
      (match lib.readPointCloud(path)
       case Raised(_) => ProtoLoaded(cleared, false, [])
       case Returned(pc) =>
         if |pc.points| == 0 then ProtoLoaded(cleared, false, [])
         else
           var g := Cloud(R.Colorize(pc, lib));
           if !lib.addGeometry(g) then ProtoLoaded(cleared, false, []) else Finish(Some(g)))
    case MeshFile =>
      (match lib.readTriangleMesh(path)
       case Raised(_) => ProtoLoaded(cleared, false, [])
       case Returned(mesh) =>
         if MeshIsEmpty(mesh) then ProtoLoaded(cleared, false, [])
         else
           var g := Mesh(R.Prepare(mesh, lib));
           if !lib.addGeometry(g) then ProtoLoaded(cleared, false, []) else Finish(Some(g)))
    case OtherFile => Finish(None)
  }

  /** On the suffixes both loaders know, the prototype and the renderer
      module agree: same success, same geometry shown. */
  lemma AgreesWithRenderer(p: ProtoRenderer, r: R.Renderer, path: string, lib: R.Library)
    requires R.KindOf(path) != R.OtherFile
    ensures SetGeometry(p, path, lib).ok == R.SetGeometry(r, path, lib).ok
    ensures SetGeometry(p, path, lib).ok ==> SetGeometry(p, path, lib).renderer.shown == R.SetGeometry(r, path, lib).renderer.currentModel
  {
  }

  /** On any other suffix they disagree: the prototype reports a load that
      the renderer module refuses as unsupported. */
  lemma UnknownSuffixDiverges(p: ProtoRenderer, r: R.Renderer, path: string, lib: R.Library)
    requires R.KindOf(path) == R.OtherFile
    ensures SetGeometry(p, path, lib).ok && SetGeometry(p, path, lib).renderer.geometryLoaded
    ensures !R.SetGeometry(r, path, lib).ok && R.SetGeometry(r, path, lib).outputs == [R.ModelLoaded(false, R.Unsupported)]
  {
  }

  /** An empty point cloud is refused and leaves the flag down. */
  lemma EmptyCloudRefused(p: ProtoRenderer, path: string, lib: R.Library)
    requires R.KindOf(path) == R.CloudFile && lib.readPointCloud(path).Returned?
    requires |lib.readPointCloud(path).value.points| == 0
    ensures !SetGeometry(p, path, lib).ok && !SetGeometry(p, path, lib).renderer.geometryLoaded
  {
  }

  /** `update_render` of the prototypes: a captured frame is published only
      while the flag is up. */
  function UpdateRender(p: ProtoRenderer, capture: Option<Frame>): (outputs: seq<R.Output>)
    ensures outputs == (if p.geometryLoaded && capture.Some? then [R.RenderReady(capture.value)] else [])
  {
    if p.geometryLoaded then
      match capture
      case Some(frame) => [R.RenderReady(frame)]
      case None => []
    else []
  }

  /** The render gate is the renderer module's. */
  lemma RenderGateAgrees(p: ProtoRenderer, r: R.Renderer, capture: Option<Frame>)
    requires p.geometryLoaded == r.geometryLoaded
    ensures UpdateRender(p, capture) == R.UpdateRender(r, capture)
  {
  }

  /** `zoom_view` of the prototypes follows the renderer module's rule: a
      wheel step scales by 0.9 when it goes forward and by 1.1 otherwise. */
  lemma ZoomRule(dy: int)
    ensures R.ZoomView(Wheel(dy).delta) == [R.Scale(if dy > 0 then 0.9 else 1.1)]
  {
  }

  /** The prototype image widget: only a drag position. */
  datatype ProtoWidget = ProtoWidget(lastPos: Option<Pos>)

  /** `mousePressEvent`: any button starts a drag. */
  function Press(w: ProtoWidget, pos: Pos): (r: ProtoWidget)
    ensures r.lastPos == Some(pos)
  {
    ProtoWidget(Some(pos))
  }

  /** `mouseMoveEvent`: once a drag has started the offset rotates (left
      held) or pans (right held) and the drag position follows. */
  function MoveTo(w: ProtoWidget, pos: Pos, held: Held): (res: (ProtoWidget, Effect))
    ensures w.lastPos.None? ==> res == (w, NoEffect)
    ensures w.lastPos.Some? ==> res.0.lastPos == Some(pos) && res.1 == Drag(w.lastPos.value, pos, held)
  {
    match w.lastPos
    case None => (w, NoEffect)
    case Some(last) => (ProtoWidget(Some(pos)), Drag(last, pos, held))
  }

  /** `mouseReleaseEvent`: the drag ends. */
  function Release(w: ProtoWidget): (r: ProtoWidget)
    ensures r.lastPos.None?
  {
    ProtoWidget(None)
  }

  /** `wheelEvent`: always zooms. */
  function Wheel(delta: int): (e: Effect)
    ensures e.ZoomBy? && e.delta == delta
  {
    ZoomBy(delta)
  }

  /** Unlike the later widget, a left drag rotates the view by the pointer's
      offset, and after release a move does nothing. */
  lemma LeftDragRotates(w: ProtoWidget, a: Pos, b: Pos, c: Pos)
    ensures MoveTo(Press(w, a), b, Held(true, false)).1 == RotateBy(b.x - a.x, b.y - a.y)
    ensures MoveTo(Release(MoveTo(Press(w, a), b, Held(true, false)).0), c, Held(true, false)) ==
            (ProtoWidget(None), NoEffect)
  {
  }

  /** The v0.4 tool buttons: each checkable. */
  datatype ToolButtons = ToolButtons(pen: bool, user: bool)

  /** Which button was clicked. */
  datatype Tool = Pen | User

  /** The status text: "笔工具 激活" or "笔工具 取消激活", and the same for
      "用户工具". */
  function StatusFor(t: Tool, checked: bool): string
  {
    (if t == Pen then "笔工具 " else "用户工具 ") + (if checked then "激活" else "取消激活")
  }

  /** A click on a tool button: Qt toggles the button first, then
      `on_pen_clicked` / `on_user_clicked` reads the new state and, when it
      is checked, unchecks the other button. Unchecking from code emits no
      further click. */
  function Click(b: ToolButtons, t: Tool): (res: (ToolButtons, string))
    ensures t == Pen ==> res.0.pen == !b.pen && res.0.user == (b.user && b.pen)
    ensures t == User ==> res.0.user == !b.user && res.0.pen == (b.pen && b.user)
    ensures res.1 == StatusFor(t, if t == Pen then res.0.pen else res.0.user)
    ensures !(res.0.pen && res.0.user)
  {
    match t
    case Pen =>
      var pen := !b.pen;
      (ToolButtons(pen, if pen && b.user then false else b.user), StatusFor(Pen, pen))
    case User =>
      var user := !b.user;
      (ToolButtons(if user && b.pen then false else b.pen, user), StatusFor(User, user))
  }

  /** A run of clicks. */
  function Clicks(b: ToolButtons, ts: seq<Tool>): ToolButtons
    decreases |ts|
  {
    if |ts| == 0 then b else Clicks(Click(b, ts[0]).0, ts[1..])
  }

  /** Mutual exclusion: after any non-empty run of clicks, and after any
      run at all from a state where they were not both checked, the two
      buttons are never both checked. */
  lemma {:induction false} NeverBothChecked(b: ToolButtons, ts: seq<Tool>)
    requires |ts| > 0 || !(b.pen && b.user)
    ensures !(Clicks(b, ts).pen && Clicks(b, ts).user)
    decreases |ts|
  {
    if |ts| > 0 {
      NeverBothChecked(Click(b, ts[0]).0, ts[1..]);
    }
  }
}
