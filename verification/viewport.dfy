/** `Viewport3D` (gui/viewport.py): owns the renderer and the image widget
    and shares the model manager with the main window. The renderer and the
    manager hold the same geometry object; the model states this as the
    invariant `Linked`. Holding the object is not showing it: nothing
    refreshes the visualizer after a manager edit. */
module Viewport {
  import opened Base
  import opened Geometry
  import opened Pointer
  import R = Renderer
  import IV = ImageView
  import MM = ModelManager
  import H = EditHistory

  datatype Viewport = Viewport(renderer: R.Renderer, view: IV.Widget, manager: MM.Manager)

  /** The manager is in its invariant and the renderer's current model is
      the manager's model. The renderer's click overlay is not part of it:
      as written, a reload keeps stale clicks (`Renderer.ReloadLosesOverlay`). */
  predicate Linked(v: Viewport)
  {
    && MM.Valid(v.manager)
    && v.renderer.currentModel == v.manager.model
  }

  /** The state after construction. */
  function Init(): (v: Viewport)
    ensures Linked(v)
  {
    Viewport(R.Init(), IV.Init(), MM.Init())
  }

  /** The type tag `load_model` derives from the path: 'pcd' exactly for a
      `.pcd` suffix, 'mesh' for everything else that loaded. */
  function TypeFor(path: string): (t: MM.ModelType)
    ensures t == MM.TypePcd <==> EndsWith(path, ".pcd")
  {
    if EndsWith(path, ".pcd") then MM.TypePcd else MM.TypeMesh
  }

  datatype Loaded = Loaded(viewport: Viewport, ok: bool, outputs: seq<R.Output>)

  /** `load_model`: the renderer loads the file with `set_geometry` as
      written; only on success does the manager adopt the renderer's model
      with the tag the suffix implies, and the renderer's result is returned
      unchanged. Clicks made before the load are kept by the renderer. */
  function LoadModel(v: Viewport, path: string, lib: R.Library): (l: Loaded)
    requires Linked(v)
    ensures Linked(l.viewport)
    ensures l.ok == R.SetGeometry(v.renderer, path, lib).ok
    ensures l.viewport.renderer == R.SetGeometry(v.renderer, path, lib).renderer
    ensures l.viewport.renderer.clickPoints == v.renderer.clickPoints
    ensures l.viewport.view == v.view
    ensures !l.ok ==> l.viewport.manager == v.manager
    ensures l.ok ==>
              && l.viewport.manager.modelType == Some(TypeFor(path))
              && l.viewport.manager.model == l.viewport.renderer.currentModel
              && |l.viewport.manager.history.entries| == 1
              && l.viewport.manager.history.entries[0].description == MM.LoadDescription
  {
    var r := R.SetGeometry(v.renderer, path, lib);
    if r.ok then
      Loaded(Viewport(r.renderer, v.view, MM.SetModel(v.manager, r.renderer.currentModel.value, TypeFor(path))),
             true, r.outputs)
    else Loaded(v.(renderer := r.renderer), false, r.outputs)
  }

  /** `set_edit_mode`, forwarded to the widget. */
  function SetEditMode(v: Viewport, enabled: bool, tool: Option<string>): (r: Viewport)
    ensures r.view == IV.SetEditMode(v.view, enabled, tool)
    ensures r.renderer == v.renderer && r.manager == v.manager
  {
    v.(view := IV.SetEditMode(v.view, enabled, tool))
  }

  /** A mouse event on the widget and the renderer call it makes. The depth
      buffer and the unprojection are what the renderer would capture at
      that moment; an `IndexError` from `handle_click` escapes the event
      handler before anything changes. */
  function Interact(v: Viewport, e: IV.Event, depth: Option<seq<seq<real>>>,
                    unproject: (nat, nat, real) -> Vec3): (res: (Viewport, seq<R.Output>))
    requires Linked(v)
    ensures Linked(res.0)
    ensures res.0.manager == v.manager && res.0.view == IV.Handle(v.view, e).0
    ensures res.0.renderer.currentModel == v.renderer.currentModel
    ensures IV.Handle(v.view, e).1.ZoomBy? ==> res.1 == R.ZoomView(IV.Handle(v.view, e).1.delta)
    ensures IV.Handle(v.view, e).1 == NoEffect ==> res == (v.(view := IV.Handle(v.view, e).0), [])
  {
    var (w, effect) := IV.Handle(v.view, e);
    var v1 := v.(view := w);
    match effect
    case NoEffect => (v1, [])
    case ClickAt(x, y) =>
      (match R.HandleClick(v.renderer, x, y, depth, unproject)
       case Raised(_) => (v1, [])
       case Returned(step) => (v1.(renderer := step.0.renderer), step.0.outputs))
    case RotateBy(dx, dy) => (v1, [R.Rotate(dx, dy)])
    case PanBy(dx, dy) => (v1, [R.Translate(dx, dy)])
    case ZoomBy(delta) => (v1, R.ZoomView(delta))
  }

  /** One timer tick: `update_render`, with `render_ready` delivered to the
      widget's `set_image`. */
  function Tick(v: Viewport, capture: Option<Frame>): (res: (Viewport, seq<R.Output>))
    ensures res.1 == R.UpdateRender(v.renderer, capture)
    ensures v.renderer.geometryLoaded && capture.Some? ==> res.0.view.image == capture
    ensures !(v.renderer.geometryLoaded && capture.Some?) ==> res.0 == v
    ensures res.0.renderer == v.renderer && res.0.manager == v.manager
  {
    var outputs := R.UpdateRender(v.renderer, capture);
    if |outputs| == 1 then (v.(view := IV.SetImage(v.view, outputs[0].frame)), outputs) else (v, outputs)
  }

  /** The manager's state after one of its operations: the renderer's
      current model is the manager's object, so it holds the edited model
      too. The visualizer's own copy is not refreshed. */
  function Share(v: Viewport, m: MM.Manager): (r: Viewport)
    requires Linked(v) && MM.Valid(m)
    requires v.manager.model.Some? ==> m.model.Some?
    ensures Linked(r)
    ensures r.manager == m && r.view == v.view
    ensures r.renderer.geometryLoaded == v.renderer.geometryLoaded
  {
    v.(manager := m, renderer := v.renderer.(currentModel := m.model))
  }

  /** A failed reload of the current file blanks the view while the
      manager keeps the model and its history. */
  lemma FailedLoadStopsRendering(v: Viewport, path: string, lib: R.Library, capture: Option<Frame>)
    requires Linked(v)
    requires !LoadModel(v, path, lib).ok
    ensures Tick(LoadModel(v, path, lib).viewport, capture).1 == []
    ensures LoadModel(v, path, lib).viewport.manager == v.manager
  {
  }

  /** After a successful load, the next tick with a frame shows it, and the
      manager can neither undo nor redo. */
  lemma LoadThenTick(v: Viewport, path: string, lib: R.Library, frame: Frame)
    requires Linked(v)
    requires LoadModel(v, path, lib).ok
    ensures var l := LoadModel(v, path, lib).viewport;
            && Tick(l, Some(frame)).0.view.image == Some(frame)
            && Tick(l, Some(frame)).1 == [R.RenderReady(frame)]
            && !H.CanUndo(l.manager.history) && !H.CanRedo(l.manager.history)
  {
  }
}
