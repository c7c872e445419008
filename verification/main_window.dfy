/** `MainWindow` (gui/main_window.py), its orchestration only: undo and redo
    behind their guards, the view reset by reloading, the toolbar's mode
    switching, and the confirm button's density-then-alignment sequence.
    The status bar is the last message shown; warning dialogs are
    collected in order. */
module MainWindow {
  import opened Base
  import R = Renderer
  import MM = ModelManager
  import H = EditHistory
  import V = Viewport
  import Geometry

  datatype Window = Window(viewport: V.Viewport, status: string, warnings: seq<string>)

  predicate Valid(w: Window)
  {
    V.Linked(w.viewport)
  }

  /** The window as it opens: status "就绪" and no dialogs. */
  function Init(): (w: Window)
    ensures Valid(w) && w.warnings == []
  {
    Window(V.Init(), "就绪", [])
  }

  /** The error messages among a manager's signals, in order. */
  function Errors(events: seq<MM.Event>): (msgs: seq<string>)
    ensures |msgs| <= |events|
    ensures forall i :: 0 <= i < |events| && events[i].OperationError? ==> events[i].message in msgs
    ensures (forall i :: 0 <= i < |events| ==> !events[i].OperationError?) ==> msgs == []
    ensures |events| == 1 ==> msgs == (if events[0].OperationError? then [events[0].message] else [])
  {
    if |events| == 0 then []
    else (if events[0].OperationError? then [events[0].message] else []) + Errors(events[1..])
  }

  /** Errors are collected signal by signal: those of a longer run are the
      earlier signals' errors followed by the later ones', so the order of
      the warnings is the order of the signals. */
  lemma {:induction false} ErrorsAppend(a: seq<MM.Event>, b: seq<MM.Event>)
    ensures Errors(a + b) == Errors(a) + Errors(b)
    decreases |a|
  {
    if |a| == 0 {
      assert a + b == b;
    } else {
      var head := if a[0].OperationError? then [a[0].message] else [];
      assert (a + b)[0] == a[0];
      assert (a + b)[1..] == a[1..] + b;
      assert Errors(a + b) == head + Errors(a[1..] + b);
      ErrorsAppend(a[1..], b);
      assert head + (Errors(a[1..]) + Errors(b)) == (head + Errors(a[1..])) + Errors(b);
    }
  }

  /** The window's slot for one manager signal: `edit_applied` shows its
      message, `operation_error` opens a warning and shows "错误: " +
      message, `model_updated` changes nothing here. The properties panel
      also refreshes on `model_updated`, but its labels are not part of
      `Window`. */
  function Slot(w: Window, e: MM.Event): (r: Window)
    ensures r.viewport == w.viewport
    ensures r.warnings == w.warnings + (if e.OperationError? then [e.message] else [])
    ensures e.EditApplied? ==> r.status == e.message
  {
    match e
    case ModelUpdated => w
    case EditApplied(msg) => w.(status := msg)
    case OperationError(msg) => w.(status := "错误: " + msg, warnings := w.warnings + [msg])
  }

  /** The signals of one operation reaching their slots in order. */
  function Notify(w: Window, events: seq<MM.Event>): (r: Window)
    ensures r.viewport == w.viewport
    ensures r.warnings == w.warnings + Errors(events)
    decreases |events|
  {
    if |events| == 0 then w
    else
      var head := if events[0].OperationError? then [events[0].message] else [];
      var r := Notify(Slot(w, events[0]), events[1..]);
      assert w.warnings + head + Errors(events[1..]) == w.warnings + (head + Errors(events[1..]));
      r
  }

  /** `undo`: the manager undoes only when it can; the status reports which. */
  function Undo(w: Window): (r: Window)
    requires Valid(w)
    ensures Valid(r) && r.warnings == w.warnings
    ensures H.CanUndo(w.viewport.manager.history) ==>
              r.viewport.manager == MM.Undo(w.viewport.manager).manager && r.status == "已撤销"
    ensures !H.CanUndo(w.viewport.manager.history) ==> r == w.(status := "无法撤销")
    ensures r.viewport.manager.history.entries == w.viewport.manager.history.entries
  {
    var m := w.viewport.manager;
    if H.CanUndo(m.history) then
      var o := MM.Undo(m);
      Notify(w.(viewport := V.Share(w.viewport, o.manager)), o.events).(status := "已撤销")
    else w.(status := "无法撤销")
  }

  /** `redo`: symmetric to `undo`. */
  function Redo(w: Window): (r: Window)
    requires Valid(w)
    ensures Valid(r) && r.warnings == w.warnings
    ensures H.CanRedo(w.viewport.manager.history) ==>
              r.viewport.manager == MM.Redo(w.viewport.manager).manager && r.status == "已重做"
    ensures !H.CanRedo(w.viewport.manager.history) ==> r == w.(status := "无法重做")
    ensures r.viewport.manager.history.entries == w.viewport.manager.history.entries
  {
    var m := w.viewport.manager;
    if H.CanRedo(m.history) then
      var o := MM.Redo(m);
      Notify(w.(viewport := V.Share(w.viewport, o.manager)), o.events).(status := "已重做")
    else w.(status := "无法重做")
  }

  /** Undo then redo through the window restores the history and the
      model's positions, and the renderer shows the same model. */
  lemma UndoThenRedo(w: Window)
    requires Valid(w) && H.CanUndo(w.viewport.manager.history)
    ensures Redo(Undo(w)).viewport.manager.history == w.viewport.manager.history
    ensures MM.Positions(Redo(Undo(w)).viewport.manager.model.value) == MM.Positions(w.viewport.manager.model.value)
    ensures Redo(Undo(w)).viewport.renderer.currentModel == Redo(Undo(w)).viewport.manager.model
  {
    MM.UndoThenRedo(w.viewport.manager);
  }

  /** `reset_view`: with a (non-empty) current path the file is reloaded
      through the viewport, whatever the outcome, and the status says the
      view was reset; without one nothing happens. */
  function ResetView(w: Window, lib: R.Library): (r: Window)
    requires Valid(w)
    ensures Valid(r) && r.warnings == w.warnings
    ensures (w.viewport.renderer.currentModelPath.None? || w.viewport.renderer.currentModelPath == Some("")) ==> r == w
    ensures w.viewport.renderer.currentModelPath.Some? && w.viewport.renderer.currentModelPath != Some("") ==>
              && r.viewport == V.LoadModel(w.viewport, w.viewport.renderer.currentModelPath.value, lib).viewport
              && r.status == "视图已重置"
  {
    match w.viewport.renderer.currentModelPath
    case None => w
    case Some(path) =>
      if path == "" then w
      else w.(viewport := V.LoadModel(w.viewport, path, lib).viewport, status := "视图已重置")
  }

  /** Resetting the view reloads the file, so a successful reset discards
      every edit and the whole undo history; a failed one keeps them. */
  lemma ResetViewDiscardsHistory(w: Window, lib: R.Library)
    requires Valid(w)
    requires w.viewport.renderer.currentModelPath.Some? && w.viewport.renderer.currentModelPath != Some("")
    ensures var path := w.viewport.renderer.currentModelPath.value;
            var m := ResetView(w, lib).viewport.manager;
            if V.LoadModel(w.viewport, path, lib).ok then
              |m.history.entries| == 1 && !H.CanUndo(m.history) && !H.CanRedo(m.history)
            else m == w.viewport.manager
  {
  }

  /** "激活" or "取消激活". */
  function StateText(checked: bool): string
  {
    if checked then "激活" else "取消激活"
  }

  /** `handle_toolbar_action(action_id, data)`: `checked` is
      `data.get("checked", False)`. Navigation leaves edit mode whatever the
      flag; the three tools set edit mode to the flag with their own id;
      any other action does nothing. */
  function HandleToolbarAction(w: Window, actionId: string, checked: Option<bool>): (r: Window)
    ensures r.viewport.manager == w.viewport.manager && r.viewport.renderer == w.viewport.renderer
    ensures r.warnings == w.warnings
    ensures actionId == "nav" ==>
              !r.viewport.view.editMode && r.viewport.view.editTool.None? && r.status == "导航模式"
    ensures actionId in {"pen", "user", "edit3d"} ==>
              && r.viewport.view.editMode == checked.GetOr(false)
              && r.viewport.view.editTool == Some(actionId)
              && r.viewport.view.editPoints == []
    ensures actionId !in {"nav", "pen", "user", "edit3d"} ==> r == w
  {
    var isChecked := checked.GetOr(false);
    if actionId == "nav" then
      w.(viewport := V.SetEditMode(w.viewport, false, None), status := "导航模式")
    else if actionId == "pen" then
      w.(viewport := V.SetEditMode(w.viewport, isChecked, Some("pen")), status := "绘制工具 " + StateText(isChecked))
    else if actionId == "user" then
      w.(viewport := V.SetEditMode(w.viewport, isChecked, Some("user")), status := "用户工具 " + StateText(isChecked))
    else if actionId == "edit3d" then
      w.(viewport := V.SetEditMode(w.viewport, isChecked, Some("edit3d")), status := "3D编辑工具 " + StateText(isChecked))
    else w
  }

  /** One manager operation as the window sees it: the shared model is
      updated and the signals reach their slots. */
  function Apply(w: Window, o: MM.Outcome): (r: Window)
    requires Valid(w) && MM.Valid(o.manager)
    requires w.viewport.manager.model.Some? ==> o.manager.model.Some?
    ensures Valid(r) && r.viewport.manager == o.manager
    ensures r.warnings == w.warnings + Errors(o.events)
  {
    Notify(w.(viewport := V.Share(w.viewport, o.manager)), o.events)
  }

  /** `handle_confirm`: density first, then alignment, each whatever the
      other did, then the status "已应用设置". */
  function HandleConfirm(w: Window, density: string, alignment: string,
                         downsample: (Geometry.PointCloud, real) -> Attempt<Geometry.PointCloud>): (r: Window)
    requires Valid(w)
    ensures Valid(r) && r.status == "已应用设置"
    ensures var o1 := MM.ApplyDensity(w.viewport.manager, density, downsample);
            var o2 := MM.ApplyAestheticAlignment(o1.manager, alignment);
            && r.viewport.manager == o2.manager
            && r.warnings == w.warnings + Errors(o1.events) + Errors(o2.events)
  {
    var o1 := MM.ApplyDensity(w.viewport.manager, density, downsample);
    var w1 := Apply(w, o1);
    var o2 := MM.ApplyAestheticAlignment(w1.viewport.manager, alignment);
    Apply(w1, o2).(status := "已应用设置")
  }

  /** On a point cloud whose downsampling succeeds, confirming pushes two
      entries, the density step and then, on top of it, the alignment step,
      and warns of nothing. With room left in the history nothing older is
      evicted either. */
  lemma ConfirmOnCloud(w: Window, density: string, alignment: string,
                       downsample: (Geometry.PointCloud, real) -> Attempt<Geometry.PointCloud>)
    requires Valid(w) && w.viewport.manager.modelType == Some(MM.TypePcd)
    requires downsample(w.viewport.manager.model.value.cloud, MM.VoxelSize(density)).Returned?
    ensures MM.StackedPushes(w.viewport.manager.history,
                             MM.ApplyDensity(w.viewport.manager, density, downsample).manager.history,
                             HandleConfirm(w, density, alignment, downsample).viewport.manager.history,
                             density, alignment)
    ensures HandleConfirm(w, density, alignment, downsample).warnings == w.warnings
  {
    var o1 := MM.ApplyDensity(w.viewport.manager, density, downsample);
    var o2 := MM.ApplyAestheticAlignment(o1.manager, alignment);
    MM.DensityThenAlignment(w.viewport.manager, density, alignment, downsample);
    assert Errors(o1.events) == [] && Errors(o2.events) == [];
  }

  /** On a mesh the density step is refused with a warning, but the
      alignment step still pushes its entry. */
  lemma ConfirmOnMesh(w: Window, density: string, alignment: string,
                      downsample: (Geometry.PointCloud, real) -> Attempt<Geometry.PointCloud>)
    requires Valid(w) && w.viewport.manager.modelType == Some(MM.TypeMesh)
    ensures HandleConfirm(w, density, alignment, downsample).warnings == w.warnings + [MM.CloudOnlyMessage]
    ensures var h := HandleConfirm(w, density, alignment, downsample).viewport.manager.history;
            && h.index == |h.entries| - 1
            && h.entries[h.index].description == "应用美学对齐: " + alignment
            && h == H.Push(w.viewport.manager.history, h.entries[h.index])
  {
    var m := w.viewport.manager;
    var o1 := MM.ApplyDensity(m, density, downsample);
    assert o1 == MM.Outcome(m, false, [MM.OperationError(MM.CloudOnlyMessage)]);
    assert Errors(o1.events) == [MM.CloudOnlyMessage];
    var o2 := MM.ApplyAestheticAlignment(m, alignment);
    assert o2.events == [MM.ModelUpdated, MM.EditApplied("已应用美学对齐: " + alignment)];
    assert Errors(o2.events) == [];
  }

  /** Without a model both steps are refused, with two warnings, and the
      history is untouched. */
  lemma ConfirmWithoutModel(w: Window, density: string, alignment: string,
                            downsample: (Geometry.PointCloud, real) -> Attempt<Geometry.PointCloud>)
    requires Valid(w) && w.viewport.manager.model.None?
    ensures HandleConfirm(w, density, alignment, downsample).warnings ==
            w.warnings + [MM.CloudOnlyMessage, MM.NoModelMessage]
    ensures HandleConfirm(w, density, alignment, downsample).viewport.manager == w.viewport.manager
  {
    var m := w.viewport.manager;
    assert Errors([MM.OperationError(MM.CloudOnlyMessage)]) == [MM.CloudOnlyMessage];
    assert Errors([MM.OperationError(MM.NoModelMessage)]) == [MM.NoModelMessage];
  }
}
