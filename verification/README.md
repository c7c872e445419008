# Hair Ezclick — a Dafny model of its editing core

Hair Ezclick is a desktop viewer and editor for 3D hair models: point clouds
(`.pcd`) and triangle meshes (`.obj`, `.ply`). An Open3D visualizer renders
them off screen, and a Qt window shows the frames. This project models the
logic around those library calls as pure functions over immutable data:

- **EditHistory** (`edit_history.dfy`): the bounded undo/redo engine of
  `ModelManager`. It is a sequence of at most 20 opaque snapshots plus an
  index. A push prunes the redo branch, appends, and evicts the oldest entry
  on overflow. Undo and redo move the index.
- **ModelManager** (`model_manager.dfy`): the current model, its type tag
  (`pcd`/`mesh`) and the history of geometry snapshots. It covers
  `set_model`, `add_to_history`, `undo`/`redo` with `_restore_state`,
  `apply_density`, `apply_aesthetic_alignment`, `apply_edit` and
  `get_model_info`. Signals are modelled as an event list.
- **ConfigManager** (`config_manager.dfy`): the two-level JSON configuration.
  It covers the defaults, the recursive merge of a loaded file, `get_value`
  and `set_value`.
- **Renderer** (`renderer.dfy`): the load/render state of `Open3DRenderer`.
  It covers suffix dispatch, the loaded flag, the current model and path, the
  render gate, the zoom rule, `save_model` dispatch, and the click handler's
  guards with the click-point overlay.
- **Prototype** (`prototype.dfy`): the same renderer and widget logic in the
  single-file prototypes `open3d_qt_v0.4.py` and `File/open3d_qt_v0.3.py`,
  plus v0.4's two mutually exclusive tool buttons. The two files share the
  loader, the render gate, the zoom rule and the drag logic, and one model
  serves both for those. The height ramp is v0.4's, which is the renderer
  module's; v0.3's differs. The files also differ in ways not modelled: the
  background colour, the placeholder text, the palette, the styled frame and
  the window layout.
- **Pointer**, **ImageView** (`pointer.dfy`, `image_view.dfy`): the image
  widget's navigation and edit-mode state machine and the renderer requests
  it produces.
- **Viewport** (`viewport.dfy`): the renderer, the widget and the shared model
  manager, including the success-gated hand-off from load to `set_model`. The
  renderer and the manager hold the same geometry object. The invariant
  `Linked` states that the renderer's current model is the manager's. Loading
  goes through `set_geometry` as written. The visualizer is not refreshed
  after a manager edit.
- **Sidebar** (`sidebar.dfy`): the exclusive tool buttons and the
  model-information labels.
- **MainWindow** (`main_window.dfy`): the orchestration of undo, redo, view
  reset, toolbar actions and the confirm button.

Every Open3D call is a parameter of the model and never a computation: file
reads, `add_geometry`, voxel downsampling, screen and depth capture,
unprojection, the colour ramp, normals and file writes. An exception from
such a call is the `Raised` case of `Attempt`.

Where the documented design and the code disagree, the model follows the
code:
- The prototypes report a successful load for a file with an unknown suffix,
  with nothing shown (`Prototype.UnknownSuffixDiverges`).
- `get_model_info` raises on a loaded model with no points, because numpy's
  `min` has nothing to reduce (`ModelManager.CloudInfoOf`).
- In `gui/image_view_widget.py` a left press never starts a drag, so a
  left-button drag never rotates the view (`ImageView.LeftDragNeverRotates`).
  The prototypes rotate on a left drag (`Prototype.LeftDragRotates`).
- "Reset view" reloads the file, which discards every edit and the whole
  undo history (`MainWindow.ResetViewDiscardsHistory`).

## Model

| member | source | states |
|---|---|---|
| `EditHistory.Truncate` | utils/model_manager.py:60-66 | pruning keeps exactly the entries up to the index, so nothing is left to redo |
| `EditHistory.Push` | utils/model_manager.py:53-91 | after a push the index names the new last entry; the length is index+2 capped at 20; older entries are the undo branch shifted by one on eviction; overflow drops position 0 |
| `EditHistory.Undo` | utils/model_manager.py:93-121 | undo moves the index back by one exactly when the index is above 0, else changes nothing; the entries never change |
| `EditHistory.Redo` | utils/model_manager.py:101-135 | redo moves the index forward by one exactly when there is a later entry, else changes nothing; the entries never change |
| `EditHistory.UndoRedoInverse` | utils/model_manager.py:109-135 | redo after a permitted undo, and undo after a permitted redo, restore the history |
| `EditHistory.UndoTimes` | utils/model_manager.py:109-121 | any number of undos keeps the history valid and its entries unchanged |
| `EditHistory.RedoTimes` | utils/model_manager.py:123-135 | any number of redos keeps the history valid and its entries unchanged |
| `EditHistory.UndoTimesSteps` | utils/model_manager.py:109-121 | up to `index` undos step back by exactly one each |
| `EditHistory.RedoTimesSteps` | utils/model_manager.py:123-135 | redos step forward by exactly one each while entries remain |
| `EditHistory.UndoRedoRoundTrip` | utils/model_manager.py:109-135 | n undos then n redos are the identity on the history |
| `EditHistory.PushAll` | utils/model_manager.py:53-91 | any run of pushes keeps the capacity and index invariant |
| `EditHistory.NewestAppend` | utils/model_manager.py:89-91 | evicting before or after appending keeps the same newest entries |
| `EditHistory.PushKeepsNewest` | utils/model_manager.py:60-91 | one push keeps the newest 20 of the undo branch plus the new snapshot |
| `EditHistory.PushAllKeepsNewest` | utils/model_manager.py:60-91 | FIFO eviction: after any pushes the history is the newest 20 of the undo branch followed by the pushed entries, and the index is last |
| `ModelManager.Init` | utils/model_manager.py:22-34 | the fresh manager satisfies the class invariant (no model, no type, empty history, index -1) |
| `ModelManager.AddToHistory` | utils/model_manager.py:53-91 | with a model, exactly one snapshot with the given description is pushed, and it copies the model (colours recorded iff present); without a type only the redo branch is pruned |
| `ModelManager.SetModel` | utils/model_manager.py:36-51 | after `set_model` the history holds exactly one entry "加载模型" that captures the model, the index is 0, and undo and redo are both refused |
| `ModelManager.Restore` | utils/model_manager.py:137-158 | restoring overwrites positions (and triangles); colours only when the snapshot recorded them; normals never |
| `ModelManager.RestoreState` | utils/model_manager.py:137-158 | the model afterwards agrees with the chosen entry; history and type are untouched |
| `ModelManager.Undo` | utils/model_manager.py:109-121 | undo succeeds iff the index is above 0; refused undo changes nothing and emits nothing; a successful undo moves the index back one, restores that entry and emits `model_updated` then `edit_applied` |
| `ModelManager.Redo` | utils/model_manager.py:123-135 | the symmetric statement for redo |
| `ModelManager.VoxelSize` | utils/model_manager.py:178-182 | voxel size 0.04 for "低", 0.01 for "高", 0.02 for every other string |
| `ModelManager.ApplyDensity` | utils/model_manager.py:160-200 | without a point cloud: the cloud-only error, nothing changes; a raising downsample: the error message, nothing changes; otherwise points and colours are replaced, normals are kept, and exactly one entry is pushed |
| `ModelManager.RecordOperation` | utils/model_manager.py:202-257 | the shared shape: without a model the no-model error and no change; otherwise the model is unchanged and exactly one snapshot of it is pushed |
| `ModelManager.ApplyAestheticAlignment` | utils/model_manager.py:202-228 | succeeds iff a model is loaded, else changes nothing and emits the no-model error; on success the model and tag stay, the history is exactly one push of a faithful copy of the model described "应用美学对齐: " + option, and `model_updated` then `edit_applied("已应用美学对齐: " + option)` fire |
| `ModelManager.ApplyEdit` | utils/model_manager.py:230-257 | the same contract as `ApplyAestheticAlignment`, with the entry "应用编辑: " + edit type and the message "已应用编辑: " + edit type |
| `ModelManager.CloudInfoOf` | utils/model_manager.py:274-284 | the cloud report: raises iff there are no points; otherwise the count, the colour and normal flags (Open3D's size-matching rule), and dimensions equal to the bounding-box extent of the points |
| `ModelManager.MeshInfoOf` | utils/model_manager.py:286-297 | the mesh report: raises iff there are no vertices; otherwise vertex and triangle counts, flags, and dimensions equal to the bounding-box extent of the vertices |
| `ModelManager.GetModelInfo` | utils/model_manager.py:259-299 | only the status marker iff no model is loaded; otherwise the report for the tagged kind |
| `ModelManager.DensityThenUndoRestores` | utils/model_manager.py:160-200 | an undo right after a successful density change restores the previous point positions, even when the push evicted the oldest entry |
| `ModelManager.DensityDropsStaleNormals` | utils/model_manager.py:160-200 | a density step that changes the point count keeps the old normals, so a cloud that had normals no longer reports them |
| `ModelManager.DensityThenAlignment` | utils/model_manager.py:160-228 | on a cloud whose downsample succeeds, density then alignment is exactly two pushes, the alignment entry on top of the density entry, each with its description and success messages; with room left nothing older is evicted |
| `ModelManager.UndoThenRedo` | utils/model_manager.py:109-135 | undo then redo restores the history and the model's positions |
| `Geometry.Spread` | utils/model_manager.py:281-284 | max - min of a non-empty list of numbers is non-negative, bounds every pairwise difference and is attained |
| `Geometry.Extent` | utils/model_manager.py:281-284 | the dimensions vector bounds every pairwise coordinate difference on each axis and is attained on each axis |
| `ConfigManager.DefaultConfig` | utils/config_manager.py:20-53 | the defaults have exactly the sections window, renderer, view, paths, backend and editor, each a dictionary |
| `ConfigManager.GetValue` | utils/config_manager.py:90-95 | the stored value when the section is a dictionary holding the key; the caller's default otherwise |
| `ConfigManager.SetValue` | utils/config_manager.py:97-101 | fails (uncaught TypeError) iff the section exists and is not a dictionary; otherwise creates the section if absent, adds the key, and leaves every other section unchanged |
| `ConfigManager.SetThenGet` | utils/config_manager.py:90-101 | reading back what was just set yields it |
| `ConfigManager.SetLeavesOthers` | utils/config_manager.py:90-101 | setting one option leaves every other lookup unchanged |
| `ConfigManager.SetOnDefaultsSucceeds` | utils/config_manager.py:20-53 | setting never fails on the default configuration |
| `ConfigManager.MergeEntry` | utils/config_manager.py:69-76 | each default key of a merged dictionary is merged with its loaded counterpart, or keeps its default when there is none |
| `ConfigManager.Merge` | utils/config_manager.py:69-76 | the merge keeps exactly the default's keys; absent keys keep the default; when either side is not a dictionary, the loaded value wins |
| `ConfigManager.MergeKeys` | utils/config_manager.py:71-72 | keys only the loaded file has are dropped at every level |
| `ConfigManager.MergeSelf` | utils/config_manager.py:69-76 | merging a value into itself changes nothing |
| `ConfigManager.MergeIdempotent` | utils/config_manager.py:69-76 | merging the same loaded file twice equals merging it once |
| `ConfigManager.MergeKeepsDefaultOptions` | utils/config_manager.py:69-76 | when the file is shaped like the defaults, every default option still resolves: to the loaded leaf if present, to the default otherwise |
| `ConfigManager.MergeCanDropOptions` | utils/config_manager.py:73-76 | a section replaced by a non-dictionary loses all its default options |
| `Renderer.Init` | renderer/open3d_renderer.py:21-75 | the fresh renderer satisfies the overlay and loaded-flag invariant |
| `Renderer.KindOf` | renderer/open3d_renderer.py:103-109 | `.pcd` goes to the cloud loader; `.obj`/`.ply` go to the mesh loader unless the path ends with `.pcd`; everything else is unsupported |
| `Renderer.Ramp` | renderer/open3d_renderer.py:132-151 | the height ramp gives one colour per point |
| `Renderer.Colorize` | renderer/open3d_renderer.py:131-152 | a loaded cloud keeps its points and normals and always ends up coloured; its own colours are kept |
| `Renderer.Prepare` | renderer/open3d_renderer.py:181-186 | a loaded mesh keeps vertices and triangles and gets uniform grey 0.7 when uncoloured; existing normals are kept |
| `Renderer.SetGeometry` | renderer/open3d_renderer.py:89-114 | as written: the path is recorded; the flag is up iff the load succeeded; `model_loaded` carries the result first; click points and overlay object survive while the overlay is no longer shown |
| `Renderer.Load` | renderer/open3d_renderer.py:89-199 | corrected load: click points are discarded; a failure keeps the previous model; a success yields a cloud iff `.pcd`; an unsupported suffix emits only `model_loaded(False)`; exactly one `model_loaded`, first; invariant kept |
| `Renderer.LoadedModelContents` | renderer/open3d_renderer.py:116-199 | a loaded cloud holds exactly the points read, non-empty and coloured; a loaded mesh holds its vertices and triangles with vertex colours; the message carries the count |
| `Renderer.EmptyFileRefused` | renderer/open3d_renderer.py:127-129 | an empty file fails with its own message, the flag down and the previous model kept |
| `Renderer.UpdateRender` | renderer/open3d_renderer.py:77-87 | `render_ready` is emitted, once, iff a model is loaded and the capture returned a frame |
| `Renderer.ZoomFactor` | renderer/open3d_renderer.py:221-235 | the factor is 0.9 iff dy > 0, else 1.1 (0 included) |
| `Renderer.ZoomView` | renderer/open3d_renderer.py:221-235 | zooming is one scale call that zooms in iff dy > 0 |
| `Renderer.SaveModel` | renderer/open3d_renderer.py:237-263 | no model: nothing to save; unknown suffix: unsupported; otherwise success iff the writer picked by suffix alone does not raise |
| `Renderer.FailedLoadKeepsSavedModel` | renderer/open3d_renderer.py:116-129 | after a failed load, saving writes the previous model |
| `Renderer.HandleClick` | renderer/open3d_renderer.py:296-347 | raises iff the sampled pixel lies outside the depth buffer; an ignored click changes nothing; a counted click appends one point, registers the overlay only on the first click, and emits `point_added` |
| `Renderer.ClickCountedIff` | renderer/open3d_renderer.py:303-314 | a click is counted iff a model is loaded, depth was captured and the pixel is not background (1.0) |
| `Renderer.ClickKeepsCoherent` | renderer/open3d_renderer.py:334-347 | every click keeps the overlay registered and equal to the click points |
| `Renderer.LoadKeepsCoherent` | renderer/open3d_renderer.py:89-114 | the corrected load keeps that invariant for every library behaviour |
| `Renderer.ReloadLosesOverlay` | renderer/open3d_renderer.py:99-101 | as written, load, click, reload, click leaves two click points in an overlay that is not shown |
| `Pointer.Drag` | gui/image_view_widget.py:160-174 | a drag rotates iff the left button is held, else pans iff the right is, by the pointer's offset |
| `ImageView.Init` | gui/image_view_widget.py:17-45 | the widget starts in navigation mode with no image, drag or stroke |
| `ImageView.SetImage` | gui/image_view_widget.py:47-54 | only the image changes |
| `ImageView.SetEditMode` | gui/image_view_widget.py:200-210 | the mode and tool are set and the stroke is always cleared |
| `ImageView.FinalizeEdit` | gui/image_view_widget.py:212-226 | the stroke ends empty; with no points nothing changes |
| `ImageView.MousePress` | gui/image_view_widget.py:113-148 | edit mode appends exactly one point; a navigation left press clicks iff an image exists and the pixel is inside it, and never sets the drag; any other button starts a drag |
| `ImageView.MouseMove` | gui/image_view_widget.py:150-174 | a left-held move in edit mode appends one point; otherwise a move rotates or pans only during a drag and moves the drag point |
| `ImageView.MouseRelease` | gui/image_view_widget.py:176-187 | edit mode finalizes the stroke; navigation mode ends the drag |
| `ImageView.WheelEvent` | gui/image_view_widget.py:189-198 | the wheel zooms iff not in edit mode |
| `ImageView.Handle` | gui/image_view_widget.py:113-198 | no mouse event changes the mode, the tool or the image |
| `ImageView.Run` | gui/image_view_widget.py:113-198 | a run of events yields one effect per event and keeps the mode |
| `ImageView.LeftDragNeverRotates` | gui/image_view_widget.py:125-148 | with only left presses, no run of events ever rotates or pans |
| `ImageView.StrokeCapture` | gui/image_view_widget.py:150-158 | in edit mode, left-held moves append exactly their positions in order and ask nothing of the renderer |
| `ImageView.ReleaseEndsStroke` | gui/image_view_widget.py:176-187 | release empties the stroke in edit mode and ends the drag otherwise |
| `Prototype.SetGeometry` | open3d_qt_v0.4.py:49-123 | the flag is up iff the load succeeded; an unknown suffix reports success with nothing shown; failures are silent |
| `Prototype.AgreesWithRenderer` | open3d_qt_v0.4.py:49-123 | on the known suffixes the prototype and the renderer module agree on success and on the model shown |
| `Prototype.UnknownSuffixDiverges` | open3d_qt_v0.4.py:55-117 | on any other suffix the prototype succeeds while the renderer module refuses |
| `Prototype.EmptyCloudRefused` | open3d_qt_v0.4.py:58-60 | an empty cloud is refused with the flag left down |
| `Prototype.UpdateRender` | open3d_qt_v0.4.py:37-47 | a frame is emitted iff the flag is up and the capture returned one |
| `Prototype.RenderGateAgrees` | File/open3d_qt_v0.3.py:35-45 | the prototype's render gate equals the renderer module's |
| `Prototype.ZoomRule` | open3d_qt_v0.4.py:135-145 | a prototype wheel step scales by 0.9 iff it goes forward, else by 1.1, as in the renderer module |
| `Prototype.Press` | open3d_qt_v0.4.py:215-217 | any press starts a drag at its position |
| `Prototype.MoveTo` | open3d_qt_v0.4.py:219-235 | a move does nothing without a drag, otherwise rotates on left, pans on right, and moves the drag point |
| `Prototype.Release` | File/open3d_qt_v0.3.py:219-221 | release ends the drag |
| `Prototype.Wheel` | open3d_qt_v0.4.py:241-245 | the wheel always zooms by its delta |
| `Prototype.LeftDragRotates` | open3d_qt_v0.4.py:215-239 | a left drag rotates by the offset, and after release a move does nothing |
| `Prototype.Click` | open3d_qt_v0.4.py:428-448 | a click toggles its button, unchecks the other only when checking, reports the new state, and never leaves both checked |
| `Prototype.NeverBothChecked` | open3d_qt_v0.4.py:428-448 | after any run of clicks from a non-conflicting state, the two buttons are never both checked |
| `Sidebar.OnToolActivated` | gui/sidebar.py:257-274 | `tool_activated` is emitted iff checked; on activation every other tool is unchecked; on deactivation nothing changes |
| `Sidebar.Click` | gui/sidebar.py:232-274 | a click flips its own button and emits iff it checked it |
| `Sidebar.ActivationIsExclusive` | gui/sidebar.py:265-271 | after a checking click, the clicked tool is the only one checked |
| `Sidebar.AtMostOneKept` | gui/sidebar.py:232-274 | any run of clicks keeps at most one tool checked |
| `Sidebar.UpdateInfo` | gui/sidebar.py:176-194 | a raising report propagates; no type gives "未加载", "-", "-"; otherwise "点云" iff the type is pcd, else "网格", with the count and dimensions |
| `Sidebar.PanelDescribesModel` | gui/sidebar.py:176-194 | for a loaded non-empty model the panel shows its kind, its position count and the bounding-box extent of its positions (shown to two decimals; the formatting is not modelled) |
| `Viewport.Init` | gui/viewport.py:18-46 | renderer and manager start linked |
| `Viewport.TypeFor` | gui/viewport.py:61-64 | the tag is 'pcd' iff the path ends with `.pcd` |
| `Viewport.LoadModel` | gui/viewport.py:48-69 | the renderer loads with `set_geometry` as written, keeping earlier clicks, and its result is returned; only a success hands the model to the manager, with the suffix's tag and a single "加载模型" entry; a failure leaves the manager untouched |
| `Viewport.SetEditMode` | gui/viewport.py:71-78 | only the widget's mode changes |
| `Viewport.Interact` | gui/viewport.py:34-39 | a mouse event keeps the link, never touches the manager or the model, and forwards zooms and drags to the renderer |
| `Viewport.Tick` | renderer/open3d_renderer.py:77-87 | a tick shows the captured frame iff a model is loaded |
| `Viewport.Share` | gui/viewport.py:91-95 | after a manager operation the renderer's current model is the manager's object, and the link is kept |
| `Viewport.FailedLoadStopsRendering` | gui/viewport.py:57-67 | a failed reload blanks the view while the manager keeps model and history |
| `Viewport.LoadThenTick` | gui/viewport.py:57-69 | after a successful load the next frame is shown, and neither undo nor redo is possible |
| `MainWindow.Init` | gui/main_window.py:25-56 | the window starts linked, with no warnings |
| `MainWindow.Errors` | gui/main_window.py:394-402 | a single signal yields its message exactly when it is an `operation_error`; every error message is among the warnings |
| `MainWindow.ErrorsAppend` | gui/main_window.py:394-402 | the warnings of a run of signals are those of its first part followed by those of the rest, so warnings keep the signals' order |
| `MainWindow.Slot` | gui/main_window.py:385-402 | an `operation_error` adds its message as a warning and shows "错误: " + message; `edit_applied` shows its message; the viewport is untouched |
| `MainWindow.Notify` | gui/main_window.py:385-402 | the signal slots add exactly the error messages as warnings and leave the viewport alone |
| `MainWindow.Undo` | gui/main_window.py:274-280 | the manager undoes only when it can; the status says "已撤销" or "无法撤销"; history entries never change |
| `MainWindow.Redo` | gui/main_window.py:282-288 | the manager redoes only when it can; the status says "已重做" or "无法重做" |
| `MainWindow.UndoThenRedo` | gui/main_window.py:274-288 | undo then redo through the window restores history and positions, and the renderer shows the manager's model |
| `MainWindow.ResetView` | gui/main_window.py:290-295 | reloads through the viewport only when a non-empty current path is set; otherwise nothing changes |
| `MainWindow.ResetViewDiscardsHistory` | gui/main_window.py:290-295 | a successful reset leaves a single history entry with nothing to undo or redo; a failed one keeps the manager |
| `MainWindow.HandleToolbarAction` | gui/main_window.py:311-339 | "nav" leaves edit mode whatever the flag; pen, user and edit3d set edit mode to the flag (default False) with their id; other ids change nothing |
| `MainWindow.Apply` | gui/main_window.py:371-382 | one manager operation updates the shared model and delivers its signals |
| `MainWindow.HandleConfirm` | gui/main_window.py:371-382 | density then alignment, each on the result of the last; warnings are the two steps' errors in order; status "已应用设置" |
| `MainWindow.ConfirmOnCloud` | gui/main_window.py:377-380 | on a cloud whose downsample succeeds, for any history, confirm is exactly two pushes, "应用密度: …" then "应用美学对齐: …" on top of it, with no warning; with room left nothing older is evicted |
| `MainWindow.ConfirmOnMesh` | gui/main_window.py:377-380 | on a mesh, density warns (point clouds only) and alignment still pushes one entry |
| `MainWindow.ConfirmWithoutModel` | gui/main_window.py:377-380 | without a model both steps warn and the manager is unchanged |

## Left out

- Open3D itself: file reading and writing, `add_geometry`, voxel downsampling, screen and depth capture, camera parameters, view-control calls and normal estimation. These are parameters (`Library`, `downsample`, `write`, `capture`, `depth`, `unproject`), or outputs the renderer would send (`Rotate`, `Translate`, `Scale`, `ResetViewPoint`).
- The floating-point height-gradient colour ramps (including a division by zero for a flat cloud) and the unprojection arithmetic in `handle_click`: both are uninterpreted functions.
- The float-to-pixel mapping of a press in `gui/image_view_widget.py`; the mapped pixel arrives with the event, and only the bounds guard is modelled.
- Qt painting, layouts, stylesheets, the QTimer schedule, message-box modality and signal wiring. Signals are event lists delivered in emission order.
- `gui/toolbars.py` (its exclusivity is Qt's `QButtonGroup`), `gui/styled_frame.py`, `run.py`, `utils/data_interface.py` (HTTP and temporary files), and the file dialogs of `load_file`, `save_file` and `export_file`.
- `ConfigManager.load_config`/`save_config`: JSON file I/O. A loaded file whose top level is not an object is not modelled; the merge takes two dictionaries.
- Python truthiness of an Open3D geometry is taken as "is not None", as `handle_click` and `save_model` use it for a model object.
- `Renderer.HandleClick`: the overlay's `add_geometry` is assumed to succeed, because its result is ignored.
- `Renderer.HandleClick`: the code indexes the depth capture as `depth[y, x]` directly, without the `np.asarray` conversion it applies to the colour capture; the model assumes this behaves as `np.asarray(depth)[y, x]`, a two-dimensional array of reals that raises only out of bounds. If Open3D's image type does not support that subscript, every click that reaches the lookup raises and no click is ever counted.
- `ModelManager.SetModel`: requires the geometry's kind to match the tag, as documented; a mismatch would raise AttributeError later in `add_to_history`, and that path is not modelled.
- `ModelManager.ApplyEdit`: the `except` branch is not modelled, because recording history cannot raise once the model is present.
- `ModelManager.ApplyAestheticAlignment`: same reason as `ApplyEdit`.
- `Prototype.AgreesWithRenderer`: stated for `open3d_qt_v0.4.py`, whose height ramp is the renderer module's. `File/open3d_qt_v0.3.py` colours a colourless cloud with a different three-channel ramp, so for v0.3 only success, points and normals agree with the renderer module; the model gives the prototype v0.4's ramp.
- `Prototype.SetGeometry`: failure messages are printed, not signalled, so they are not part of the result.
- `Sidebar.UpdateInfo`: `PropertiesPanel` refers to `Qt` without importing it, so building the panel raises NameError. The model describes the label rule as if construction had succeeded. The dimensions label formats each extent with two decimals (`.2f`); the model keeps the unrounded reals, because number formatting is not modelled.
- `ImageView.StrokeCapture`: the code stores each stroke position as a `QPoint` built from the event's float coordinates, so the stored points have integer coordinates; the model stores the positions as they arrive, because the binding's float-to-integer conversion is not modelled. This concerns the stroke only: the drag position `last_pos` is the float `event.position()` in the code too, so `ImageView.MousePress` and `ImageView.MouseMove` involve no rounding.
- `Viewport.Share`: the renderer holds the manager's object, but `_on_model_updated` does nothing and there is no geometry update, so the visualizer keeps showing what was added at load time; the model does not describe the visualizer's contents after an edit.
- `MainWindow.Init`: building the window builds `Sidebar`, whose `PropertiesPanel` raises NameError (see `Sidebar.UpdateInfo`), so in the code construction never completes; the whole window is modelled as if construction had succeeded.
- `ImageView.FinalizeEdit`: the edit itself is a placeholder in the code and is not modelled; only the clearing of the stroke is.
- The 3D edit interaction (`edit3d`) has no behaviour beyond the tool id in the code, so it has none here.
- Scripts with no logic beyond library calls: `bounding_box.py`, `pointhight_level.py`, `prefile/point_read.py`, `open3d_qt.py` and both copies of `open3d_qt_v0.2.py`.

## Findings

| source | as written | input that shows it | evidently intended | confidence | as-written member | corrected member |
|---|---|---|---|---|---|---|
| renderer/open3d_renderer.py:99-101 | `set_geometry` clears the visualizer, which removes the click overlay, but keeps `click_points` and `click_point_cloud`; a later click only updates the unregistered overlay | load `a.pcd`, click a pixel with depth 0.5, load `a.pcd` again, click again: two points are stored and none is shown | loading a model discards the previous clicks, so the next click creates and shows a new overlay; the viewport and the window follow the code and load through the as-written `Renderer.SetGeometry`, so their invariant `Viewport.Linked` leaves the overlay out | medium; not executed; the input needs a counted click, which assumes `depth[y, x]` on the raw depth capture behaves as a NumPy lookup (see `Renderer.HandleClick` under Left out) | `Renderer.ReloadLosesOverlay` | `Renderer.Load` |
