/** `Open3DRenderer` (renderer/open3d_renderer.py): the load/render/click
    state of the off-screen visualizer. Open3D itself is a parameter (a
    `Library` record of the calls whose results the logic reads); the
    visualizer's geometry list is `scene`, and the calls that go to the
    view control or leave the renderer as Qt signals are `Output`s. */
module Renderer {
  import opened Base
  import opened Geometry

  /** What the visualizer holds: the loaded model (the object itself, so
      in-place edits show) and the red overlay of clicked points. */
  datatype Drawable = ModelDrawable | OverlayDrawable

  /** The message carried by `model_loaded`. */
  datatype LoadMessage =
    | Unsupported              // 不支持的文件格式
    | CloudEmpty               // 加载失败: 点云为空
    | MeshEmpty                // 加载失败: 网格为空
    | AddFailed                // 添加几何体到可视化器失败
    | CloudLoaded(points: nat) // 点云加载成功，点数: n
    | MeshLoaded(vertices: nat) // 网格加载成功，顶点数: n
    | LoadError(reason: string) // 加载文件错误: e

  /** Signals emitted and view-control calls made, in order. */
  datatype Output =
    | ModelLoaded(success: bool, message: LoadMessage)
    | RenderReady(frame: Frame)
    | PointAdded(point: Vec3)
    | Scale(factor: real)
    | Rotate(dx: real, dy: real)
    | Translate(dx: real, dy: real)
    | ResetViewPoint

  datatype Renderer = Renderer(
    geometryLoaded: bool,
    currentModel: Option<Geometry>,
    currentModelPath: Option<string>,
    clickPoints: seq<Vec3>,
    /** `click_point_cloud`: absent, or present with its points. */
    overlay: Option<seq<Vec3>>,
    scene: seq<Drawable>)

  /** The Open3D calls the loaders depend on. A reader may raise; the
      colour ramp (`rampColor(point, min_z, max_z)`) and the normal
      computation are floating-point numerics left uninterpreted. */
  datatype Library = Library(
    readPointCloud: string -> Attempt<PointCloud>,
    readTriangleMesh: string -> Attempt<TriangleMesh>,
    addGeometry: Geometry -> bool,
    rampColor: (Vec3, real, real) -> Vec3,
    triangleNormals: TriangleMesh -> seq<Vec3>)

  /** The result of a load: new state, the boolean returned, outputs. */
  datatype Loaded = Loaded(renderer: Renderer, ok: bool, outputs: seq<Output>)

  /** The result of a call that returns nothing. */
  datatype Step = Step(renderer: Renderer, outputs: seq<Output>)

  /** The state `__init__` leaves behind. */
  function Init(): (r: Renderer)
    ensures Coherent(r)
  {
    Renderer(false, None, None, [], None, [])
  }

  /** Which loader (or writer) a path goes to. */
  datatype FileKind = CloudFile | MeshFile | OtherFile

  /** `.pcd` before `.obj`/`.ply`, all case-sensitive suffix tests. */
  function KindOf(path: string): (k: FileKind)
    ensures k == CloudFile <==> EndsWith(path, ".pcd")
    ensures k == MeshFile <==> !EndsWith(path, ".pcd") && (EndsWith(path, ".obj") || EndsWith(path, ".ply"))
  {
    if EndsWith(path, ".pcd") then CloudFile
    else if EndsWith(path, ".obj") || EndsWith(path, ".ply") then MeshFile
    else OtherFile
  }

  /** The state invariant: the overlay, when it exists, holds the clicked
      points and is registered with the visualizer (otherwise no point has
      been clicked), and a loaded renderer shows its model. */
  predicate Coherent(r: Renderer)
  {
    && (r.overlay.Some? ==> r.overlay.value == r.clickPoints && OverlayDrawable in r.scene)
    && (r.overlay.None? ==> r.clickPoints == [])
    && (r.geometryLoaded ==> r.currentModel.Some? && ModelDrawable in r.scene)
  }

  /** The height ramp for a cloud without colours: one colour per point. */
  function Ramp(ps: seq<Vec3>, lib: Library): (colors: seq<Vec3>)
    requires |ps| > 0
    ensures |colors| == |ps|
  {
    var lo := Min(Zs(ps));
    var hi := Max(Zs(ps));
    seq(|ps|, i requires 0 <= i < |ps| => lib.rampColor(ps[i], lo, hi))
  }

  /** The cloud `_load_point_cloud` hands to the visualizer: the file's
      points, coloured by the ramp when the file had no colours. */
  function Colorize(pc: PointCloud, lib: Library): (c: PointCloud)
    requires |pc.points| > 0
    ensures c.points == pc.points && c.normals == pc.normals
    ensures HasColors(c) && |c.colors| == (if HasColors(pc) then |pc.colors| else |pc.points|)
    ensures HasColors(pc) ==> c == pc
  {
    if HasColors(pc) then pc else pc.(colors := Ramp(pc.points, lib))
  }

  /** The mesh `_load_mesh` hands to the visualizer: painted uniform grey
      (0.7) when it had no vertex colours, with triangle normals computed
      when it had none. */
  function Prepare(mesh: TriangleMesh, lib: Library): (m: TriangleMesh)
    ensures m.vertices == mesh.vertices && m.triangles == mesh.triangles
    ensures HasVertexColors(mesh) ==> m.vertexColors == mesh.vertexColors
    ensures !HasVertexColors(mesh) ==>
              |m.vertexColors| == |mesh.vertices| && forall i :: 0 <= i < |m.vertexColors| ==> m.vertexColors[i] == Vec3(0.7, 0.7, 0.7)
    ensures HasTriangleNormals(mesh) ==> m.triangleNormals == mesh.triangleNormals
  {
    var painted := if HasVertexColors(mesh) then mesh
                   else mesh.(vertexColors := seq(|mesh.vertices|, _ => Vec3(0.7, 0.7, 0.7)));
    if HasTriangleNormals(painted) then painted
    else painted.(triangleNormals := lib.triangleNormals(painted))
  }

  /** The common tail of both loaders once the geometry is prepared:
      refused by the visualizer, or installed as the current model. */
  function Install(r: Renderer, g: Geometry, message: LoadMessage, lib: Library): (l: Loaded)
  {
    if !lib.addGeometry(g) then Loaded(r, false, [ModelLoaded(false, AddFailed)])
    else
      Loaded(r.(currentModel := Some(g), geometryLoaded := true, scene := r.scene + [ModelDrawable]),
             true, [ModelLoaded(true, message), ResetViewPoint])
  }

  /** `_load_point_cloud`. */
  function LoadPointCloud(r: Renderer, path: string, lib: Library): Loaded
  {
    match lib.readPointCloud(path)
    case Raised(e) => Loaded(r, false, [ModelLoaded(false, LoadError(e))])
    case Returned(pc) =>
      if |pc.points| == 0 then Loaded(r, false, [ModelLoaded(false, CloudEmpty)])
      else Install(r, Cloud(Colorize(pc, lib)), CloudLoaded(|pc.points|), lib)
  }

  /** `_load_mesh`. */
  function LoadMesh(r: Renderer, path: string, lib: Library): Loaded
  {
    match lib.readTriangleMesh(path)
    case Raised(e) => Loaded(r, false, [ModelLoaded(false, LoadError(e))])
    case Returned(mesh) =>
      if MeshIsEmpty(mesh) then Loaded(r, false, [ModelLoaded(false, MeshEmpty)])
      else Install(r, Mesh(Prepare(mesh, lib)), MeshLoaded(|mesh.vertices|), lib)
  }

  /** `set_geometry` as written: the loaded flag drops, the visualizer is
      cleared (the click overlay with it) and the path is recorded before
      the dispatch; the click points and the overlay object survive. */
  function SetGeometry(r: Renderer, path: string, lib: Library): (l: Loaded)
    ensures l.renderer.currentModelPath == Some(path)
    ensures l.ok <==> l.renderer.geometryLoaded
    ensures l.renderer.clickPoints == r.clickPoints && l.renderer.overlay == r.overlay
    ensures OverlayDrawable !in l.renderer.scene
    ensures !l.ok ==> l.renderer.currentModel == r.currentModel
    ensures l.ok ==> l.renderer.currentModel.Some?
    ensures l.ok ==> (l.renderer.currentModel.value.Cloud? <==> EndsWith(path, ".pcd"))
    ensures |l.outputs| > 0 && l.outputs[0].ModelLoaded? && l.outputs[0].success == l.ok
  {
    var cleared := r.(geometryLoaded := false, scene := [], currentModelPath := Some(path));
    match KindOf(path)
    case CloudFile => LoadPointCloud(cleared, path, lib)
    case MeshFile => LoadMesh(cleared, path, lib)
    case OtherFile => Loaded(cleared, false, [ModelLoaded(false, Unsupported)])
  }

  /** `set_geometry` as evidently intended: loading a model also discards
      the clicks made on the previous one, so the next click creates and
      registers a fresh overlay. Everything else is as written. */
  function Load(r: Renderer, path: string, lib: Library): (l: Loaded)
    ensures l.renderer.currentModelPath == Some(path)
    ensures l.ok <==> l.renderer.geometryLoaded
    ensures l.renderer.clickPoints == [] && l.renderer.overlay.None?
    // the flags and the model
    ensures !l.ok ==> l.renderer.currentModel == r.currentModel
    ensures l.ok ==> l.renderer.currentModel.Some?
    ensures l.ok ==> (l.renderer.currentModel.value.Cloud? <==> EndsWith(path, ".pcd"))
    ensures l.ok ==> KindOf(path) != OtherFile
    ensures KindOf(path) == OtherFile ==> l.outputs == [ModelLoaded(false, Unsupported)]
    // exactly one `model_loaded`, first, carrying the result
    ensures |l.outputs| > 0 && l.outputs[0].ModelLoaded? && l.outputs[0].success == l.ok
    ensures forall i :: 1 <= i < |l.outputs| ==> !l.outputs[i].ModelLoaded?
    ensures Coherent(l.renderer)
  {
    var unclicked := r.(clickPoints := [], overlay := None);
    var l := SetGeometry(unclicked, path, lib);
    l
  }

  /** A successful load shows the file's points: a cloud keeps every point
      read and always ends up coloured; a mesh keeps its vertices and
      triangles and always ends up with vertex colours. */
  lemma LoadedModelContents(r: Renderer, path: string, lib: Library)
    requires Load(r, path, lib).ok
    ensures var g := Load(r, path, lib).renderer.currentModel.value;
            match g
            case Cloud(pc) =>
              && lib.readPointCloud(path).Returned?
              && pc.points == lib.readPointCloud(path).value.points
              && |pc.points| > 0 && HasColors(pc)
              && Load(r, path, lib).outputs[0].message == CloudLoaded(|pc.points|)
            case Mesh(m) =>
              && lib.readTriangleMesh(path).Returned?
              && m.vertices == lib.readTriangleMesh(path).value.vertices
              && m.triangles == lib.readTriangleMesh(path).value.triangles
              && |m.vertices| > 0 && HasVertexColors(m)
              && Load(r, path, lib).outputs[0].message == MeshLoaded(|m.vertices|)
  {
  }

  /** An empty file is refused and the flag stays down, while the previous
      model stays current. */
  lemma EmptyFileRefused(r: Renderer, path: string, lib: Library)
    requires KindOf(path) == CloudFile ==> lib.readPointCloud(path) == Returned(PointCloud([], [], []))
    requires KindOf(path) == MeshFile ==> lib.readTriangleMesh(path).Returned? && MeshIsEmpty(lib.readTriangleMesh(path).value)
    ensures !Load(r, path, lib).ok && !Load(r, path, lib).renderer.geometryLoaded
    ensures Load(r, path, lib).renderer.currentModel == r.currentModel
    ensures KindOf(path) == CloudFile ==> Load(r, path, lib).outputs == [ModelLoaded(false, CloudEmpty)]
    ensures KindOf(path) == MeshFile ==> Load(r, path, lib).outputs == [ModelLoaded(false, MeshEmpty)]
  {
  }

  /** `update_render`: with a model loaded, the frame the visualizer
      captures (`capture`, absent when the capture returns None) is
      published; nothing happens otherwise. */
  function UpdateRender(r: Renderer, capture: Option<Frame>): (outputs: seq<Output>)
    ensures |outputs| <= 1
    ensures |outputs| == 1 <==> r.geometryLoaded && capture.Some?
    ensures |outputs| == 1 ==> outputs[0] == RenderReady(capture.value)
  {
    if r.geometryLoaded && capture.Some? then [RenderReady(capture.value)] else []
  }

  /** `zoom_view`'s scale factor: Open3D zooms in below 1, so a forward
      wheel step (`dy > 0`) uses 0.9 and anything else, 0 included, 1.1. */
  function ZoomFactor(dy: int): (f: real)
    ensures f < 1.0 <==> dy > 0
    ensures f == 0.9 || f == 1.1
  {
    if dy > 0 then 0.9 else 1.1
  }

  /** `zoom_view`, `rotate_view` and `pan_view`: one view-control call. */
  function ZoomView(dy: int): (outputs: seq<Output>)
    ensures |outputs| == 1 && outputs[0].Scale?
    ensures outputs[0].factor < 1.0 <==> dy > 0
  {
    [Scale(ZoomFactor(dy))]
  }

  /** The writer `save_model` picks. */
  datatype Writer = PointCloudWriter | TriangleMeshWriter

  /** `save_model`'s (success, message) pair. */
  datatype SaveMessage = NothingToSave | UnsupportedFormat | Saved | SaveError(reason: string)

  /** `save_model`: refused without a model, otherwise dispatched on the
      suffix only (the model's kind is not consulted; a mismatched writer
      raises inside `write`). The writers' own boolean result is ignored:
      only an exception makes the save fail. */
  function SaveModel(r: Renderer, path: string, write: (Writer, string, Geometry) -> Attempt<bool>): (res: (bool, SaveMessage))
    ensures r.currentModel.None? ==> res == (false, NothingToSave)
    ensures r.currentModel.Some? && KindOf(path) == OtherFile ==> res == (false, UnsupportedFormat)
    ensures res.0 <==> res.1 == Saved
    ensures res.0 <==> r.currentModel.Some? && KindOf(path) != OtherFile &&
                       write(if KindOf(path) == CloudFile then PointCloudWriter else TriangleMeshWriter,
                             path, r.currentModel.value).Returned?
  {
    if r.currentModel.None? then (false, NothingToSave)
    else
      var writer :=
        if EndsWith(path, ".pcd") then Some(PointCloudWriter)
        else if EndsWith(path, ".ply") then Some(TriangleMeshWriter)
        else if EndsWith(path, ".obj") then Some(TriangleMeshWriter)
        else None;
      match writer
      case None => (false, UnsupportedFormat)
      case Some(w) =>
        match write(w, path, r.currentModel.value)
        case Raised(e) => (false, SaveError(e))
        case Returned(_) => (true, Saved)
  }

  /** A load that fails keeps the previous model current, so a following
      save writes the previous model, not the file that failed to load. */
  lemma FailedLoadKeepsSavedModel(r: Renderer, path: string, target: string, lib: Library,
                                  write: (Writer, string, Geometry) -> Attempt<bool>)
    requires !Load(r, path, lib).ok
    ensures SaveModel(Load(r, path, lib).renderer, target, write) == SaveModel(r, target, write)
  {
  }

  /** `handle_click`'s result: nothing happened, or the point was added. */
  datatype Click = Ignored | Added(point: Vec3)

  /** Why `handle_click` stops early, if it does: nothing loaded, no depth
      buffer, or the background depth 1.0 at the pixel. */
  predicate ClickIgnored(r: Renderer, x: nat, y: nat, depth: Option<seq<seq<real>>>)
    requires depth.Some? ==> y < |depth.value| && x < |depth.value[y]|
  {
    !r.geometryLoaded || r.currentModel.None? || depth.None? || depth.value[y][x] == 1.0
  }

  /** `handle_click` at pixel (x, y): the depth buffer (`depth`, absent
      when capture fails) is sampled at row y, column x; indexing past its
      shape raises `IndexError`. The unprojection through the camera is the
      uninterpreted `unproject(x, y, depth)`. A counted click appends one
      point, creates and registers the overlay on the first click and
      updates it afterwards, and emits `point_added`. */
  function HandleClick(r: Renderer, x: nat, y: nat, depth: Option<seq<seq<real>>>,
                       unproject: (nat, nat, real) -> Vec3): (res: Attempt<(Step, Click)>)
    ensures res.Raised? <==>
              r.geometryLoaded && r.currentModel.Some? && depth.Some? &&
              !(y < |depth.value| && x < |depth.value[y]|)
    ensures res.Returned? && res.value.1.Ignored? ==> res.value.0 == Step(r, [])
    ensures res.Returned? && res.value.1.Added? ==>
              var p := res.value.1.point;
              var s := res.value.0;
              && s.renderer.clickPoints == r.clickPoints + [p]
              && s.renderer.overlay == Some(s.renderer.clickPoints)
              && (r.overlay.None? ==> s.renderer.scene == r.scene + [OverlayDrawable])
              && (r.overlay.Some? ==> s.renderer.scene == r.scene)
              && s.outputs == [PointAdded(p)]
              && s.renderer.(clickPoints := r.clickPoints, overlay := r.overlay, scene := r.scene) == r
  {
    if !r.geometryLoaded || r.currentModel.None? then Returned((Step(r, []), Ignored))
    else if depth.None? then Returned((Step(r, []), Ignored))
    else if !(y < |depth.value| && x < |depth.value[y]|) then Raised("index out of bounds")
    else
      var d := depth.value[y][x];
      if d == 1.0 then Returned((Step(r, []), Ignored))
      else
        var p := unproject(x, y, d);
        var points := r.clickPoints + [p];
        var scene := if r.overlay.None? then r.scene + [OverlayDrawable] else r.scene;
        Returned((Step(r.(clickPoints := points, overlay := Some(points), scene := scene), [PointAdded(p)]), Added(p)))
  }

  /** A click is counted exactly when none of the early returns applies. */
  lemma ClickCountedIff(r: Renderer, x: nat, y: nat, depth: Option<seq<seq<real>>>,
                        unproject: (nat, nat, real) -> Vec3)
    requires depth.Some? ==> y < |depth.value| && x < |depth.value[y]|
    ensures HandleClick(r, x, y, depth, unproject).Returned?
    ensures HandleClick(r, x, y, depth, unproject).value.1.Added? <==> !ClickIgnored(r, x, y, depth)
  {
  }

  /** Every counted click keeps the invariant: the overlay stays
      registered and holds exactly the clicked points. */
  lemma ClickKeepsCoherent(r: Renderer, x: nat, y: nat, depth: Option<seq<seq<real>>>,
                           unproject: (nat, nat, real) -> Vec3)
    requires Coherent(r)
    ensures HandleClick(r, x, y, depth, unproject).Returned? ==>
              Coherent(HandleClick(r, x, y, depth, unproject).value.0.renderer)
  {
  }

  /** The corrected load keeps the invariant for every library behaviour. */
  lemma LoadKeepsCoherent(r: Renderer, path: string, lib: Library)
    ensures Coherent(Load(r, path, lib).renderer)
  {
  }

  /** As written, reloading after a click breaks the invariant: the
      overlay object survives `clear_geometries` unregistered, and a later
      click only updates it, so points clicked on the new model are never
      shown. Concretely: load a one-point cloud, click, load it again,
      click again. */
  lemma ReloadLosesOverlay()
    ensures var lib := Library(_ => Returned(PointCloud([Vec3(0.0, 0.0, 0.0)], [], [])),
                               _ => Returned(TriangleMesh([], [], [], [])),
                               _ => true, (_, _, _) => Vec3(1.0, 0.0, 0.0), _ => []);
            var depth := Some([[0.5]]);
            var unproject := (_, _, _) => Vec3(0.0, 0.0, 0.5);
            var r1 := SetGeometry(Init(), "a.pcd", lib).renderer;
            var r2 := HandleClick(r1, 0, 0, depth, unproject).value.0.renderer;
            var r3 := SetGeometry(r2, "a.pcd", lib).renderer;
            var r4 := HandleClick(r3, 0, 0, depth, unproject).value.0.renderer;
            && Coherent(r2)
            && r4.clickPoints == [Vec3(0.0, 0.0, 0.5), Vec3(0.0, 0.0, 0.5)]
            && r4.overlay.Some? && OverlayDrawable !in r4.scene
            && !Coherent(r4)
  {
    var lib := Library(_ => Returned(PointCloud([Vec3(0.0, 0.0, 0.0)], [], [])),
                       _ => Returned(TriangleMesh([], [], [], [])),
                       _ => true, (_, _, _) => Vec3(1.0, 0.0, 0.0), _ => []);
    var depth := Some([[0.5]]);
    var unproject := (_, _, _) => Vec3(0.0, 0.0, 0.5);
    assert KindOf("a.pcd") == CloudFile by {
      assert "a.pcd"[|"a.pcd"| - 4..] == ".pcd";
    }
    var r1 := SetGeometry(Init(), "a.pcd", lib).renderer;
    assert r1.geometryLoaded;
    var r2 := HandleClick(r1, 0, 0, depth, unproject).value.0.renderer;
    var r3 := SetGeometry(r2, "a.pcd", lib).renderer;
    assert r3.geometryLoaded;
  }
}
