/** `ModelManager` (utils/model_manager.py): owns the current model and its
    type tag, records geometry snapshots in the bounded edit history, and
    offers density, alignment and free-form edits that each push one
    snapshot or report an error. Qt signals become a list of events. */
module ModelManager {
  import opened Base
  import opened Geometry
  import H = EditHistory

  /** The `model_type` tag: 'pcd' or 'mesh'. */
  datatype ModelType = TypePcd | TypeMesh

  /** One history entry: a description and deep copies of the mutable
      geometric fields; colours are recorded only when the model has them. */
  datatype Snapshot =
    | CloudSnapshot(description: string, points: seq<Vec3>, colors: Option<seq<Vec3>>)
    | MeshSnapshot(description: string, vertices: seq<Vec3>, triangles: seq<Triangle>,
                   vertexColors: Option<seq<Vec3>>)

  /** `model_updated`, `edit_applied(str)` and `operation_error(str)`. */
  datatype Event = ModelUpdated | EditApplied(message: string) | OperationError(message: string)

  datatype Manager = Manager(model: Option<Geometry>, modelType: Option<ModelType>, history: H.History<Snapshot>)

  /** The result of an operation: the new state, its boolean return value
      and the signals it emitted, in order. */
  datatype Outcome = Outcome(manager: Manager, ok: bool, events: seq<Event>)

  const LoadDescription := "加载模型"
  const CloudOnlyMessage := "只能对点云应用密度设置"
  const NoModelMessage := "没有加载模型"

  /** The state `__init__` leaves behind. */
  function Init(): (m: Manager)
    ensures Valid(m)
  {
    Manager(None, None, H.Cleared())
  }

  /** The tag names the geometry's kind. */
  predicate Matches(g: Geometry, t: ModelType)
  {
    g.Cloud? <==> t == TypePcd
  }

  /** The snapshot has the layout `add_to_history` uses for the tag. */
  predicate Fits(s: Snapshot, t: ModelType)
  {
    s.CloudSnapshot? <==> t == TypePcd
  }

  /** The positions of a model: a cloud's points or a mesh's vertices. */
  function Positions(g: Geometry): seq<Vec3>
  {
    match g
    case Cloud(pc) => pc.points
    case Mesh(m) => m.vertices
  }

  /** What `_restore_state` guarantees: the geometry holds the snapshot's
      positions (and triangles), and its colours where the snapshot
      recorded colours. */
  predicate Agrees(g: Geometry, s: Snapshot)
  {
    match g
    case Cloud(pc) =>
      && s.CloudSnapshot? && pc.points == s.points
      && (s.colors.Some? ==> pc.colors == s.colors.value)
    case Mesh(m) =>
      && s.MeshSnapshot? && m.vertices == s.vertices && m.triangles == s.triangles
      && (s.vertexColors.Some? ==> m.vertexColors == s.vertexColors.value)
  }

  /** The snapshot is the copy `add_to_history` takes of `g`: it agrees with
      `g`, and colours are recorded exactly when `g` has them. */
  predicate Captures(g: Geometry, s: Snapshot)
  {
    && Agrees(g, s)
    && match g
       case Cloud(pc) => s.colors.Some? <==> HasColors(pc)
       case Mesh(m) => s.vertexColors.Some? <==> HasVertexColors(m)
  }

  /** The structural invariant: a model and its tag are set together and
      agree in kind, every snapshot has the model's layout, and the history
      is empty exactly when no model was ever set. */
  predicate Shaped(m: Manager)
  {
    && H.Valid(m.history)
    && (m.model.None? <==> m.modelType.None?)
    && (m.model.None? ==> m.history.entries == [])
    && (m.model.Some? ==>
          && Matches(m.model.value, m.modelType.value)
          && forall i :: 0 <= i < |m.history.entries| ==> Fits(m.history.entries[i], m.modelType.value))
  }

  /** The class invariant: shaped, and once a model is set the index names
      an entry the model agrees with. */
  predicate Valid(m: Manager)
  {
    && Shaped(m)
    && (m.model.Some? ==> m.history.index >= 0 && Agrees(m.model.value, m.history.entries[m.history.index]))
  }

  /** `add_to_history`: push a copy of the current model described by
      `description`; with no type tag set only the redo branch is pruned. */
  function AddToHistory(m: Manager, description: string): (r: Manager)
    requires Shaped(m)
    ensures Valid(r)
    ensures r.model == m.model && r.modelType == m.modelType
    ensures m.model.None? ==> r.history == m.history
    ensures m.model.Some? ==>
              var newest := r.history.entries[r.history.index];
              && r.history == H.Push(m.history, newest)
              && newest.description == description
              && Captures(m.model.value, newest)
  {
    match m.modelType
    case None => m.(history := H.Truncate(m.history))
    case Some(TypePcd) =>
      var pc := m.model.value.cloud;
      var colors := if HasColors(pc) then Some(pc.colors) else None;
      m.(history := H.Push(m.history, CloudSnapshot(description, pc.points, colors)))
    case Some(TypeMesh) =>
      var mesh := m.model.value.mesh;
      var colors := if HasVertexColors(mesh) then Some(mesh.vertexColors) else None;
      m.(history := H.Push(m.history, MeshSnapshot(description, mesh.vertices, mesh.triangles, colors)))
  }

  /** `set_model`: replace the model and tag, clear the history and record
      the loaded state as its only entry. Emits nothing. */
  function SetModel(m: Manager, g: Geometry, t: ModelType): (r: Manager)
    requires Matches(g, t)
    ensures Valid(r)
    ensures r.model == Some(g) && r.modelType == Some(t)
    ensures |r.history.entries| == 1 && r.history.index == 0
    ensures r.history.entries[0].description == LoadDescription
    ensures Captures(g, r.history.entries[0])
    ensures !H.CanUndo(r.history) && !H.CanRedo(r.history)
  {
    AddToHistory(Manager(Some(g), Some(t), H.Cleared()), LoadDescription)
  }

  /** `_restore_state`'s update of the geometry: positions (and triangles)
      are overwritten; colours only when the snapshot recorded them;
      normals are never touched. */
  function Restore(g: Geometry, s: Snapshot): (r: Geometry)
    requires g.Cloud? <==> s.CloudSnapshot?
    ensures Agrees(r, s)
    ensures Captures(g, s) ==> r == g
    ensures r.Cloud? ==> r.cloud.normals == g.cloud.normals
    ensures r.Cloud? && s.colors.None? ==> r.cloud.colors == g.cloud.colors
    ensures r.Mesh? ==> r.mesh.triangleNormals == g.mesh.triangleNormals
    ensures r.Mesh? && s.vertexColors.None? ==> r.mesh.vertexColors == g.mesh.vertexColors
  {
    match g
    case Cloud(pc) =>
      var moved := pc.(points := s.points);
      Cloud(if s.colors.Some? then moved.(colors := s.colors.value) else moved)
    case Mesh(mesh) =>
      var moved := mesh.(vertices := s.vertices, triangles := s.triangles);
      Mesh(if s.vertexColors.Some? then moved.(vertexColors := s.vertexColors.value) else moved)
  }

  /** `_restore_state(index)`: dispatch on the type tag. */
  function RestoreState(m: Manager, index: int): (r: Manager)
    requires Shaped(m) && 0 <= index < |m.history.entries|
    ensures r.history == m.history && r.modelType == m.modelType
    ensures r.model.Some? && Agrees(r.model.value, m.history.entries[index])
  {
    match m.modelType
    case None => m
    case Some(_) => m.(model := Some(Restore(m.model.value, m.history.entries[index])))
  }

  /** `undo`: refused (False, nothing changes, nothing emitted) unless the
      index is above 0; otherwise the index steps back by one, that entry is
      restored into the model, and `model_updated` then `edit_applied` fire. */
  function Undo(m: Manager): (r: Outcome)
    requires Valid(m)
    ensures Valid(r.manager)
    ensures r.ok <==> m.history.index > 0
    ensures !r.ok ==> r.manager == m && r.events == []
    ensures r.ok ==>
              && r.manager.history.entries == m.history.entries
              && r.manager.history.index == m.history.index - 1
              && r.manager.modelType == m.modelType
              && Agrees(r.manager.model.value, m.history.entries[m.history.index - 1])
              && r.events == [ModelUpdated, EditApplied("撤销: " + m.history.entries[m.history.index - 1].description)]
  {
    if !H.CanUndo(m.history) then Outcome(m, false, [])
    else
      var h := H.Undo(m.history);
      var restored := RestoreState(m.(history := h), h.index);
      Outcome(restored, true, [ModelUpdated, EditApplied("撤销: " + h.entries[h.index].description)])
  }

  /** `redo`: refused unless the index is below the last entry; otherwise
      the index steps forward by one and that entry is restored. */
  function Redo(m: Manager): (r: Outcome)
    requires Valid(m)
    ensures Valid(r.manager)
    ensures r.ok <==> m.history.index < |m.history.entries| - 1
    ensures !r.ok ==> r.manager == m && r.events == []
    ensures r.ok ==>
              && r.manager.history.entries == m.history.entries
              && r.manager.history.index == m.history.index + 1
              && r.manager.modelType == m.modelType
              && Agrees(r.manager.model.value, m.history.entries[m.history.index + 1])
              && r.events == [ModelUpdated, EditApplied("重做: " + m.history.entries[m.history.index + 1].description)]
  {
    if !H.CanRedo(m.history) then Outcome(m, false, [])
    else
      var h := H.Redo(m.history);
      var restored := RestoreState(m.(history := h), h.index);
      Outcome(restored, true, [ModelUpdated, EditApplied("重做: " + h.entries[h.index].description)])
  }

  /** The voxel edge length for a density level: "低" (low) 0.04, "高"
      (high) 0.01, anything else 0.02. A denser level keeps a smaller voxel. */
  function VoxelSize(level: string): (size: real)
    ensures size > 0.0
    ensures level == "低" ==> size == 0.04
    ensures level == "高" ==> size == 0.01
    ensures level != "低" && level != "高" ==> size == 0.02
  {
    if level == "低" then 0.04
    else if level == "高" then 0.01
    else 0.02
  }

  /** `apply_density`: only a loaded point cloud qualifies; the cloud's
      points and colours are replaced by Open3D's voxel downsampling at the
      level's voxel size (`downsample`, which may raise), and one snapshot
      is pushed. Normals are left as they were. */
  function ApplyDensity(m: Manager, level: string, downsample: (PointCloud, real) -> Attempt<PointCloud>): (r: Outcome)
    requires Valid(m)
    ensures Valid(r.manager)
    ensures m.model.None? || m.modelType != Some(TypePcd) ==>
              r == Outcome(m, false, [OperationError(CloudOnlyMessage)])
    ensures m.modelType == Some(TypePcd) ==>
              var pc := m.model.value.cloud;
              match downsample(pc, VoxelSize(level))
              case Raised(e) => r == Outcome(m, false, [OperationError("应用密度时出错: " + e)])
              case Returned(d) =>
                && r.ok
                && r.manager.model == Some(Cloud(PointCloud(d.points, d.colors, pc.normals)))
                && r.manager.history == H.Push(m.history, r.manager.history.entries[r.manager.history.index])
                && r.manager.history.entries[r.manager.history.index].description == "应用密度: " + level
                && r.events == [ModelUpdated, EditApplied("已应用密度: " + level)]
  {
    if m.model.None? || m.modelType != Some(TypePcd) then
      Outcome(m, false, [OperationError(CloudOnlyMessage)])
    else
      var pc := m.model.value.cloud;
      match downsample(pc, VoxelSize(level))
      case Raised(e) => Outcome(m, false, [OperationError("应用密度时出错: " + e)])
      case Returned(d) =>
        var updated := m.(model := Some(Cloud(pc.(points := d.points, colors := d.colors))));
        Outcome(AddToHistory(updated, "应用密度: " + level), true,
                [ModelUpdated, EditApplied("已应用密度: " + level)])
  }

  /** The shared shape of `apply_aesthetic_alignment` and `apply_edit`:
      refuse without a model, otherwise leave the geometry as it is and push
      one snapshot of it. */
  function RecordOperation(m: Manager, description: string, applied: string): (r: Outcome)
    requires Valid(m)
    ensures Valid(r.manager)
    ensures r.ok <==> m.model.Some?
    ensures !r.ok ==> r == Outcome(m, false, [OperationError(NoModelMessage)])
    ensures r.ok ==> r.manager.model == m.model && r.manager.modelType == m.modelType
    ensures r.ok ==>
              var newest := r.manager.history.entries[r.manager.history.index];
              && r.manager.history == H.Push(m.history, newest)
              && newest.description == description
              && Captures(m.model.value, newest)
              && r.events == [ModelUpdated, EditApplied(applied)]
  {
    if m.model.None? then Outcome(m, false, [OperationError(NoModelMessage)])
    else Outcome(AddToHistory(m, description), true, [ModelUpdated, EditApplied(applied)])
  }

  /** `apply_aesthetic_alignment`: a placeholder that records history only. */
  function ApplyAestheticAlignment(m: Manager, option: string): (r: Outcome)
    requires Valid(m)
    ensures Valid(r.manager)
    ensures r.ok <==> m.model.Some?
    ensures !r.ok ==> r == Outcome(m, false, [OperationError(NoModelMessage)])
    ensures r.ok ==> r.manager.model == m.model && r.manager.modelType == m.modelType
    ensures r.ok ==>
              var newest := r.manager.history.entries[r.manager.history.index];
              && r.manager.history == H.Push(m.history, newest)
              && newest.description == "应用美学对齐: " + option
              && Captures(m.model.value, newest)
              && r.events == [ModelUpdated, EditApplied("已应用美学对齐: " + option)]
  {
    RecordOperation(m, "应用美学对齐: " + option, "已应用美学对齐: " + option)
  }

  /** `apply_edit`: a framework that records history only; the edit data is
      not read. */
  function ApplyEdit(m: Manager, editType: string): (r: Outcome)
    requires Valid(m)
    ensures Valid(r.manager)
    ensures r.ok <==> m.model.Some?
    ensures !r.ok ==> r == Outcome(m, false, [OperationError(NoModelMessage)])
    ensures r.ok ==> r.manager.model == m.model && r.manager.modelType == m.modelType
    ensures r.ok ==>
              var newest := r.manager.history.entries[r.manager.history.index];
              && r.manager.history == H.Push(m.history, newest)
              && newest.description == "应用编辑: " + editType
              && Captures(m.model.value, newest)
              && r.events == [ModelUpdated, EditApplied("已应用编辑: " + editType)]
  {
    RecordOperation(m, "应用编辑: " + editType, "已应用编辑: " + editType)
  }

  /** The dictionary `get_model_info` returns. */
  datatype Info =
    | NotLoaded
    | CloudInfo(pointsCount: nat, hasColors: bool, hasNormals: bool, dimensions: Vec3)
    | MeshInfo(verticesCount: nat, trianglesCount: nat, hasVertexColors: bool,
               hasTriangleNormals: bool, dimensions: Vec3)

  /** numpy's error for `min` over an empty array. */
  const EmptyReduction := "zero-size array to reduction operation minimum which has no identity"

  /** The information `get_model_info` reports about a loaded cloud:
      counts and presence flags, and the bounding-box extent, which numpy
      cannot compute for an empty cloud (it raises). */
  function CloudInfoOf(pc: PointCloud): (r: Attempt<Info>)
    ensures r.Raised? <==> |pc.points| == 0
    ensures r.Returned? ==> r.value.CloudInfo?
    ensures r.Returned? ==> r.value.pointsCount == |pc.points|
    ensures r.Returned? ==> r.value.hasColors == HasColors(pc) && r.value.hasNormals == HasNormals(pc)
    ensures r.Returned? ==> r.value.dimensions == Extent(pc.points)
    ensures r.Returned? ==> Encloses(pc.points, r.value.dimensions)
  {
    if |pc.points| == 0 then Raised(EmptyReduction)
    else Returned(CloudInfo(|pc.points|, HasColors(pc), HasNormals(pc), Extent(pc.points)))
  }

  /** The information `get_model_info` reports about a loaded mesh. */
  function MeshInfoOf(mesh: TriangleMesh): (r: Attempt<Info>)
    ensures r.Raised? <==> |mesh.vertices| == 0
    ensures r.Returned? ==> r.value.MeshInfo?
    ensures r.Returned? ==> r.value.verticesCount == |mesh.vertices| && r.value.trianglesCount == |mesh.triangles|
    ensures r.Returned? ==> r.value.hasVertexColors == HasVertexColors(mesh)
    ensures r.Returned? ==> r.value.hasTriangleNormals == HasTriangleNormals(mesh)
    ensures r.Returned? ==> r.value.dimensions == Extent(mesh.vertices)
    ensures r.Returned? ==> Encloses(mesh.vertices, r.value.dimensions)
  {
    if |mesh.vertices| == 0 then Raised(EmptyReduction)
    else Returned(MeshInfo(|mesh.vertices|, |mesh.triangles|, HasVertexColors(mesh),
                           HasTriangleNormals(mesh), Extent(mesh.vertices)))
  }

  /** `get_model_info`: a status marker without a model; otherwise the
      report for the model's kind, chosen by the type tag. */
  function GetModelInfo(m: Manager): (r: Attempt<Info>)
    requires Shaped(m)
    ensures r == Returned(NotLoaded) <==> m.model.None?
    ensures m.modelType == Some(TypePcd) ==> r == CloudInfoOf(m.model.value.cloud)
    ensures m.modelType == Some(TypeMesh) ==> r == MeshInfoOf(m.model.value.mesh)
  {
    match m.modelType
    case None => Returned(NotLoaded)
    case Some(TypePcd) => CloudInfoOf(m.model.value.cloud)
    case Some(TypeMesh) => MeshInfoOf(m.model.value.mesh)
  }

  /** Undo right after a successful density change puts the point positions
      back to what they were before it, even when the push evicted the
      oldest entry; colours come back too when they had been recorded. */
  lemma DensityThenUndoRestores(m: Manager, level: string, downsample: (PointCloud, real) -> Attempt<PointCloud>)
    requires Valid(m) && m.modelType == Some(TypePcd)
    requires downsample(m.model.value.cloud, VoxelSize(level)).Returned?
    ensures ApplyDensity(m, level, downsample).ok
    ensures Undo(ApplyDensity(m, level, downsample).manager).ok
    ensures var u := Undo(ApplyDensity(m, level, downsample).manager).manager;
            && u.model.value.cloud.points == m.model.value.cloud.points
            && Agrees(u.model.value, m.history.entries[m.history.index])
  {
    var d := ApplyDensity(m, level, downsample).manager;
    var i := m.history.index;
    var j := d.history.index;
    assert j == |d.history.entries| - 1;
    assert d.history.entries[j - 1] == m.history.entries[i];
  }

  /** `h` is `before` with a density entry for `level` pushed, giving
      `mid`, and then an alignment entry for `option` pushed on top of it;
      with room left in `before` nothing older is evicted. */
  predicate StackedPushes(before: H.History<Snapshot>, mid: H.History<Snapshot>, h: H.History<Snapshot>,
                          level: string, option: string)
  {
    && H.Valid(before) && H.Valid(mid) && 0 <= mid.index
    && mid == H.Push(before, mid.entries[mid.index])
    && mid.entries[mid.index].description == "应用密度: " + level
    && 1 <= h.index < |h.entries|
    && h == H.Push(mid, h.entries[h.index])
    && h.entries[h.index].description == "应用美学对齐: " + option
    && h.entries[h.index - 1] == mid.entries[mid.index]
    && (before.index + 3 <= H.MaxHistory ==>
          && h.index == before.index + 2
          && h.entries[..h.index - 1] == before.entries[..before.index + 1])
  }

  /** On a point cloud whose downsampling succeeds, a density step followed
      by an alignment step is exactly two pushes, the alignment entry on top
      of the density entry, and both report success. */
  lemma DensityThenAlignment(m: Manager, level: string, option: string,
                             downsample: (PointCloud, real) -> Attempt<PointCloud>)
    requires Valid(m) && m.modelType == Some(TypePcd)
    requires downsample(m.model.value.cloud, VoxelSize(level)).Returned?
    ensures StackedPushes(m.history, ApplyDensity(m, level, downsample).manager.history,
                          ApplyAestheticAlignment(ApplyDensity(m, level, downsample).manager, option).manager.history,
                          level, option)
    ensures ApplyDensity(m, level, downsample).events == [ModelUpdated, EditApplied("已应用密度: " + level)]
    ensures ApplyAestheticAlignment(ApplyDensity(m, level, downsample).manager, option).events ==
              [ModelUpdated, EditApplied("已应用美学对齐: " + option)]
  {
    var o1 := ApplyDensity(m, level, downsample);
    var o2 := ApplyAestheticAlignment(o1.manager, option);
    var h1 := o1.manager.history;
    var h2 := o2.manager.history;
    assert h2 == H.Push(h1, h2.entries[h2.index]);
    assert h2.entries[h2.index - 1] == h1.entries[h1.index];
    if m.history.index + 3 <= H.MaxHistory {
      assert h2.entries[..h2.index - 1] == h1.entries[..h1.index];
      assert h1.entries[..h1.index] == m.history.entries[..m.history.index + 1];
    }
  }

  /** A density step that changes the number of points leaves the old
      normals behind with the wrong length, so a cloud that had normals
      stops reporting them. */
  lemma DensityDropsStaleNormals(m: Manager, level: string, downsample: (PointCloud, real) -> Attempt<PointCloud>)
    requires Valid(m) && m.modelType == Some(TypePcd) && HasNormals(m.model.value.cloud)
    requires downsample(m.model.value.cloud, VoxelSize(level)).Returned?
    requires |downsample(m.model.value.cloud, VoxelSize(level)).value.points| != |m.model.value.cloud.points|
    ensures var d := ApplyDensity(m, level, downsample).manager;
            && d.model.value.cloud.normals == m.model.value.cloud.normals
            && !HasNormals(d.model.value.cloud)
            && (GetModelInfo(d).Returned? ==> !GetModelInfo(d).value.hasNormals)
  {
  }

  /** Undo and redo are inverse on the whole manager: the history is
      restored, and so are the model's positions. */
  lemma UndoThenRedo(m: Manager)
    requires Valid(m) && m.history.index > 0
    ensures Redo(Undo(m).manager).ok
    ensures Redo(Undo(m).manager).manager.history == m.history
    ensures Positions(Redo(Undo(m).manager).manager.model.value) == Positions(m.model.value)
  {
  }
}
