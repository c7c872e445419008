/** gui/sidebar.py: the control panel's three checkable tool buttons, kept
    mutually exclusive by `_on_tool_activated`, and the properties panel's
    model-information labels. */
module Sidebar {
  import opened Base
  import Geometry
  import MM = ModelManager

  /** The checked state of the three tool buttons. */
  datatype ToolButtons = ToolButtons(pen: bool, user: bool, edit3d: bool)

  const ToolIds: seq<string> := ["pen", "user", "edit3d"]

  /** The checked state of the button with the given id (false for an id
      no button has). */
  function Checked(b: ToolButtons, id: string): bool
  {
    if id == "pen" then b.pen else if id == "user" then b.user else if id == "edit3d" then b.edit3d else false
  }

  /** No two buttons are checked. */
  predicate AtMostOne(b: ToolButtons)
  {
    && !(b.pen && b.user) && !(b.pen && b.edit3d) && !(b.user && b.edit3d)
  }

  /** `_on_tool_activated(tool_id, checked)`: on activation every other
      button is unchecked and `tool_activated(tool_id)` is emitted; on
      deactivation nothing happens. */
  function OnToolActivated(b: ToolButtons, toolId: string, checked: bool): (res: (ToolButtons, Option<string>))
    ensures res.1.Some? <==> checked
    ensures checked ==> res.1 == Some(toolId)
    ensures !checked ==> res.0 == b
    ensures checked ==> forall id :: id in ToolIds && id != toolId ==> !Checked(res.0, id)
    ensures checked ==> Checked(res.0, toolId) == Checked(b, toolId)
  {
    if checked then
      var b1 := if toolId != "pen" then b.(pen := false) else b;
      var b2 := if toolId != "user" then b1.(user := false) else b1;
      var b3 := if toolId != "edit3d" then b2.(edit3d := false) else b2;
      (b3, Some(toolId))
    else (b, None)
  }

  /** Toggle the button with the given id, as Qt does on a click. */
  function Toggle(b: ToolButtons, id: string): ToolButtons
  {
    if id == "pen" then b.(pen := !b.pen)
    else if id == "user" then b.(user := !b.user)
    else if id == "edit3d" then b.(edit3d := !b.edit3d)
    else b
  }

  /** A click on one of the three buttons: Qt toggles it, then the lambda
      passes the new checked state to `_on_tool_activated`. */
  function Click(b: ToolButtons, id: string): (res: (ToolButtons, Option<string>))
    requires id in ToolIds
    ensures Checked(res.0, id) == !Checked(b, id)
    ensures res.1.Some? <==> !Checked(b, id)
  {
    OnToolActivated(Toggle(b, id), id, Checked(Toggle(b, id), id))
  }

  /** After a click that checks a button, it is the only checked one. */
  lemma ActivationIsExclusive(b: ToolButtons, id: string)
    requires id in ToolIds && !Checked(b, id)
    ensures var r := Click(b, id).0;
            Checked(r, id) && forall other :: other in ToolIds && other != id ==> !Checked(r, other)
  {
  }

  /** A run of clicks, oldest first. */
  function Clicks(b: ToolButtons, ids: seq<string>): ToolButtons
    requires forall i :: 0 <= i < |ids| ==> ids[i] in ToolIds
    decreases |ids|
  {
    if |ids| == 0 then b else Clicks(Click(b, ids[0]).0, ids[1..])
  }

  /** At most one tool is ever checked, given that the panel's three
      buttons are the only tools and it started that way. */
  lemma {:induction false} AtMostOneKept(b: ToolButtons, ids: seq<string>)
    requires AtMostOne(b)
    requires forall i :: 0 <= i < |ids| ==> ids[i] in ToolIds
    ensures AtMostOne(Clicks(b, ids))
    decreases |ids|
  {
    if |ids| > 0 {
      var b1 := Click(b, ids[0]).0;
      assert AtMostOne(b1);
      AtMostOneKept(b1, ids[1..]);
    }
  }

  /** The counts label: a number or "-". */
  datatype CountText = NoCount | Count(n: nat)

  /** The dimensions label: three extents or "-". */
  datatype DimsText = NoDims | Dims(d: Vec3)

  /** The three labels of the model-information group. */
  datatype Labels = Labels(typeText: string, count: CountText, dims: DimsText)

  /** The labels as the panel is built. */
  function Unloaded(): Labels
  {
    Labels("未加载", NoCount, NoDims)
  }

  /** `update_info` with what `get_model_info` produced: "点云" exactly for a
      'pcd' report and "网格" for any other type, the point or vertex count,
      and the extents; "未加载", "-", "-" when no type is reported. An
      exception from `get_model_info` propagates before any label changes. */
  function UpdateInfo(info: Attempt<MM.Info>): (r: Attempt<Labels>)
    ensures r.Raised? <==> info.Raised?
    ensures info == Returned(MM.NotLoaded) ==> r == Returned(Unloaded())
    ensures r.Returned? && info.value.CloudInfo? ==>
              r.value == Labels("点云", Count(info.value.pointsCount), Dims(info.value.dimensions))
    ensures r.Returned? && info.value.MeshInfo? ==>
              r.value == Labels("网格", Count(info.value.verticesCount), Dims(info.value.dimensions))
  {
    match info
    case Raised(e) => Raised(e)
    case Returned(i) =>
      if i.NotLoaded? then Returned(Unloaded())
      else if i.CloudInfo? then Returned(Labels("点云", Count(i.pointsCount), Dims(i.dimensions)))
      else Returned(Labels("网格", Count(i.verticesCount), Dims(i.dimensions)))
  }

  /** What the panel shows for a manager: the model's kind, its number of
      positions and the bounding-box extent of those positions, which the
      label prints to two decimals. */
  lemma PanelDescribesModel(m: MM.Manager)
    requires MM.Shaped(m) && m.model.Some? && |MM.Positions(m.model.value)| > 0
    ensures UpdateInfo(MM.GetModelInfo(m)).Returned?
    ensures var l := UpdateInfo(MM.GetModelInfo(m)).value;
            && (l.typeText == "点云" <==> m.modelType == Some(MM.TypePcd))
            && l.count == Count(|MM.Positions(m.model.value)|)
            && l.dims == Dims(Geometry.Extent(MM.Positions(m.model.value)))
            && Geometry.Encloses(MM.Positions(m.model.value), l.dims.d)
  {
  }
}
