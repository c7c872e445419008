/** The geometry containers the application hands around (Open3D's
    `PointCloud` and `TriangleMesh`), reduced to the fields the logic reads
    and writes, plus the axis-aligned extent that `get_model_info` reports. */
module Geometry {
  import opened Base

  /** One triangle: three vertex indices (Open3D's `Vector3iVector` row). */
  datatype Triangle = Triangle(a: int, b: int, c: int)

  datatype PointCloud = PointCloud(points: seq<Vec3>, colors: seq<Vec3>, normals: seq<Vec3>)

  datatype TriangleMesh = TriangleMesh(
    vertices: seq<Vec3>,
    triangles: seq<Triangle>,
    vertexColors: seq<Vec3>,
    triangleNormals: seq<Vec3>)

  /** A loaded model is one or the other. */
  datatype Geometry = Cloud(cloud: PointCloud) | Mesh(mesh: TriangleMesh)

  /** Open3D reports a per-point (per-vertex, per-triangle) attribute as
      present when the elements it belongs to exist and the attribute array
      has exactly one entry for each of them; a stale array of another size
      counts as absent. */
  predicate HasColors(pc: PointCloud) { |pc.points| > 0 && |pc.colors| == |pc.points| }
  predicate HasNormals(pc: PointCloud) { |pc.points| > 0 && |pc.normals| == |pc.points| }
  predicate HasVertexColors(m: TriangleMesh) { |m.vertices| > 0 && |m.vertexColors| == |m.vertices| }
  predicate HasTriangleNormals(m: TriangleMesh) { |m.triangles| > 0 && |m.triangleNormals| == |m.triangles| }

  /** Open3D's `is_empty` on a mesh: it has no vertices. */
  predicate MeshIsEmpty(m: TriangleMesh) { |m.vertices| == 0 }

  /** The smallest value of a non-empty sequence. */
  function Min(s: seq<real>): (m: real)
    requires |s| > 0
    ensures forall i :: 0 <= i < |s| ==> m <= s[i]
    ensures m in s
  {
    if |s| == 1 then s[0]
    else
      var rest := Min(s[1..]);
      assert rest in s;
      if s[0] <= rest then s[0] else rest
  }

  /** The largest value of a non-empty sequence. */
  function Max(s: seq<real>): (m: real)
    requires |s| > 0
    ensures forall i :: 0 <= i < |s| ==> s[i] <= m
    ensures m in s
  {
    if |s| == 1 then s[0]
    else
      var rest := Max(s[1..]);
      assert rest in s;
      if rest <= s[0] then s[0] else rest
  }

  function Xs(ps: seq<Vec3>): (r: seq<real>)
    ensures |r| == |ps| && forall i :: 0 <= i < |ps| ==> r[i] == ps[i].x
  {
    seq(|ps|, i requires 0 <= i < |ps| => ps[i].x)
  }

  function Ys(ps: seq<Vec3>): (r: seq<real>)
    ensures |r| == |ps| && forall i :: 0 <= i < |ps| ==> r[i] == ps[i].y
  {
    seq(|ps|, i requires 0 <= i < |ps| => ps[i].y)
  }

  function Zs(ps: seq<Vec3>): (r: seq<real>)
    ensures |r| == |ps| && forall i :: 0 <= i < |ps| ==> r[i] == ps[i].z
  {
    seq(|ps|, i requires 0 <= i < |ps| => ps[i].z)
  }

  /** The spread of one coordinate: the largest difference between two of
      the values, which is attained and never negative. */
  function Spread(s: seq<real>): (d: real)
    requires |s| > 0
    ensures d >= 0.0
    ensures forall i, j :: 0 <= i < |s| && 0 <= j < |s| ==> s[i] - s[j] <= d
    ensures exists i, j :: 0 <= i < |s| && 0 <= j < |s| && s[i] - s[j] == d
  {
    var hi := Max(s);
    var lo := Min(s);
    var i :| 0 <= i < |s| && s[i] == hi;
    var j :| 0 <= j < |s| && s[j] == lo;
    assert s[i] - s[j] == hi - lo;
    hi - lo
  }

  /** `d` is a non-negative extent no pair of positions exceeds on any axis. */
  predicate Encloses(ps: seq<Vec3>, d: Vec3)
  {
    && d.x >= 0.0 && d.y >= 0.0 && d.z >= 0.0
    && forall i, j :: 0 <= i < |ps| && 0 <= j < |ps| ==>
         ps[i].x - ps[j].x <= d.x && ps[i].y - ps[j].y <= d.y && ps[i].z - ps[j].z <= d.z
  }

  /** `max_bound - min_bound` of a non-empty point set, per axis: the
      tightest enclosing extent, since each component is attained. */
  function Extent(ps: seq<Vec3>): (d: Vec3)
    requires |ps| > 0
    ensures Encloses(ps, d)
    ensures exists i, j :: 0 <= i < |ps| && 0 <= j < |ps| && ps[i].x - ps[j].x == d.x
    ensures exists i, j :: 0 <= i < |ps| && 0 <= j < |ps| && ps[i].y - ps[j].y == d.y
    ensures exists i, j :: 0 <= i < |ps| && 0 <= j < |ps| && ps[i].z - ps[j].z == d.z
  {
    Vec3(Spread(Xs(ps)), Spread(Ys(ps)), Spread(Zs(ps)))
  }
}
