/**
 * What the icosahedron generator's buffers hold, as functions of its inputs.
 *
 * The mesh is described as 20 faces. A face names three of the 12 base vertices
 * and, for each, an anchor of the 2048x1024 texture atlas. Every buffer the generator
 * fills (positions, normals, texture coordinates) is the concatenation, face by face,
 * of that face's data; the index buffers and the interleaved buffer have their own
 * closed forms. The class in module IcosahedronMesh is proved to build exactly these.
 */
module MeshLayout {
  import opened Geometry

  // ---------------------------------------------------------------------------
  // Base vertices (computeVertices)
  // ---------------------------------------------------------------------------

  /** The value of pi that computeVertices uses. */
  const PI: real := 3.1415926
  /** 72 degrees: the azimuth step between ring vertices. */
  const H_ANGLE: real := PI / 180.0 * 72.0
  /** Horizontal and vertical steps of the texture atlas. */
  const S_STEP: real := 186.0 / 2048.0
  const T_STEP: real := 322.0 / 1024.0

  /** The elevation of the two rings, atan(1/2). */
  function VAngle(m: MathLib): real {
    m.atan(1.0 / 2.0)
  }

  /**
   * Base vertex k of the icosahedron of radius r: the north pole (k = 0), the upper
   * ring (1..5, azimuths from -126 degrees in steps of 72), the lower ring (6..10,
   * azimuths from -90 degrees) and the south pole (11).
   */
  function BaseVertex(m: MathLib, r: real, k: nat): (v: Vec3)
    requires k < 12
    ensures k == 0 ==> v == Vec3(0.0, 0.0, r)
    ensures k == 11 ==> v == Vec3(0.0, 0.0, -r)
    ensures 1 <= k <= 5 ==> v.z == r * m.sin(VAngle(m))
    ensures 6 <= k <= 10 ==> v.z == -(r * m.sin(VAngle(m)))
  {
    var z := r * m.sin(VAngle(m));
    var xy := r * m.cos(VAngle(m));
    if k == 0 then
      Vec3(0.0, 0.0, r)
    else if k <= 5 then
      var hAngle1 := -PI / 2.0 - H_ANGLE / 2.0 + (k - 1) as real * H_ANGLE;
      Vec3(xy * m.cos(hAngle1), xy * m.sin(hAngle1), z)
    else if k <= 10 then
      var hAngle2 := -PI / 2.0 + (k - 6) as real * H_ANGLE;
      Vec3(xy * m.cos(hAngle2), xy * m.sin(hAngle2), -z)
    else
      Vec3(0.0, 0.0, -r)
  }

  /**
   * Ring step i of computeVertices: with the azimuths h1, h2 it has reached and the
   * ring's xy-radius and height, vertex i of the upper ring and vertex i + 5 of the
   * lower ring are the base vertices.
   */
  lemma RingVertices(m: MathLib, r: real, i: nat, h1: real, h2: real, xy: real, z: real)
    requires 1 <= i <= 5
    requires h1 == -PI / 2.0 - H_ANGLE / 2.0 + (i - 1) as real * H_ANGLE
    requires h2 == -PI / 2.0 + (i - 1) as real * H_ANGLE
    requires xy == r * m.cos(VAngle(m)) && z == r * m.sin(VAngle(m))
    ensures BaseVertex(m, r, i) == Vec3(xy * m.cos(h1), xy * m.sin(h1), z)
    ensures BaseVertex(m, r, i + 5) == Vec3(xy * m.cos(h2), xy * m.sin(h2), -z)
  {
    assert (i + 5 - 6) as real == (i - 1) as real;
  }

  /**
   * One ring step of computeVertices, with its six writes in program order:
   * if vertex 0 and the ring vertices before i are in place, then afterwards vertices
   * 1..i and 6..i + 5 are too.
   */
  lemma RingStep(m: MathLib, r: real, vs: seq<real>, w: seq<real>, i: nat, i1: nat, i2: nat,
                 h1: real, h2: real, xy: real, z: real, x1: real, x2: real, y1: real, y2: real)
    requires |vs| == 36 && 1 <= i <= 5 && i1 == 3 * i && i2 == 3 * (i + 5)
    requires h1 == -PI / 2.0 - H_ANGLE / 2.0 + (i - 1) as real * H_ANGLE
    requires h2 == -PI / 2.0 + (i - 1) as real * H_ANGLE
    requires xy == r * m.cos(VAngle(m)) && z == r * m.sin(VAngle(m))
    requires Vec3At(vs, 0) == BaseVertex(m, r, 0)
    requires forall k :: 1 <= k < i ==> Vec3At(vs, k) == BaseVertex(m, r, k)
    requires forall k :: 6 <= k < i + 5 ==> Vec3At(vs, k) == BaseVertex(m, r, k)
    requires x1 == xy * m.cos(h1) && x2 == xy * m.cos(h2) && y1 == xy * m.sin(h1) && y2 == xy * m.sin(h2)
    requires w == vs[i1 := x1][i2 := x2][i1 + 1 := y1][i2 + 1 := y2][i1 + 2 := z][i2 + 2 := -z]
    ensures |w| == 36
    ensures Vec3At(w, 0) == BaseVertex(m, r, 0)
    ensures forall k :: 1 <= k < i + 1 ==> Vec3At(w, k) == BaseVertex(m, r, k)
    ensures forall k :: 6 <= k < i + 6 ==> Vec3At(w, k) == BaseVertex(m, r, k)
  {
    RingVertices(m, r, i, h1, h2, xy, z);
    assert Vec3At(w, i) == BaseVertex(m, r, i);
    assert Vec3At(w, i + 5) == BaseVertex(m, r, i + 5);
    forall k | 0 <= k < 12 && k != i && k != i + 5
      ensures Vec3At(w, k) == Vec3At(vs, k)
    {
      assert 3 * k + 2 < i1 || i1 + 2 < 3 * k;
      assert 3 * k + 2 < i2 || i2 + 2 < 3 * k;
    }
  }

  /** sin^2 + cos^2 = 1 everywhere: what a faithful maths library would satisfy. */
  ghost predicate Pythagorean(m: MathLib) {
    forall a :: m.sin(a) * m.sin(a) + m.cos(a) * m.cos(a) == 1.0
  }

  /**
   * A point at height z = +-r*s on the ring of radius r*c, at azimuth (ch, sh), is at
   * distance r from the centre when both angle pairs satisfy sin^2 + cos^2 = 1.
   */
  lemma RingPointOnSphere(r: real, s: real, c: real, sh: real, ch: real, z: real)
    requires s * s + c * c == 1.0 && sh * sh + ch * ch == 1.0
    requires z == r * s || z == -(r * s)
    ensures Dot(Vec3(r * c * ch, r * c * sh, z), Vec3(r * c * ch, r * c * sh, z)) == r * r
  {
    var xy := r * c;
    assert z * z == (r * s) * (r * s);
    calc {
      (xy * ch) * (xy * ch) + (xy * sh) * (xy * sh) + (r * s) * (r * s);
      xy * xy * (sh * sh + ch * ch) + r * r * (s * s);
      r * r * (c * c) + r * r * (s * s);
      r * r * (s * s + c * c);
      r * r;
    }
  }

  /** With exact trigonometry every base vertex lies on the sphere of radius r. */
  lemma BaseVertexOnSphere(m: MathLib, r: real, k: nat)
    requires k < 12 && Pythagorean(m)
    ensures Dot(BaseVertex(m, r, k), BaseVertex(m, r, k)) == r * r
  {
    var s, c := m.sin(VAngle(m)), m.cos(VAngle(m));
    if 1 <= k <= 5 {
      var h := -PI / 2.0 - H_ANGLE / 2.0 + (k - 1) as real * H_ANGLE;
      assert BaseVertex(m, r, k) == Vec3(r * c * m.cos(h), r * c * m.sin(h), r * s);
      RingPointOnSphere(r, s, c, m.sin(h), m.cos(h), r * s);
    } else if 6 <= k <= 10 {
      var h := -PI / 2.0 + (k - 6) as real * H_ANGLE;
      assert BaseVertex(m, r, k) == Vec3(r * c * m.cos(h), r * c * m.sin(h), -(r * s));
      RingPointOnSphere(r, s, c, m.sin(h), m.cos(h), -(r * s));
    }
  }

  /** The k-th 3-float record of a flat buffer (a base vertex, a position or a normal). */
  function Vec3At(xs: seq<real>, k: nat): Vec3
    requires 3 * k + 2 < |xs|
  {
    Vec3(xs[3 * k], xs[3 * k + 1], xs[3 * k + 2])
  }

  /** The k-th 2-float record of a flat buffer (a texture coordinate). */
  function Vec2At(xs: seq<real>, k: nat): Vec2
    requires 2 * k + 1 < |xs|
  {
    Vec2(xs[2 * k], xs[2 * k + 1])
  }

  /**
   * Base vertex k of a flat base-vertex buffer. The faces of the mesh only name
   * vertices that exist (FacesUpTo), so the zero fallback is never used by the mesh.
   */
  function Corner(base: seq<real>, k: nat): Vec3 {
    if 3 * k + 2 < |base| then Vec3At(base, k) else Zero
  }

  function Flat3(v: Vec3): seq<real> {
    [v.x, v.y, v.z]
  }

  function Flat2(t: Vec2): seq<real> {
    [t.s, t.t]
  }

  // ---------------------------------------------------------------------------
  // Faces and the texture atlas (buildVertices)
  // ---------------------------------------------------------------------------

  /** An atlas anchor: column `col` in steps of S_STEP, row `row` in steps of T_STEP. */
  datatype Anchor = Anchor(col: nat, row: nat)

  function TexCoordOf(g: Anchor): Vec2 {
    Vec2(g.col as real * S_STEP, g.row as real * T_STEP)
  }

  /** A triangle of the flat-shaded mesh: three base-vertex numbers and their atlas anchors. */
  datatype Face = Face(a: nat, b: nat, c: nat, ta: Anchor, tb: Anchor, tc: Anchor)

  function CornerOf(f: Face, j: nat): nat
    requires j < 3
  {
    if j == 0 then f.a else if j == 1 then f.b else f.c
  }

  function AnchorOf(f: Face, j: nat): Anchor
    requires j < 3
  {
    if j == 0 then f.ta else if j == 1 then f.tb else f.tc
  }

  /** The atlas row of base vertex k: 0 for the north pole, 1 and 2 for the rings, 3 for the south pole. */
  function RowOf(k: nat): nat {
    if k == 0 then 0 else if k <= 5 then 1 else if k <= 10 then 2 else 3
  }

  /**
   * A well-formed face: three distinct base vertices, atlas anchors inside the
   * 12 x 4 grid, and each anchor on the atlas row of its vertex.
   */
  ghost predicate GoodFace(f: Face) {
    && f.a < 12 && f.b < 12 && f.c < 12
    && f.a != f.b && f.b != f.c && f.a != f.c
    && f.ta.col <= 11 && f.tb.col <= 11 && f.tc.col <= 11
    && f.ta.row == RowOf(f.a) && f.tb.row == RowOf(f.b) && f.tc.row == RowOf(f.c)
  }

  /**
   * The four faces of azimuthal sector i (1..5), in the order buildVertices emits them:
   * top row, two middle-row triangles, bottom row. Sector 5 wraps to ring vertices 1 and 6.
   */
  function SectorFaces(i: nat): (fs: seq<Face>)
    requires 1 <= i <= 5
    ensures |fs| == 4 && forall t :: 0 <= t < 4 ==> GoodFace(fs[t])
  {
    var v1 := i;
    var v2 := if i < 5 then i + 1 else 1;
    var v3 := i + 5;
    var v4 := if i + 5 < 10 then i + 6 else 6;
    var t0 := Anchor(2 * i - 1, 0);
    var t1 := Anchor(2 * i - 2, 1);
    var t2 := Anchor(2 * i, 1);
    var t3 := Anchor(2 * i - 1, 2);
    var t4 := Anchor(2 * i + 1, 2);
    var t11 := Anchor(2 * i, 3);
    var fs := [Face(0, v1, v2, t0, t1, t2), Face(v1, v3, v2, t1, t3, t2),
               Face(v2, v3, v4, t2, t3, t4), Face(v3, 11, v4, t3, t11, t4)];
    fs
  }

  /** The faces of sectors 1..n, in emission order: face t is face t % 4 of sector t / 4 + 1. */
  function FacesUpTo(n: nat): (fs: seq<Face>)
    requires n <= 5
    ensures |fs| == 4 * n
    ensures forall t :: 0 <= t < |fs| ==> GoodFace(fs[t])
  {
    seq(4 * n, t requires 0 <= t < 4 * n => SectorFaces(t / 4 + 1)[t % 4])
  }

  /** Emitting sector i after sectors 1..i-1 gives the faces of sectors 1..i. */
  lemma FacesStep(i: nat)
    requires 1 <= i <= 5
    ensures FacesUpTo(i - 1) + SectorFaces(i) == FacesUpTo(i)
  {
    var prev, fs := FacesUpTo(i - 1), FacesUpTo(i);
    forall t | 0 <= t < 4 * i
      ensures (prev + SectorFaces(i))[t] == fs[t]
    {
      if t >= 4 * (i - 1) {
        assert t / 4 + 1 == i && t % 4 == t - 4 * (i - 1);
      }
    }
  }

  /** All 20 faces. */
  function MeshFaces(): (fs: seq<Face>)
    ensures |fs| == 20
  {
    FacesUpTo(5)
  }

  // ---------------------------------------------------------------------------
  // Per-vertex buffers
  // ---------------------------------------------------------------------------

  /** The three per-vertex buffers buildVertices appends to, face by face. */
  datatype Attr = Position | Normal | TexCoord

  ghost predicate GoodFaces(fs: seq<Face>) {
    forall t :: 0 <= t < |fs| ==> GoodFace(fs[t])
  }

  /** The normal buildVertices computes for face f of the base vertices `base`. */
  function FaceNormalOf(m: MathLib, base: seq<real>, f: Face): Vec3 {
    FaceNormal(m, Corner(base, f.a), Corner(base, f.b), Corner(base, f.c))
  }

  /** What one face appends to the buffer `attr`. */
  function FaceData(m: MathLib, base: seq<real>, f: Face, attr: Attr): (d: seq<real>)
    ensures |d| == if attr == TexCoord then 6 else 9
  {
    match attr
    case Position => Flat3(Corner(base, f.a)) + Flat3(Corner(base, f.b)) + Flat3(Corner(base, f.c))
    case Normal =>
      var n := FaceNormalOf(m, base, f);
      Flat3(n) + Flat3(n) + Flat3(n)
    case TexCoord => Flat2(TexCoordOf(f.ta)) + Flat2(TexCoordOf(f.tb)) + Flat2(TexCoordOf(f.tc))
  }

  /**
   * The buffer `attr` after the faces fs have been appended, in order, to an empty one:
   * float k comes from face k / 9 (k / 6 for texture coordinates).
   */
  function Gather(m: MathLib, base: seq<real>, fs: seq<Face>, attr: Attr): (g: seq<real>)
    ensures attr != TexCoord ==> |g| == 9 * |fs|
    ensures attr == TexCoord ==> |g| == 6 * |fs|
  {
    if attr == TexCoord then
      seq(6 * |fs|, k requires 0 <= k < 6 * |fs| => FaceData(m, base, fs[k / 6], attr)[k % 6])
    else
      seq(9 * |fs|, k requires 0 <= k < 9 * |fs| => FaceData(m, base, fs[k / 9], attr)[k % 9])
  }

  /** Appending one more face appends exactly that face's data. */
  lemma GatherSnoc(m: MathLib, base: seq<real>, fs: seq<Face>, f: Face, attr: Attr)
    ensures Gather(m, base, fs + [f], attr) == Gather(m, base, fs, attr) + FaceData(m, base, f, attr)
  {
    var lhs, rhs := Gather(m, base, fs + [f], attr), Gather(m, base, fs, attr) + FaceData(m, base, f, attr);
    var n := |fs|;
    if attr == TexCoord {
      forall k | 0 <= k < 6 * (n + 1)
        ensures lhs[k] == rhs[k]
      {
        if k < 6 * n {
          assert (fs + [f])[k / 6] == fs[k / 6];
        } else {
          assert k / 6 == n && k % 6 == k - 6 * n;
        }
      }
    } else {
      forall k | 0 <= k < 9 * (n + 1)
        ensures lhs[k] == rhs[k]
      {
        if k < 9 * n {
          assert (fs + [f])[k / 9] == fs[k / 9];
        } else {
          assert k / 9 == n && k % 9 == k - 9 * n;
        }
      }
    }
  }

  /** Face t's data sits at offset 9t (positions, normals) or 6t (texture coordinates). */
  lemma GatherAt(m: MathLib, base: seq<real>, fs: seq<Face>, attr: Attr, t: nat)
    requires t < |fs|
    ensures attr != TexCoord ==>
              |Gather(m, base, fs, attr)| == 9 * |fs| && Gather(m, base, fs, attr)[9 * t .. 9 * t + 9] == FaceData(m, base, fs[t], attr)
    ensures attr == TexCoord ==>
              |Gather(m, base, fs, attr)| == 6 * |fs| && Gather(m, base, fs, attr)[6 * t .. 6 * t + 6] == FaceData(m, base, fs[t], attr)
  {
    var g, d := Gather(m, base, fs, attr), FaceData(m, base, fs[t], attr);
    if attr == TexCoord {
      forall c | 0 <= c < 6
        ensures g[6 * t + c] == d[c]
      {
        var k := 6 * t + c;
        assert k / 6 == t && k % 6 == c;
        assert g[k] == FaceData(m, base, fs[k / 6], attr)[k % 6];
      }
      var slice := g[6 * t .. 6 * t + 6];
      assert forall c :: 0 <= c < 6 ==> slice[c] == g[6 * t + c];
    } else {
      forall c | 0 <= c < 9
        ensures g[9 * t + c] == d[c]
      {
        var k := 9 * t + c;
        assert k / 9 == t && k % 9 == c;
        assert g[k] == FaceData(m, base, fs[k / 9], attr)[k % 9];
      }
      var slice := g[9 * t .. 9 * t + 9];
      assert forall c :: 0 <= c < 9 ==> slice[c] == g[9 * t + c];
    }
  }

  lemma ChunkVec3(g: seq<real>, t: nat, d: seq<real>, j: nat)
    requires |d| == 9 && 9 * t + 9 <= |g| && g[9 * t .. 9 * t + 9] == d && j < 3
    ensures Vec3At(g, 3 * t + j) == Vec3At(d, j)
  {
    assert g[9 * t + 3 * j] == d[3 * j];
    assert g[9 * t + 3 * j + 1] == d[3 * j + 1];
    assert g[9 * t + 3 * j + 2] == d[3 * j + 2];
  }

  lemma ChunkVec2(g: seq<real>, t: nat, d: seq<real>, j: nat)
    requires |d| == 6 && 6 * t + 6 <= |g| && g[6 * t .. 6 * t + 6] == d && j < 3
    ensures Vec2At(g, 3 * t + j) == Vec2At(d, j)
  {
    assert g[6 * t + 2 * j] == d[2 * j];
    assert g[6 * t + 2 * j + 1] == d[2 * j + 1];
  }

  /** Corner j of a face's data: its base vertex, the face normal, its atlas coordinate. */
  lemma FaceDataCorner(m: MathLib, base: seq<real>, f: Face, j: nat)
    requires j < 3
    ensures Vec3At(FaceData(m, base, f, Position), j) == Corner(base, CornerOf(f, j))
    ensures Vec3At(FaceData(m, base, f, Normal), j) == FaceNormalOf(m, base, f)
    ensures Vec2At(FaceData(m, base, f, TexCoord), j) == TexCoordOf(AnchorOf(f, j))
  {
  }

  /** Corner j of face t (expanded vertex 3t + j) sits at that corner's base-vertex position. */
  lemma GatherPositionAt(m: MathLib, base: seq<real>, fs: seq<Face>, t: nat, j: nat)
    requires t < |fs| && j < 3
    ensures |Gather(m, base, fs, Position)| == 9 * |fs|
    ensures Vec3At(Gather(m, base, fs, Position), 3 * t + j) == Corner(base, CornerOf(fs[t], j))
  {
    GatherAt(m, base, fs, Position, t);
    ChunkVec3(Gather(m, base, fs, Position), t, FaceData(m, base, fs[t], Position), j);
    FaceDataCorner(m, base, fs[t], j);
  }

  /** Every corner of face t carries the normal of face t. */
  lemma GatherNormalAt(m: MathLib, base: seq<real>, fs: seq<Face>, t: nat, j: nat)
    requires t < |fs| && j < 3
    ensures |Gather(m, base, fs, Normal)| == 9 * |fs|
    ensures Vec3At(Gather(m, base, fs, Normal), 3 * t + j) == FaceNormalOf(m, base, fs[t])
  {
    GatherAt(m, base, fs, Normal, t);
    ChunkVec3(Gather(m, base, fs, Normal), t, FaceData(m, base, fs[t], Normal), j);
    FaceDataCorner(m, base, fs[t], j);
  }

  /** Corner j of face t carries its atlas coordinate. */
  lemma GatherTexCoordAt(m: MathLib, base: seq<real>, fs: seq<Face>, t: nat, j: nat)
    requires t < |fs| && j < 3
    ensures |Gather(m, base, fs, TexCoord)| == 6 * |fs|
    ensures Vec2At(Gather(m, base, fs, TexCoord), 3 * t + j) == TexCoordOf(AnchorOf(fs[t], j))
  {
    GatherAt(m, base, fs, TexCoord, t);
    ChunkVec2(Gather(m, base, fs, TexCoord), t, FaceData(m, base, fs[t], TexCoord), j);
    FaceDataCorner(m, base, fs[t], j);
  }

  /**
   * Per-vertex reading of a gathered mesh: expanded vertex v belongs to face v / 3 and is
   * that face's corner v % 3; it carries that corner's position, the face's normal and
   * the corner's atlas texture coordinate.
   */
  lemma GatherVertex(m: MathLib, base: seq<real>, fs: seq<Face>, v: nat)
    requires v < 3 * |fs|
    ensures |Gather(m, base, fs, Position)| == 9 * |fs|
    ensures |Gather(m, base, fs, Normal)| == 9 * |fs|
    ensures |Gather(m, base, fs, TexCoord)| == 6 * |fs|
    ensures var f := fs[v / 3];
            && Vec3At(Gather(m, base, fs, Position), v) == Corner(base, CornerOf(f, v % 3))
            && Vec3At(Gather(m, base, fs, Normal), v) == FaceNormalOf(m, base, f)
            && Vec2At(Gather(m, base, fs, TexCoord), v) == TexCoordOf(AnchorOf(f, v % 3))
  {
    var t, j := v / 3, v % 3;
    assert v == 3 * t + j;
    GatherPositionAt(m, base, fs, t, j);
    GatherNormalAt(m, base, fs, t, j);
    GatherTexCoordAt(m, base, fs, t, j);
  }

  /*
   * One triangle step of buildVertices, buffer by buffer: appending the face whose corners
   * are v1, v2, v3 and whose atlas coordinates are t1, t2, t3 extends each buffer by
   * exactly what addVertices, addNormals and addTexCoords push for it.
   */

  lemma GatherFacePositions(m: MathLib, base: seq<real>, fs: seq<Face>, f: Face, v1: Vec3, v2: Vec3, v3: Vec3)
    requires Corner(base, f.a) == v1 && Corner(base, f.b) == v2 && Corner(base, f.c) == v3
    ensures Gather(m, base, fs + [f], Position) == Gather(m, base, fs, Position) + Flat3(v1) + Flat3(v2) + Flat3(v3)
  {
    GatherSnoc(m, base, fs, f, Position);
    var g := Gather(m, base, fs, Position);
    assert g + (Flat3(v1) + Flat3(v2) + Flat3(v3)) == g + Flat3(v1) + Flat3(v2) + Flat3(v3);
  }

  lemma GatherFaceNormals(m: MathLib, base: seq<real>, fs: seq<Face>, f: Face, v1: Vec3, v2: Vec3, v3: Vec3)
    requires Corner(base, f.a) == v1 && Corner(base, f.b) == v2 && Corner(base, f.c) == v3
    ensures var n := FaceNormal(m, v1, v2, v3);
            Gather(m, base, fs + [f], Normal) == Gather(m, base, fs, Normal) + Flat3(n) + Flat3(n) + Flat3(n)
  {
    GatherSnoc(m, base, fs, f, Normal);
    var n := FaceNormal(m, v1, v2, v3);
    assert FaceNormalOf(m, base, f) == n;
    var g := Gather(m, base, fs, Normal);
    assert g + (Flat3(n) + Flat3(n) + Flat3(n)) == g + Flat3(n) + Flat3(n) + Flat3(n);
  }

  lemma GatherFaceTexCoords(m: MathLib, base: seq<real>, fs: seq<Face>, f: Face, t1: Vec2, t2: Vec2, t3: Vec2)
    requires TexCoordOf(f.ta) == t1 && TexCoordOf(f.tb) == t2 && TexCoordOf(f.tc) == t3
    ensures Gather(m, base, fs + [f], TexCoord) == Gather(m, base, fs, TexCoord) + Flat2(t1) + Flat2(t2) + Flat2(t3)
  {
    GatherSnoc(m, base, fs, f, TexCoord);
    var g := Gather(m, base, fs, TexCoord);
    assert g + (Flat2(t1) + Flat2(t2) + Flat2(t3)) == g + Flat2(t1) + Flat2(t2) + Flat2(t3);
  }

  // ---------------------------------------------------------------------------
  // Triangle indices (addIndices)
  // ---------------------------------------------------------------------------

  /** The index buffer 0, 1, ..., n - 1. */
  function Sequential(n: nat): (r: seq<nat>)
    ensures |r| == n
  {
    seq(n, k requires 0 <= k < n => k)
  }

  /** addIndices(index, index + 1, index + 2) with index = n extends 0..n-1 to 0..n+2. */
  lemma SequentialStep(n: nat)
    ensures Sequential(n) + [n, n + 1, n + 2] == Sequential(n + 3)
  {
    var lhs := Sequential(n) + [n, n + 1, n + 2];
    forall k | 0 <= k < n + 3
      ensures lhs[k] == Sequential(n + 3)[k]
    {
      if k >= n {
        assert lhs[k] == [n, n + 1, n + 2][k - n];
      }
    }
  }

  // ---------------------------------------------------------------------------
  // Properties of the built mesh
  // ---------------------------------------------------------------------------

  /** Flat shading: the three vertices 3t, 3t + 1, 3t + 2 of triangle t carry the same normal. */
  lemma FlatShading(m: MathLib, base: seq<real>, fs: seq<Face>, t: nat, j: nat)
    requires t < |fs| && j < 3
    ensures |Gather(m, base, fs, Normal)| == 9 * |fs|
    ensures Vec3At(Gather(m, base, fs, Normal), 3 * t + j) == Vec3At(Gather(m, base, fs, Normal), 3 * t)
  {
    GatherNormalAt(m, base, fs, t, j);
    GatherNormalAt(m, base, fs, t, 0);
    assert 3 * t + 0 == 3 * t;
  }

  /** x is a whole multiple q * step of a positive step, with 0 <= q <= max. */
  ghost predicate OnGrid(x: real, step: real, max: int)
    requires step > 0.0
  {
    var q := x / step;
    q == q.Floor as real && 0 <= q.Floor <= max
  }

  lemma AnchorOnGrid(n: nat, step: real, max: nat)
    requires step > 0.0 && n <= max
    ensures OnGrid(n as real * step, step, max)
  {
    assert n as real * step / step == n as real;
  }

  /**
   * In a gathered buffer, the texture coordinate of corner j of well-formed face t is
   * (m * S_STEP, n * T_STEP) with 0 <= m <= 11 and n the atlas row of its base vertex.
   */
  lemma GatherTexCoordOnGrid(m: MathLib, base: seq<real>, fs: seq<Face>, t: nat, j: nat)
    requires t < |fs| && j < 3 && GoodFace(fs[t])
    ensures |Gather(m, base, fs, TexCoord)| == 6 * |fs|
    ensures var uv := Vec2At(Gather(m, base, fs, TexCoord), 3 * t + j);
            && OnGrid(uv.s, S_STEP, 11) && uv.t == RowOf(CornerOf(fs[t], j)) as real * T_STEP
  {
    GatherTexCoordAt(m, base, fs, t, j);
    AnchorCoordOnGrid(AnchorOf(fs[t], j));
  }

  /** An anchor in the first 12 columns has its s coordinate on the S_STEP grid. */
  lemma AnchorCoordOnGrid(g: Anchor)
    requires g.col <= 11
    ensures OnGrid(TexCoordOf(g).s, S_STEP, 11)
  {
    AnchorOnGrid(g.col, S_STEP, 11);
  }

  /**
   * Every texture coordinate is (m * S_STEP, n * T_STEP) with 0 <= m <= 11 and 0 <= n <= 3;
   * a vertex at the north pole has n = 0 and one at the south pole n = 3.
   */
  lemma TexCoordsOnAtlasGrid(m: MathLib, base: seq<real>, fs: seq<Face>, t: nat, j: nat)
    requires t < |fs| && j < 3 && GoodFaces(fs)
    ensures |Gather(m, base, fs, TexCoord)| == 6 * |fs|
    ensures var uv := Vec2At(Gather(m, base, fs, TexCoord), 3 * t + j);
            && OnGrid(uv.s, S_STEP, 11) && OnGrid(uv.t, T_STEP, 3)
            && (CornerOf(fs[t], j) == 0 ==> uv.t == 0.0)
            && (CornerOf(fs[t], j) == 11 ==> uv.t == 3.0 * T_STEP)
  {
    GatherTexCoordOnGrid(m, base, fs, t, j);
    var uv := Vec2At(Gather(m, base, fs, TexCoord), 3 * t + j);
    RowOnGrid(RowOf(CornerOf(fs[t], j)), uv.t);
  }

  /** A coordinate on atlas row n (0..3) is on the T_STEP grid; rows 0 and 3 are its two ends. */
  lemma RowOnGrid(n: nat, y: real)
    requires n <= 3 && y == n as real * T_STEP
    ensures OnGrid(y, T_STEP, 3) && (n == 0 ==> y == 0.0) && (n == 3 ==> y == 3.0 * T_STEP)
  {
    AnchorOnGrid(n, T_STEP, 3);
  }

  /** Scales every float of a buffer by k. */
  function Scaled(xs: seq<real>, k: real): (r: seq<real>)
    ensures |r| == |xs|
  {
    seq(|xs|, i requires 0 <= i < |xs| => xs[i] * k)
  }

  lemma ScaledAppend(xs: seq<real>, ys: seq<real>, k: real)
    ensures Scaled(xs + ys, k) == Scaled(xs, k) + Scaled(ys, k)
  {
    assert forall i :: 0 <= i < |xs| + |ys| ==> Scaled(xs + ys, k)[i] == (Scaled(xs, k) + Scaled(ys, k))[i];
  }

  lemma CornerScaled(base: seq<real>, k: real, j: nat)
    ensures Corner(Scaled(base, k), j) == ScaleBy(Corner(base, j), k)
  {
  }

  lemma FlatScaled(v: Vec3, k: real)
    ensures Scaled(Flat3(v), k) == Flat3(ScaleBy(v, k))
  {
    var s := Scaled(Flat3(v), k);
    assert s[0] == v.x * k && s[1] == v.y * k && s[2] == v.z * k;
    assert s == [v.x * k, v.y * k, v.z * k];
    assert ScaleBy(v, k) == Vec3(v.x * k, v.y * k, v.z * k);
  }

  lemma FaceDataScaled(m: MathLib, base: seq<real>, f: Face, k: real)
    ensures FaceData(m, Scaled(base, k), f, Position) == Scaled(FaceData(m, base, f, Position), k)
  {
    var pa, pb, pc := Flat3(Corner(base, f.a)), Flat3(Corner(base, f.b)), Flat3(Corner(base, f.c));
    CornerScaled(base, k, f.a);
    CornerScaled(base, k, f.b);
    CornerScaled(base, k, f.c);
    FlatScaled(Corner(base, f.a), k);
    FlatScaled(Corner(base, f.b), k);
    FlatScaled(Corner(base, f.c), k);
    ScaledAppend(pa + pb, pc, k);
    ScaledAppend(pa, pb, k);
  }

  /** Expanding scaled base vertices gives the scaled expansion: rescaling commutes with the build. */
  lemma {:induction false} GatherScaled(m: MathLib, base: seq<real>, fs: seq<Face>, k: real)
    ensures Gather(m, Scaled(base, k), fs, Position) == Scaled(Gather(m, base, fs, Position), k)
  {
    if fs == [] {
      assert Gather(m, Scaled(base, k), fs, Position) == [];
    } else {
      var init, f := fs[..|fs| - 1], fs[|fs| - 1];
      assert fs == init + [f];
      GatherScaled(m, base, init, k);
      GatherSnoc(m, Scaled(base, k), init, f, Position);
      GatherSnoc(m, base, init, f, Position);
      FaceDataScaled(m, base, f, k);
      ScaledAppend(Gather(m, base, init, Position), FaceData(m, base, f, Position), k);
    }
  }

  // ---------------------------------------------------------------------------
  // Index buffers (addIndices, addLineIndices)
  // ---------------------------------------------------------------------------

  /**
   * The 12 line indices addLineIndices appends for the sector whose first vertex is b:
   * six pairs, every index one of the sector's own 12 emitted vertices.
   */
  function SectorLines(b: nat): (ls: seq<nat>)
    ensures |ls| == 12 && forall j :: 0 <= j < 12 ==> b <= ls[j] < b + 12
  {
    [b, b + 1, b + 3, b + 4, b + 3, b + 5, b + 4, b + 5, b + 9, b + 10, b + 9, b + 11]
  }

  /** Every sector repeats the first sector's pattern, shifted by its first vertex. */
  lemma SectorLinesShift(b: nat, j: nat)
    requires j < 12
    ensures SectorLines(b)[j] == b + SectorLines(0)[j]
  {
  }

  /**
   * The line indices of sectors 1..n: entry k is its sector's first vertex 12 * (k / 12)
   * plus the fixed offset pattern.
   */
  function LinesUpTo(n: nat): (ls: seq<nat>)
    ensures |ls| == 12 * n
  {
    seq(12 * n, k requires 0 <= k < 12 * n => LineIndex(k))
  }

  /** Line index k: the first vertex 12 * (k / 12) of its sector plus the sector pattern. */
  function LineIndex(k: nat): nat {
    12 * (k / 12) + SectorLines(0)[k % 12]
  }

  /** Appending the lines of the sector starting at vertex 12n gives the lines of n + 1 sectors. */
  lemma LinesStep(n: nat)
    ensures LinesUpTo(n) + SectorLines(12 * n) == LinesUpTo(n + 1)
  {
    var prev, ls := LinesUpTo(n), LinesUpTo(n + 1);
    forall k | 0 <= k < 12 * (n + 1)
      ensures (prev + SectorLines(12 * n))[k] == ls[k]
    {
      if k >= 12 * n {
        assert k / 12 == n && k % 12 == k - 12 * n;
        SectorLinesShift(12 * n, k - 12 * n);
      }
    }
  }

  /** Wireframe segment p: the pair of line indices at 2p and 2p + 1. */
  function Segment(ls: seq<nat>, p: nat): (nat, nat)
    requires 2 * p + 1 < |ls|
  {
    (ls[2 * p], ls[2 * p + 1])
  }

  /** Segment p of the wireframe of sectors 1..n, from the sector layout. */
  lemma SegmentShape(n: nat, p: nat)
    requires p < 6 * n
    ensures |LinesUpTo(n)| == 12 * n
    ensures Segment(LinesUpTo(n), p) == (12 * (p / 6) + SectorLines(0)[2 * (p % 6)], 12 * (p / 6) + SectorLines(0)[2 * (p % 6) + 1])
  {
    var s, r := p / 6, p % 6;
    assert 2 * p == 12 * s + 2 * r && 2 * r + 1 < 12;
    assert (2 * p) / 12 == s && (2 * p) % 12 == 2 * r;
    assert (2 * p + 1) / 12 == s && (2 * p + 1) % 12 == 2 * r + 1;
  }

  /** Within a sector the six segments join distinct vertices of one triangle, ascending. */
  lemma SectorSegments(r: nat)
    requires r < 6
    ensures var pat := SectorLines(0);
            pat[2 * r] < pat[2 * r + 1] <= 11 && pat[2 * r] / 3 == pat[2 * r + 1] / 3
  {
  }

  /** No two segments of one sector are the same pair. */
  lemma SectorSegmentsDistinct(r: nat, r': nat)
    requires r < 6 && r' < 6
    requires var pat := SectorLines(0); pat[2 * r] == pat[2 * r'] && pat[2 * r + 1] == pat[2 * r' + 1]
    ensures r == r'
  {
  }

  lemma SegmentInjective(n: nat, p: nat, q: nat)
    requires p < 6 * n && q < 6 * n
    requires |LinesUpTo(n)| == 12 * n && Segment(LinesUpTo(n), p) == Segment(LinesUpTo(n), q)
    ensures p == q
  {
    SegmentShape(n, p);
    SegmentShape(n, q);
    var s, r, s', r' := p / 6, p % 6, q / 6, q % 6;
    SectorSegments(r);
    SectorSegments(r');
    assert s == s';
    SectorSegmentsDistinct(r, r');
  }

  lemma ThirdShift(s: nat, a: nat)
    ensures (12 * s + a) / 3 == 4 * s + a / 3
  {
    assert 12 * s + a == 3 * (4 * s + a / 3) + a % 3;
  }

  /**
   * The wireframe of sectors 1..n: 12n line indices forming 6n segments, each between
   * two distinct vertices of one triangle (ascending, both below 12n), and no segment
   * repeated. The generator uses n = 5: 60 indices, 30 segments.
   */
  lemma LineIndexProperties(n: nat)
    ensures |LinesUpTo(n)| == 12 * n
    ensures forall p :: 0 <= p < 6 * n ==>
      var (u, w) := Segment(LinesUpTo(n), p);
      u < w < 12 * n && u / 3 == w / 3
    ensures forall p, q :: 0 <= p < q < 6 * n ==> Segment(LinesUpTo(n), p) != Segment(LinesUpTo(n), q)
  {
    var ls := LinesUpTo(n);
    var pat := SectorLines(0);
    forall p | 0 <= p < 6 * n
      ensures var (u, w) := Segment(ls, p); u < w < 12 * n && u / 3 == w / 3
    {
      SegmentShape(n, p);
      var s, r := p / 6, p % 6;
      SectorSegments(r);
      ThirdShift(s, pat[2 * r]);
      ThirdShift(s, pat[2 * r + 1]);
    }
    forall p, q | 0 <= p < q < 6 * n
      ensures Segment(ls, p) != Segment(ls, q)
    {
      if Segment(ls, p) == Segment(ls, q) {
        SegmentInjective(n, p, q);
      }
    }
  }

  // ---------------------------------------------------------------------------
  // The wireframe as edges of the solid
  // ---------------------------------------------------------------------------

  /** The base vertex that emitted vertex u (corner u mod 3 of triangle u div 3) stands for. */
  function BaseOf(u: nat): nat
    requires u < 60
  {
    CornerOf(MeshFaces()[u / 3], u % 3)
  }

  /** The ring vertex after ring vertex i (1..5), wrapping from 5 back to 1. */
  function NextOnRing(i: nat): nat {
    if i < 5 then i + 1 else 1
  }

  /**
   * The edge of the solid that segment r (0..5) of sector i draws, as a pair of base
   * vertices: pole to upper ring, upper ring down, along the upper ring, upper ring
   * down-back, lower ring to the south pole, along the lower ring.
   */
  function SectorEdge(i: nat, r: nat): (nat, nat)
    requires 1 <= i <= 5 && r < 6
  {
    var j := NextOnRing(i);
    [(0, i), (i, i + 5), (i, j), (i + 5, j), (i + 5, 11), (i + 5, j + 5)][r]
  }

  /** Two pairs of base vertices name the same edge, in either direction. */
  predicate SameEdge(e: (nat, nat), e': (nat, nat)) {
    (e.0 == e'.0 && e.1 == e'.1) || (e.0 == e'.1 && e.1 == e'.0)
  }

  /** Both ends of every segment of the generator's wireframe are emitted vertices. */
  lemma SegmentInRange(p: nat)
    requires p < 30
    ensures |LinesUpTo(5)| == 60 && Segment(LinesUpTo(5), p).0 < 60 && Segment(LinesUpTo(5), p).1 < 60
  {
    SegmentShape(5, p);
    SectorSegments(p % 6);
  }

  /** Segment p of the generator's wireframe, as the pair of base vertices it joins. */
  function WireEdge(p: nat): (e: (nat, nat))
    requires p < 30
  {
    SegmentInRange(p);
    (BaseOf(LinesUpTo(5)[2 * p]), BaseOf(LinesUpTo(5)[2 * p + 1]))
  }

  /** Segment p joins the base vertices of its two line indices u and w. */
  lemma WireEdgeEnds(p: nat, u: nat, w: nat)
    requires p < 30 && |LinesUpTo(5)| == 60 && u == LinesUpTo(5)[2 * p] && w == LinesUpTo(5)[2 * p + 1]
    ensures u < 60 && w < 60 && WireEdge(p) == (BaseOf(u), BaseOf(w))
  {
    SegmentInRange(p);
  }

  /** Some segment of the wireframe draws edge e. */
  ghost predicate Drawn(e: (nat, nat)) {
    exists p :: 0 <= p < 30 && SameEdge(WireEdge(p), e)
  }

  /** Emitted vertex u = 12s + a, in sector s + 1, is corner a mod 3 of the sector's triangle a div 3. */
  lemma ExpandedVertex(s: nat, a: nat, u: nat)
    requires s < 5 && a < 12 && u == 12 * s + a
    ensures u < 60 && BaseOf(u) == CornerOf(SectorFaces(s + 1)[a / 3], a % 3)
  {
    var t, k := u / 3, a / 3;
    ThirdShift(s, a);
    assert u % 3 == a % 3;
    SectorFaceAt(s, k, t);
  }

  /** Triangle t = 4s + k of the mesh is triangle k of sector s + 1. */
  lemma SectorFaceAt(s: nat, k: nat, t: nat)
    requires s < 5 && k < 4 && t == 4 * s + k
    ensures t < 20 && MeshFaces()[t] == SectorFaces(s + 1)[k]
  {
    assert t / 4 == s && t % 4 == k;
  }

  /** SectorEdge(i, r) is read off the triangles of sector i at the offsets of segment r. */
  lemma SectorEdgeCorners(i: nat, r: nat)
    requires 1 <= i <= 5 && r < 6
    ensures var (a, b) := (SectorLines(0)[2 * r], SectorLines(0)[2 * r + 1]);
            SectorEdge(i, r) == (CornerOf(SectorFaces(i)[a / 3], a % 3), CornerOf(SectorFaces(i)[b / 3], b % 3))
  {
  }

  /** Line index k = 12s + c of the generator's wireframe: sector s's first vertex plus pattern entry c. */
  lemma LineAt(s: nat, c: nat, k: nat)
    requires s < 5 && c < 12 && k == 12 * s + c
    ensures |LinesUpTo(5)| == 60 && LinesUpTo(5)[k] == 12 * s + SectorLines(0)[c]
  {
    assert k / 12 == s && k % 12 == c;
  }

  /** Segment r of sector i joins the base vertices SectorEdge(i, r). */
  lemma WireEdgeShape(i: nat, r: nat)
    requires 1 <= i <= 5 && r < 6
    ensures WireEdge(6 * (i - 1) + r) == SectorEdge(i, r)
  {
    var s, p := i - 1, 6 * (i - 1) + r;
    var a, b := SectorLines(0)[2 * r], SectorLines(0)[2 * r + 1];
    var u, w := 12 * s + a, 12 * s + b;
    LineAt(s, 2 * r, 2 * p);
    LineAt(s, 2 * r + 1, 2 * p + 1);
    ExpandedVertex(s, a, u);
    ExpandedVertex(s, b, w);
    WireEdgeEnds(p, u, w);
    SectorEdgeCorners(i, r);
  }

  /** No two (sector, position) slots name the same edge. */
  lemma SectorEdgesDistinct(i: nat, r: nat, i': nat, r': nat)
    requires 1 <= i <= 5 && r < 6 && 1 <= i' <= 5 && r' < 6
    requires SameEdge(SectorEdge(i, r), SectorEdge(i', r'))
    ensures i == i' && r == r'
  {
  }

  /** Two segments that draw the same edge are the same segment. */
  lemma WireEdgesDistinct(p: nat, q: nat)
    requires p < 30 && q < 30 && SameEdge(WireEdge(p), WireEdge(q))
    ensures p == q
  {
    var i, r, i', r' := p / 6 + 1, p % 6, q / 6 + 1, q % 6;
    assert p == 6 * (i - 1) + r && q == 6 * (i' - 1) + r';
    WireEdgeShape(i, r);
    WireEdgeShape(i', r');
    SectorEdgesDistinct(i, r, i', r');
  }

  /** Side (j, j') of triangle t is drawn by some segment of the wireframe. */
  lemma FaceSideIsWire(t: nat, j: nat, j': nat)
    requires t < 20 && j < j' < 3
    ensures Drawn((CornerOf(MeshFaces()[t], j), CornerOf(MeshFaces()[t], j')))
  {
    var i, k := t / 4 + 1, t % 4;
    var (later, r) := SideSlot(k, j + j' - 1);
    var x := if later then NextOnRing(i) else i;
    var p := 6 * (x - 1) + r;
    assert MeshFaces()[t] == SectorFaces(i)[k];
    SectorSideDrawn(i, k, j, j');
    WireEdgeShape(x, r);
    assert SameEdge(WireEdge(p), (CornerOf(MeshFaces()[t], j), CornerOf(MeshFaces()[t], j')));
  }

  /**
   * Which segment draws side (j, j') of the k-th triangle of a sector, numbered side
   * j + j' - 1: its position r, and whether the next sector draws it rather than this one.
   */
  function SideSlot(k: nat, side: nat): (slot: (bool, nat))
    requires k < 4 && side < 3
    ensures slot.1 < 6
  {
    [[(false, 0), (true, 0), (false, 2)],
     [(false, 1), (false, 2), (false, 3)],
     [(false, 3), (true, 1), (false, 5)],
     [(false, 4), (false, 5), (true, 4)]][k][side]
  }

  /** Every side of every triangle of sector i is the edge of the segment SideSlot names. */
  lemma SectorSideDrawn(i: nat, k: nat, j: nat, j': nat)
    requires 1 <= i <= 5 && k < 4 && j < j' < 3
    ensures var (later, r) := SideSlot(k, j + j' - 1);
            var f := SectorFaces(i)[k];
            SameEdge(SectorEdge(if later then NextOnRing(i) else i, r), (CornerOf(f, j), CornerOf(f, j')))
  {
  }

  /**
   * The wireframe draws the edges of the icosahedron, each exactly once: its 30 segments
   * join 30 different pairs of base vertices, and every side of every one of the 20
   * triangles is one of them.
   */
  lemma WireframeIsEdges()
    ensures forall p, q :: 0 <= p < q < 30 ==> !SameEdge(WireEdge(p), WireEdge(q))
    ensures forall t, j, j' :: 0 <= t < 20 && 0 <= j < j' < 3 ==>
      Drawn((CornerOf(MeshFaces()[t], j), CornerOf(MeshFaces()[t], j')))
  {
    forall p, q | 0 <= p < q < 30
      ensures !SameEdge(WireEdge(p), WireEdge(q))
    {
      if SameEdge(WireEdge(p), WireEdge(q)) {
        WireEdgesDistinct(p, q);
      }
    }
    forall t, j, j' | 0 <= t < 20 && 0 <= j < j' < 3
      ensures Drawn((CornerOf(MeshFaces()[t], j), CornerOf(MeshFaces()[t], j')))
    {
      FaceSideIsWire(t, j, j');
    }
  }

  // ---------------------------------------------------------------------------
  // Interleaved buffer (buildInterleavedVertices, updateRadius)
  // ---------------------------------------------------------------------------

  /** The float at offset c of record v in an interleaved buffer built from vs, ns, ts. */
  function Slot(vs: seq<real>, ns: seq<real>, ts: seq<real>, v: nat, c: nat): real
    requires 3 * v + 2 < |vs| && 3 * v + 2 < |ns| && 2 * v + 1 < |ts| && c < 8
  {
    if c < 3 then vs[3 * v + c] else if c < 6 then ns[3 * v + c - 3] else ts[2 * v + c - 6]
  }

  /**
   * The interleaved buffer of n vertices: 8 floats per vertex, and float k is slot k % 8
   * of record k / 8 (offsets 0..2 position, 3..5 normal, 6..7 texture coordinate).
   */
  function Interleave(vs: seq<real>, ns: seq<real>, ts: seq<real>, n: nat): (il: seq<real>)
    requires 3 * n <= |vs| && 3 * n <= |ns| && 2 * n <= |ts|
    ensures |il| == 8 * n
  {
    seq(8 * n, k requires 0 <= k < 8 * n => Slot(vs, ns, ts, k / 8, k % 8))
  }

  /** The 8 floats buildInterleavedVertices pushes for vertex k. */
  function Record(vs: seq<real>, ns: seq<real>, ts: seq<real>, k: nat): (rec: seq<real>)
    requires 3 * k + 2 < |vs| && 3 * k + 2 < |ns| && 2 * k + 1 < |ts|
    ensures |rec| == 8
    ensures rec[..3] == vs[3 * k..3 * k + 3] && rec[3..6] == ns[3 * k..3 * k + 3] && rec[6..] == ts[2 * k..2 * k + 2]
  {
    [vs[3 * k], vs[3 * k + 1], vs[3 * k + 2], ns[3 * k], ns[3 * k + 1], ns[3 * k + 2], ts[2 * k], ts[2 * k + 1]]
  }

  /** Pushing the record of vertex n extends the interleaved buffer of n vertices to n + 1. */
  lemma InterleaveSnoc(vs: seq<real>, ns: seq<real>, ts: seq<real>, n: nat)
    requires 3 * n + 3 <= |vs| && 3 * n + 3 <= |ns| && 2 * n + 2 <= |ts|
    ensures Interleave(vs, ns, ts, n) + Record(vs, ns, ts, n) == Interleave(vs, ns, ts, n + 1)
  {
    var lhs, rhs := Interleave(vs, ns, ts, n) + Record(vs, ns, ts, n), Interleave(vs, ns, ts, n + 1);
    forall k | 0 <= k < 8 * (n + 1)
      ensures lhs[k] == rhs[k]
    {
      if k >= 8 * n {
        assert k / 8 == n && k % 8 == k - 8 * n;
      }
    }
  }

  /** An interleaved buffer with only the position slots (offsets 0..2 of each record) scaled by k. */
  function ScaledPositionSlots(il: seq<real>, k: real): (r: seq<real>)
    ensures |r| == |il|
  {
    seq(|il|, i requires 0 <= i < |il| => if i % 8 < 3 then il[i] * k else il[i])
  }

  /** InterleaveRescale at float i of the interleaved buffer. */
  lemma RescaleSlot(vs: seq<real>, ns: seq<real>, ts: seq<real>, n: nat, k: real, i: nat)
    requires 3 * n <= |vs| && 3 * n <= |ns| && 2 * n <= |ts| && i < 8 * n
    ensures |Interleave(Scaled(vs, k), ns, ts, n)| == |Interleave(vs, ns, ts, n)| == 8 * n
    ensures Interleave(Scaled(vs, k), ns, ts, n)[i] == ScaledPositionSlots(Interleave(vs, ns, ts, n), k)[i]
  {
    var svs := Scaled(vs, k);
    var v, c := i / 8, i % 8;
    assert v < n;
    if c < 3 {
      assert svs[3 * v + c] == vs[3 * v + c] * k;
    }
  }

  /**
   * Scaling the positions and then interleaving equals interleaving and then scaling
   * the position slots: a rescale keeps the interleaved buffer in agreement with the
   * separate arrays.
   */
  lemma InterleaveRescale(vs: seq<real>, ns: seq<real>, ts: seq<real>, n: nat, k: real)
    requires 3 * n <= |vs| && 3 * n <= |ns| && 2 * n <= |ts|
    ensures Interleave(Scaled(vs, k), ns, ts, n) == ScaledPositionSlots(Interleave(vs, ns, ts, n), k)
  {
    forall i | 0 <= i < 8 * n
      ensures Interleave(Scaled(vs, k), ns, ts, n)[i] == ScaledPositionSlots(Interleave(vs, ns, ts, n), k)[i]
    {
      RescaleSlot(vs, ns, ts, n, k, i);
    }
  }

  /** The first i floats of xs scaled by k, the rest as they were: updateRadius's positions part-way. */
  function PartlyScaled(xs: seq<real>, i: nat, k: real): (r: seq<real>)
    ensures |r| == |xs|
  {
    seq(|xs|, p requires 0 <= p < |xs| => if p < i then xs[p] * k else xs[p])
  }

  /** The position slots among the first j floats of il scaled by k: the interleaved buffer part-way. */
  function PartlySlotsScaled(il: seq<real>, j: nat, k: real): (r: seq<real>)
    ensures |r| == |il|
  {
    seq(|il|, p requires 0 <= p < |il| => if p < j && p % 8 < 3 then il[p] * k else il[p])
  }

  /** Float i of xs multiplied by k, in place (`updateRadius`'s `vertices[i] *= scale`). */
  function ScaleAt(xs: seq<real>, i: nat, k: real): (r: seq<real>)
    requires i < |xs|
    ensures |r| == |xs|
  {
    xs[i := xs[i] * k]
  }

  /** Scaling the three floats of the next position advances the scaled prefix by 3. */
  lemma PartlyScaledStep(xs: seq<real>, i: nat, k: real)
    requires i + 3 <= |xs|
    ensures ScaleAt(ScaleAt(ScaleAt(PartlyScaled(xs, i, k), i, k), i + 1, k), i + 2, k) == PartlyScaled(xs, i + 3, k)
  {
    var lhs := ScaleAt(ScaleAt(ScaleAt(PartlyScaled(xs, i, k), i, k), i + 1, k), i + 2, k);
    forall p | 0 <= p < |xs|
      ensures lhs[p] == PartlyScaled(xs, i + 3, k)[p]
    {
    }
  }

  /** Scaling the position slots of record r advances the scaled prefix by one record. */
  lemma PartlySlotsScaledStep(il: seq<real>, r: nat, k: real)
    requires 8 * r + 8 <= |il|
    ensures var j := 8 * r;
            ScaleAt(ScaleAt(ScaleAt(PartlySlotsScaled(il, j, k), j, k), j + 1, k), j + 2, k) == PartlySlotsScaled(il, j + 8, k)
  {
    var j := 8 * r;
    var lhs := ScaleAt(ScaleAt(ScaleAt(PartlySlotsScaled(il, j, k), j, k), j + 1, k), j + 2, k);
    forall p | 0 <= p < |il|
      ensures lhs[p] == PartlySlotsScaled(il, j + 8, k)[p]
    {
      if j <= p < j + 8 {
        assert p % 8 == p - j;
      }
    }
  }

  /** Once the prefix covers everything, the buffer is fully scaled. */
  lemma PartlyScaledDone(xs: seq<real>, il: seq<real>, k: real)
    ensures PartlyScaled(xs, |xs|, k) == Scaled(xs, k)
    ensures PartlySlotsScaled(il, |il|, k) == ScaledPositionSlots(il, k)
  {
  }

  /**
   * The six buffers hold the built mesh: the 20 faces expanded from the base vertices
   * `corners` (positions) and `builtCorners` (normals and texture coordinates), the
   * sequential triangle indices, the wireframe pairs and the interleaved copy.
   */
  ghost predicate MeshBuffers(m: MathLib, corners: seq<real>, builtCorners: seq<real>,
                              vs: seq<real>, ns: seq<real>, ts: seq<real>,
                              ix: seq<nat>, ls: seq<nat>, il: seq<real>)
  {
    && |vs| == 180 && |ns| == 180 && |ts| == 120
    && |ix| == 60 && |ls| == 60 && |il| == 480
    && vs == Gather(m, corners, MeshFaces(), Position)
    && ns == Gather(m, builtCorners, MeshFaces(), Normal)
    && ts == Gather(m, builtCorners, MeshFaces(), TexCoord)
    && ix == Sequential(60)
    && ls == LinesUpTo(5)
    && il == Interleave(vs, ns, ts, 60)
  }

  /**
   * In a built mesh, the normal stored for vertex v is the face normal of its triangle
   * v div 3, taken over the base vertices of the build, and so it is orthogonal to that
   * triangle's two edges from its first corner.
   */
  lemma MeshNormal(m: MathLib, corners: seq<real>, builtCorners: seq<real>,
                   vs: seq<real>, ns: seq<real>, ts: seq<real>,
                   ix: seq<nat>, ls: seq<nat>, il: seq<real>, v: nat)
    requires MeshBuffers(m, corners, builtCorners, vs, ns, ts, ix, ls, il) && v < 60
    ensures var f := MeshFaces()[v / 3];
            var (a, b, c) := (Corner(builtCorners, f.a), Corner(builtCorners, f.b), Corner(builtCorners, f.c));
            var n := Vec3At(ns, v);
            && n == FaceNormal(m, a, b, c)
            && Dot(n, Sub(b, a)) == 0.0 && Dot(n, Sub(c, a)) == 0.0
  {
    var t, j := v / 3, v % 3;
    GatherNormalAt(m, builtCorners, MeshFaces(), t, j);
    assert 3 * t + j == v;
    var f := MeshFaces()[t];
    FaceNormalOrthogonal(m, Corner(builtCorners, f.a), Corner(builtCorners, f.b), Corner(builtCorners, f.c));
  }

  /**
   * A rescale keeps a built mesh built: scaling the positions and the position slots
   * of the interleaved buffer by k is the mesh of the base vertices scaled by k.
   */
  lemma RescaleKeepsMesh(m: MathLib, corners: seq<real>, builtCorners: seq<real>,
                         vs: seq<real>, ns: seq<real>, ts: seq<real>,
                         ix: seq<nat>, ls: seq<nat>, il: seq<real>, k: real)
    requires MeshBuffers(m, corners, builtCorners, vs, ns, ts, ix, ls, il)
    ensures MeshBuffers(m, Scaled(corners, k), builtCorners, Scaled(vs, k), ns, ts, ix, ls, ScaledPositionSlots(il, k))
  {
    GatherScaled(m, corners, MeshFaces(), k);
    InterleaveRescale(vs, ns, ts, 60, k);
  }

  /** Squared distance of base vertex 0 from the origin: what updateRadius divides by. */
  function Vertex0NormSq(vs: seq<real>): real
    requires |vs| >= 3
  {
    vs[0] * vs[0] + vs[1] * vs[1] + vs[2] * vs[2]
  }

  /** The factor updateRadius multiplies positions by, to bring vertex 0 to distance r. */
  function RescaleFactor(m: MathLib, r: real, vs: seq<real>): real
    requires |vs| >= 3 && Vertex0NormSq(vs) != 0.0
  {
    m.sqrt(r * r / Vertex0NormSq(vs))
  }

  /** With sqrt exact at its argument, a rescale puts vertex 0 at squared distance r * r. */
  lemma RescaleReachesRadius(m: MathLib, r: real, vs: seq<real>)
    requires |vs| >= 3 && Vertex0NormSq(vs) != 0.0
    requires var q := r * r / Vertex0NormSq(vs); m.sqrt(q) * m.sqrt(q) == q
    ensures Vertex0NormSq(Scaled(vs, RescaleFactor(m, r, vs))) == r * r
  {
    var n := Vertex0NormSq(vs);
    var q := r * r / n;
    var s := RescaleFactor(m, r, vs);
    var ws := Scaled(vs, s);
    calc {
      Vertex0NormSq(ws);
      (vs[0] * s) * (vs[0] * s) + (vs[1] * s) * (vs[1] * s) + (vs[2] * s) * (vs[2] * s);
      (s * s) * n;
      q * n;
      r * r;
    }
  }
}
