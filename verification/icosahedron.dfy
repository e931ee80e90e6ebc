/**
 * The icosahedron mesh generator: an object owning six buffers (positions, normals,
 * texture coordinates, triangle indices, line indices and the interleaved V/N/T
 * buffer) that it builds once, from the 12 base vertices, and afterwards only rescales.
 *
 * Every buffer is a `seq` field the methods reassign (a C++ `std::vector` in the generator).
 * `Built()` ties the buffers to the closed forms of module MeshLayout; the ghost fields
 * `corners` and `builtCorners` are the base vertices the positions, and the normals
 * and texture coordinates, were expanded from.
 */
module IcosahedronMesh {
  import opened Geometry
  import opened MeshLayout

  /** The angle 2*pi/5 as setRadius and setEdgeLength write it (pi as 3.141592). */
  const TWO_PI_OVER_FIVE: real := 2.0 * 3.141592 / 5.0

  class Icosahedron {
    /** sinf, cosf, atanf and sqrtf as the object calls them. */
    const math: MathLib
    /** Bytes from one interleaved record to the next. */
    const interleavedStride: int

    var radius: real
    var edgeLength: real
    var vertices: seq<real>
    var normals: seq<real>
    var texCoords: seq<real>
    var indices: seq<nat>
    var lineIndices: seq<nat>
    var interleavedVertices: seq<real>

    /** The base vertices the current positions are the expansion of. */
    ghost var corners: seq<real>
    /** The base vertices of the last build, which the normals were computed from. */
    ghost var builtCorners: seq<real>
    /** The radius of the last build: `builtCorners` are the base vertices of this radius. */
    ghost var builtRadius: real

    /** The buffers hold the built mesh: 20 flat-shaded faces, their indices and the interleaved copy. */
    ghost predicate Built()
      reads this`corners, this`builtCorners, this`vertices, this`normals, this`texCoords,
            this`indices, this`lineIndices, this`interleavedVertices
    {
      MeshBuffers(math, corners, builtCorners, vertices, normals, texCoords, indices, lineIndices, interleavedVertices)
    }

    /** The normals and texture coordinates were built from the 12 base vertices of `builtRadius`. */
    ghost predicate BuiltFromBase()
      reads this`builtCorners, this`builtRadius
    {
      |builtCorners| == 36 && forall k :: 0 <= k < 12 ==> Vec3At(builtCorners, k) == BaseVertex(math, builtRadius, k)
    }

    ghost predicate Valid()
      reads this
    {
      && interleavedStride == 32
      && math.sin(TWO_PI_OVER_FIVE) != 0.0
      && edgeLength == radius / math.sin(TWO_PI_OVER_FIVE)
      && Built()
      && BuiltFromBase()
    }

    /** A new icosahedron of radius r (1 by default), built at once. */
    constructor (m: MathLib, r: real := 1.0)
      requires m.sin(TWO_PI_OVER_FIVE) != 0.0
      ensures Valid()
      ensures math == m && radius == r && edgeLength == r / m.sin(TWO_PI_OVER_FIVE)
      ensures |corners| == 36 && forall k :: 0 <= k < 12 ==> Vec3At(corners, k) == BaseVertex(m, r, k)
      ensures builtCorners == corners && builtRadius == r
    {
      math := m;
      interleavedStride := 32;
      vertices, normals, texCoords := [], [], [];
      indices, lineIndices, interleavedVertices := [], [], [];
      new;
      SetRadius(r);
    }

    /**
     * Stores the radius and the matching edge length; builds the mesh when there are
     * no vertices yet and otherwise rescales the positions in place.
     */
    method SetRadius(r: real)
      requires interleavedStride == 32 && math.sin(TWO_PI_OVER_FIVE) != 0.0
      requires vertices == [] || (Built() && BuiltFromBase() && Vertex0NormSq(vertices) != 0.0)
      modifies this
      ensures Valid()
      ensures radius == r && edgeLength == r / math.sin(TWO_PI_OVER_FIVE)
      ensures old(vertices) == [] ==> |corners| == 36 && forall k :: 0 <= k < 12 ==> Vec3At(corners, k) == BaseVertex(math, r, k)
      ensures old(vertices) == [] ==> builtCorners == corners && builtRadius == r
      ensures old(vertices) != [] ==> builtCorners == old(builtCorners) && builtRadius == old(builtRadius)
      ensures old(vertices) != [] ==>
                var s := RescaleFactor(math, r, old(vertices));
                && vertices == Scaled(old(vertices), s)
                && interleavedVertices == ScaledPositionSlots(old(interleavedVertices), s)
                && normals == old(normals) && texCoords == old(texCoords)
                && indices == old(indices) && lineIndices == old(lineIndices)
    {
      radius := r;
      edgeLength := r / math.sin(TWO_PI_OVER_FIVE);
      if |vertices| == 0 {
        BuildVertices();
      } else {
        UpdateRadius();
      }
    }

    /** Stores the edge length and the matching radius, then rescales (never rebuilds). */
    method SetEdgeLength(edge: real)
      requires Valid() && Vertex0NormSq(vertices) != 0.0
      modifies this
      ensures Valid()
      ensures edgeLength == edge && radius == edge * math.sin(TWO_PI_OVER_FIVE)
      ensures builtCorners == old(builtCorners) && builtRadius == old(builtRadius)
      ensures var s := RescaleFactor(math, radius, old(vertices));
              && vertices == Scaled(old(vertices), s)
              && interleavedVertices == ScaledPositionSlots(old(interleavedVertices), s)
              && normals == old(normals) && texCoords == old(texCoords)
              && indices == old(indices) && lineIndices == old(lineIndices)
    {
      DivMulCancel(edge, math.sin(TWO_PI_OVER_FIVE));
      edgeLength := edge;
      radius := edge * math.sin(TWO_PI_OVER_FIVE);
      UpdateRadius();
    }

    /**
     * Multiplies every position, in `vertices` and in the position slots of
     * `interleavedVertices`, by the factor that brings vertex 0 to distance `radius`;
     * normals and texture coordinates are left alone, so a built mesh stays built.
     */
    method UpdateRadius()
      requires |vertices| >= 3 && Vertex0NormSq(vertices) != 0.0
      requires |vertices| % 3 == 0 && |interleavedVertices| == 8 * (|vertices| / 3)
      modifies this`vertices, this`interleavedVertices, this`corners
      ensures var s := RescaleFactor(math, radius, old(vertices));
              && vertices == Scaled(old(vertices), s)
              && interleavedVertices == ScaledPositionSlots(old(interleavedVertices), s)
              && corners == Scaled(old(corners), s)
      ensures old(Built()) ==> Built()
    {
      var scale := RescaleFactor(math, radius, vertices);
      ghost var vs0, il0, corners0 := vertices, interleavedVertices, corners;
      var count := |vertices|;
      var i, j := 0, 0;
      ghost var n, records := 0, count / 3;
      assert count == 3 * records && |il0| == 8 * records;
      if Built() {
        RescaleKeepsMesh(math, corners, builtCorners, vertices, normals, texCoords, indices, lineIndices, interleavedVertices, scale);
      }
      while i < count
        invariant i == 3 * n && j == 8 * n && n <= records
        invariant vertices == PartlyScaled(vs0, i, scale)
        invariant interleavedVertices == PartlySlotsScaled(il0, j, scale)
        invariant corners == corners0
      {
        PartlyScaledStep(vs0, i, scale);
        PartlySlotsScaledStep(il0, n, scale);
        vertices := ScaleAt(vertices, i, scale);
        vertices := ScaleAt(vertices, i + 1, scale);
        vertices := ScaleAt(vertices, i + 2, scale);

        interleavedVertices := ScaleAt(interleavedVertices, j, scale);
        interleavedVertices := ScaleAt(interleavedVertices, j + 1, scale);
        interleavedVertices := ScaleAt(interleavedVertices, j + 2, scale);
        i, j, n := i + 3, j + 8, n + 1;
      }
      assert i == count && j == |il0|;
      PartlyScaledDone(vs0, il0, scale);
      corners := Scaled(corners, scale);
    }

    /** The 12 base vertices for the current radius, three floats each. */
    method ComputeVertices() returns (vs: seq<real>)
      ensures |vs| == 36
      ensures forall k :: 0 <= k < 12 ==> Vec3At(vs, k) == BaseVertex(math, radius, k)
    {
      var vAngle := math.atan(1.0 / 2.0);
      vs := seq(36, _ => 0.0);
      var hAngle1 := -PI / 2.0 - H_ANGLE / 2.0;
      var hAngle2 := -PI / 2.0;

      vs := vs[0 := 0.0][1 := 0.0][2 := radius];

      for i := 1 to 6
        invariant |vs| == 36
        invariant hAngle1 == -PI / 2.0 - H_ANGLE / 2.0 + (i - 1) as real * H_ANGLE
        invariant hAngle2 == -PI / 2.0 + (i - 1) as real * H_ANGLE
        invariant Vec3At(vs, 0) == BaseVertex(math, radius, 0)
        invariant forall k :: 1 <= k < i ==> Vec3At(vs, k) == BaseVertex(math, radius, k)
        invariant forall k :: 6 <= k < i + 5 ==> Vec3At(vs, k) == BaseVertex(math, radius, k)
      {
        var i1, i2 := i * 3, (i + 5) * 3;
        var z := radius * math.sin(vAngle);
        var xy := radius * math.cos(vAngle);
        ghost var prev := vs;
        vs := vs[i1 := xy * math.cos(hAngle1)];
        vs := vs[i2 := xy * math.cos(hAngle2)];
        vs := vs[i1 + 1 := xy * math.sin(hAngle1)];
        vs := vs[i2 + 1 := xy * math.sin(hAngle2)];
        vs := vs[i1 + 2 := z];
        vs := vs[i2 + 2 := -z];
        RingStep(math, radius, prev, vs, i, i1, i2, hAngle1, hAngle2, xy, z,
                 xy * math.cos(hAngle1), xy * math.cos(hAngle2), xy * math.sin(hAngle1), xy * math.sin(hAngle2));
        hAngle1 := hAngle1 + H_ANGLE;
        hAngle2 := hAngle2 + H_ANGLE;
      }

      vs := vs[33 := 0.0][34 := 0.0][35 := -radius];
    }

    /**
     * Clears the buffers and fills them with the 20 faces of sectors 1..5, four per
     * sector, then builds the interleaved buffer.
     */
    method BuildVertices()
      modifies this`vertices, this`normals, this`texCoords, this`indices, this`lineIndices,
               this`interleavedVertices, this`corners, this`builtCorners, this`builtRadius
      ensures Built() && BuiltFromBase()
      ensures |corners| == 36 && forall k :: 0 <= k < 12 ==> Vec3At(corners, k) == BaseVertex(math, radius, k)
      ensures builtCorners == corners && builtRadius == radius
    {
      var tmpVertices := ComputeVertices();

      vertices, normals, texCoords := [], [], [];
      indices, lineIndices := [], [];

      var index: nat := 0;
      for i := 1 to 6
        invariant index == 12 * (i - 1)
        invariant vertices == Gather(math, tmpVertices, FacesUpTo(i - 1), Position)
        invariant normals == Gather(math, tmpVertices, FacesUpTo(i - 1), Normal)
        invariant texCoords == Gather(math, tmpVertices, FacesUpTo(i - 1), TexCoord)
        invariant indices == Sequential(index)
        invariant lineIndices == LinesUpTo(i - 1)
      {
        AddSector(tmpVertices, i, index);
        index := index + 12;
      }

      corners, builtCorners, builtRadius := tmpVertices, tmpVertices, radius;
      BuildInterleavedVertices();
    }

    /**
     * One pass of buildVertices' sector loop: the four triangles of sector i (top row,
     * two in the middle row, bottom row), with their atlas coordinates, then the
     * sector's wireframe pairs. The buffers grow from the mesh of sectors 1..i-1 to
     * that of sectors 1..i.
     */
    method AddSector(tmpVertices: seq<real>, i: nat, index: nat)
      requires |tmpVertices| == 36 && 1 <= i <= 5 && index == 12 * (i - 1)
      requires vertices == Gather(math, tmpVertices, FacesUpTo(i - 1), Position)
      requires normals == Gather(math, tmpVertices, FacesUpTo(i - 1), Normal)
      requires texCoords == Gather(math, tmpVertices, FacesUpTo(i - 1), TexCoord)
      requires indices == Sequential(index)
      requires lineIndices == LinesUpTo(i - 1)
      modifies this`vertices, this`normals, this`texCoords, this`indices, this`lineIndices
      ensures vertices == Gather(math, tmpVertices, FacesUpTo(i), Position)
      ensures normals == Gather(math, tmpVertices, FacesUpTo(i), Normal)
      ensures texCoords == Gather(math, tmpVertices, FacesUpTo(i), TexCoord)
      ensures indices == Sequential(index + 12)
      ensures lineIndices == LinesUpTo(i)
    {
      LinesStep(i - 1);
      FacesStep(i);
      AddSectorTriangles(tmpVertices, i, index, FacesUpTo(i - 1));
      AddLineIndices(index);
    }

    /**
     * The four triangles of sector i (top row, two in the middle row, bottom row) with
     * their atlas coordinates: the buffers grow from the expansion of `done` by the
     * faces of the sector.
     */
    method AddSectorTriangles(tmpVertices: seq<real>, i: nat, index: nat, ghost done: seq<Face>)
      requires |tmpVertices| == 36 && 1 <= i <= 5
      requires vertices == Gather(math, tmpVertices, done, Position)
      requires normals == Gather(math, tmpVertices, done, Normal)
      requires texCoords == Gather(math, tmpVertices, done, TexCoord)
      requires indices == Sequential(index)
      modifies this`vertices, this`normals, this`texCoords, this`indices
      ensures vertices == Gather(math, tmpVertices, done + SectorFaces(i), Position)
      ensures normals == Gather(math, tmpVertices, done + SectorFaces(i), Normal)
      ensures texCoords == Gather(math, tmpVertices, done + SectorFaces(i), TexCoord)
      ensures indices == Sequential(index + 12)
    {
      var v0, v11 := Vec3At(tmpVertices, 0), Vec3At(tmpVertices, 11);
      var v1 := Vec3At(tmpVertices, i);
      var v2 := if i < 5 then Vec3At(tmpVertices, i + 1) else Vec3At(tmpVertices, 1);
      var v3 := Vec3At(tmpVertices, i + 5);
      var v4 := if i + 5 < 10 then Vec3At(tmpVertices, i + 6) else Vec3At(tmpVertices, 6);

      var t0 := Vec2((2 * i - 1) as real * S_STEP, 0.0);
      var t1 := Vec2((2 * i - 2) as real * S_STEP, T_STEP);
      var t2 := Vec2((2 * i - 0) as real * S_STEP, T_STEP);
      var t3 := Vec2((2 * i - 1) as real * S_STEP, T_STEP * 2.0);
      var t4 := Vec2((2 * i + 1) as real * S_STEP, T_STEP * 2.0);
      var t11 := Vec2((2 * i) as real * S_STEP, T_STEP * 3.0);

      ghost var faces := SectorFaces(i);
      ghost var grown := done;
      assert faces == [faces[0], faces[1], faces[2], faces[3]];

      // a triangle in the first row
      AddTriangle(tmpVertices, grown, faces[0], v0, v1, v2, t0, t1, t2, index);
      grown := grown + [faces[0]];

      // two triangles in the second row
      AddTriangle(tmpVertices, grown, faces[1], v1, v3, v2, t1, t3, t2, index + 3);
      grown := grown + [faces[1]];
      AddTriangle(tmpVertices, grown, faces[2], v2, v3, v4, t2, t3, t4, index + 6);
      grown := grown + [faces[2]];

      // a triangle in the third row
      AddTriangle(tmpVertices, grown, faces[3], v3, v11, v4, t3, t11, t4, index + 9);
      grown := grown + [faces[3]];

      assert grown == done + faces;
    }

    /**
     * One triangle of buildVertices: computeFaceNormal, then addVertices, addNormals,
     * addTexCoords and addIndices. When the arguments are face f's corners and atlas
     * coordinates, the buffers grow from the expansion of `done` to that of done + [f].
     */
    method AddTriangle(ghost base: seq<real>, ghost done: seq<Face>, ghost f: Face,
                       v1: Vec3, v2: Vec3, v3: Vec3, t1: Vec2, t2: Vec2, t3: Vec2, index: nat)
      requires Corner(base, f.a) == v1 && Corner(base, f.b) == v2 && Corner(base, f.c) == v3
      requires TexCoordOf(f.ta) == t1 && TexCoordOf(f.tb) == t2 && TexCoordOf(f.tc) == t3
      requires vertices == Gather(math, base, done, Position)
      requires normals == Gather(math, base, done, Normal)
      requires texCoords == Gather(math, base, done, TexCoord)
      requires indices == Sequential(index)
      modifies this`vertices, this`normals, this`texCoords, this`indices
      ensures vertices == Gather(math, base, done + [f], Position)
      ensures normals == Gather(math, base, done + [f], Normal)
      ensures texCoords == Gather(math, base, done + [f], TexCoord)
      ensures indices == Sequential(index + 3)
    {
      var n := FaceNormal(math, v1, v2, v3);
      AddVertices(v1, v2, v3);
      AddNormals(n, n, n);
      AddTexCoords(t1, t2, t3);
      AddIndices(index, index + 1, index + 2);
      GatherFacePositions(math, base, done, f, v1, v2, v3);
      GatherFaceNormals(math, base, done, f, v1, v2, v3);
      GatherFaceTexCoords(math, base, done, f, t1, t2, t3);
      SequentialStep(index);
    }

    /** Appends the 8-float records (position, normal, texture coordinate) of every vertex. */
    method BuildInterleavedVertices()
      requires |vertices| % 3 == 0 && |normals| >= |vertices| && |texCoords| >= 2 * (|vertices| / 3)
      modifies this`interleavedVertices
      ensures interleavedVertices == Interleave(vertices, normals, texCoords, |vertices| / 3)
    {
      interleavedVertices := [];
      var count := |vertices|;
      var i, j := 0, 0;
      ghost var n := 0;
      while i < count
        invariant i == 3 * n && j == 2 * n && n <= count / 3
        invariant interleavedVertices == Interleave(vertices, normals, texCoords, n)
      {
        InterleaveSnoc(vertices, normals, texCoords, n);
        interleavedVertices := interleavedVertices + [vertices[i], vertices[i + 1], vertices[i + 2],
                                                      normals[i], normals[i + 1], normals[i + 2],
                                                      texCoords[j], texCoords[j + 1]];
        i, j, n := i + 3, j + 2, n + 1;
      }
    }

    method AddVertices(v1: Vec3, v2: Vec3, v3: Vec3)
      modifies this`vertices
      ensures vertices == old(vertices) + Flat3(v1) + Flat3(v2) + Flat3(v3)
    {
      vertices := vertices + [v1.x, v1.y, v1.z];
      vertices := vertices + [v2.x, v2.y, v2.z];
      vertices := vertices + [v3.x, v3.y, v3.z];
    }

    method AddNormals(n1: Vec3, n2: Vec3, n3: Vec3)
      modifies this`normals
      ensures normals == old(normals) + Flat3(n1) + Flat3(n2) + Flat3(n3)
    {
      normals := normals + [n1.x, n1.y, n1.z];
      normals := normals + [n2.x, n2.y, n2.z];
      normals := normals + [n3.x, n3.y, n3.z];
    }

    method AddTexCoords(t1: Vec2, t2: Vec2, t3: Vec2)
      modifies this`texCoords
      ensures texCoords == old(texCoords) + Flat2(t1) + Flat2(t2) + Flat2(t3)
    {
      texCoords := texCoords + [t1.s, t1.t];
      texCoords := texCoords + [t2.s, t2.t];
      texCoords := texCoords + [t3.s, t3.t];
    }

    method AddIndices(i1: nat, i2: nat, i3: nat)
      modifies this`indices
      ensures indices == old(indices) + [i1, i2, i3]
    {
      indices := indices + [i1, i2, i3];
    }

    /** Appends the six wireframe edges of the sector whose first triangle index is `index`. */
    method AddLineIndices(index: nat)
      modifies this`lineIndices
      ensures lineIndices == old(lineIndices) + SectorLines(index)
    {
      lineIndices := lineIndices + [index, index + 1];      // (i, i+1)
      lineIndices := lineIndices + [index + 3, index + 4];  // (i+3, i+4)
      lineIndices := lineIndices + [index + 3, index + 5];  // (i+3, i+5)
      lineIndices := lineIndices + [index + 4, index + 5];  // (i+4, i+5)
      lineIndices := lineIndices + [index + 9, index + 10]; // (i+9, i+10)
      lineIndices := lineIndices + [index + 9, index + 11]; // (i+9, i+11)
    }

    // -------------------------------------------------------------------------
    // Getters
    // -------------------------------------------------------------------------

    /** The radius is the edge length times sin(2*pi/5). */
    function GetRadius(): (r: real)
      reads this
      ensures Valid() ==> r == GetEdgeLength() * math.sin(TWO_PI_OVER_FIVE)
    {
      DivMulCancel(radius, math.sin(TWO_PI_OVER_FIVE));
      radius
    }

    function GetEdgeLength(): (e: real)
      reads this
      ensures Valid() ==> e == radius / math.sin(TWO_PI_OVER_FIVE)
    {
      edgeLength
    }

    /** 60 expanded vertices: three per triangle, none shared. */
    function GetVertexCount(): (c: nat)
      reads this
      ensures Valid() ==> c == 60
    {
      |vertices| / 3
    }

    function GetNormalCount(): (c: nat)
      reads this
      ensures Valid() ==> c == 60 && c == GetVertexCount()
    {
      |normals| / 3
    }

    function GetTexCoordCount(): (c: nat)
      reads this
      ensures Valid() ==> c == 60 && c == GetVertexCount()
    {
      |texCoords| / 2
    }

    function GetIndexCount(): (c: nat)
      reads this
      ensures Valid() ==> c == 60 && c == GetVertexCount()
    {
      |indices|
    }

    /** 30 wireframe segments of two indices each. */
    function GetLineIndexCount(): (c: nat)
      reads this
      ensures Valid() ==> c == 60
    {
      |lineIndices|
    }

    function GetTriangleCount(): (c: nat)
      reads this
      ensures Valid() ==> c == 20 && 3 * c == GetVertexCount()
    {
      GetIndexCount() / 3
    }

    /** Byte sizes: four bytes per float or unsigned int. */
    function GetVertexSize(): (s: nat)
      reads this
      ensures Valid() ==> s == 720 && s == 3 * 4 * GetVertexCount()
    {
      |vertices| * 4
    }

    function GetNormalSize(): (s: nat)
      reads this
      ensures Valid() ==> s == 720 && s == 3 * 4 * GetNormalCount()
    {
      |normals| * 4
    }

    function GetTexCoordSize(): (s: nat)
      reads this
      ensures Valid() ==> s == 480 && s == 2 * 4 * GetTexCoordCount()
    {
      |texCoords| * 4
    }

    function GetIndexSize(): (s: nat)
      reads this
      ensures Valid() ==> s == 240 && s == 4 * GetIndexCount()
    {
      |indices| * 4
    }

    function GetLineIndexSize(): (s: nat)
      reads this
      ensures Valid() ==> s == 240 && s == 4 * GetLineIndexCount()
    {
      |lineIndices| * 4
    }

    /** One interleaved record per vertex. */
    function GetInterleavedVertexCount(): (c: nat)
      reads this
      ensures Valid() ==> c == 60 && 8 * c == |interleavedVertices|
    {
      GetVertexCount()
    }

    /** The interleaved buffer is one stride per vertex. */
    function GetInterleavedVertexSize(): (s: nat)
      reads this
      ensures Valid() ==> s == 1920 && s == GetInterleavedVertexCount() * GetInterleavedStride()
    {
      |interleavedVertices| * 4
    }

    /** A record is eight 4-byte floats. */
    function GetInterleavedStride(): (s: int)
      reads this
      ensures Valid() ==> s == 8 * 4
    {
      interleavedStride
    }
  }
}
