# Icosahedron mesh and GL extension list, modelled in Dafny

This project models the core of an OpenGL example program. It has two parts.

**The `Icosahedron` class** generates the mesh of an icosahedron inscribed in a sphere of radius r (1 by default).
- It computes 12 base vertices in spherical coordinates.
  - The poles are at (0, 0, ±r).
  - Two rings of five vertices sit at elevation ±atan(1/2), spaced 72 degrees apart.
- It expands them into 20 flat-shaded triangles. Every triangle gets its own three vertices, its face normal and coordinates in an 11 × 3 texture atlas.
- It fills the sequential triangle indices and the wireframe line pairs. The 30 line pairs draw the icosahedron's 30 edges, each exactly once.
- It builds an interleaved V/N/T buffer with a stride of 32 bytes.
- Setting the radius builds the mesh when no vertices exist yet. Otherwise it rescales the positions in place.
- Setting the edge length (radius = edge · sin(2π/5)) always rescales the positions in place; it never builds.

**The `glExtension` class** reads the extension list of a GL context.
- It splits the space-separated extension string into names.
- It sorts the names alphabetically.
- It answers case-insensitive "is this extension supported" queries.

The modules:

| file | module | contents |
|---|---|---|
| `geometry.dfy` | `Geometry` | vectors, the float maths library as a parameter, `computeFaceNormal` |
| `mesh_layout.dfy` | `MeshLayout` | closed forms of every buffer: base vertices, the 20 faces, the per-face expansion, indices, line pairs, the interleaved layout, rescaling |
| `icosahedron.dfy` | `IcosahedronMesh` | the class: fields as `seq` and the methods as imperative code, each proved against the closed forms |
| `ext_strings.dfy` | `ExtensionText` | the tokenizer as functions, alphabetical order, ASCII lower-casing |
| `gl_extension.dfy` | `GlExtensionList` | the class holding the sorted extension list, with its methods |

**Class invariants**
- `Icosahedron.Valid()` says:
  - the stride is 32;
  - the edge length is radius / sin(2π/5);
  - the positions equal the closed-form mesh (`MeshBuffers`) of the current base vertices (`corners`);
  - the normals and texture coordinates equal those of the base vertices of the last build (`builtCorners`);
  - `builtCorners` are the 12 base vertices of the radius at that build (`builtRadius`).
- A rescale changes `corners` but not `builtCorners`, because `updateRadius` leaves the normals alone. Right after a build the two are equal.
- `GlExtension.Valid()` says the list is sorted.

**Modelling choices**
- `float` arithmetic is modelled with `real`.
  - `sinf`, `cosf`, `atanf` and `sqrtf` are uninterpreted functions of a `MathLib` value passed to the object.
  - Lemmas that need a trigonometric identity or an exact square root take it as a precondition (`Pythagorean`, `FaceNormalIsUnit`, `RescaleReachesRadius`).
- The source writes π in two ways, and the model keeps both constants:
  - 3.1415926 in `computeVertices` (Icosahedron.cpp:199);
  - 3.141592 in `setRadius` and `setEdgeLength`.
- `updateRadius` computes its scale factor with `RescaleFactor`.
- `AddSector` is one pass of `buildVertices`' sector loop. `AddSectorTriangles` emits the pass's four triangles, and `AddSector` then adds the line indices.
- `glGetString(GL_EXTENSIONS)` is an `Option<string>` input; `None` is the null pointer.
- `getExtensionStrings` appends to the entries already in the list and then sorts the whole list. The model does the same.

## Model

| member | source | states |
|---|---|---|
| Geometry.FaceNormal | temp/icosahedron/src/Icosahedron.cpp:471-502 | computeFaceNormal: the cross product of the edges v1→v2 and v1→v3 divided by its length, or (0,0,0) when that length is not above EPSILON. Its properties are stated by FaceNormalOrthogonal, FaceNormalIsUnit and DegenerateFaceHasZeroNormal |
| Geometry.FaceNormalOrthogonal | temp/icosahedron/src/Icosahedron.cpp:471-502 | the face normal is either the zero vector or the cross product of v1→v2 and v1→v3 divided by a length above EPSILON; in both cases it is orthogonal to both edges |
| Geometry.FaceNormalIsUnit | temp/icosahedron/src/Icosahedron.cpp:492-501 | when sqrtf is exact at the squared cross-product length, a non-zero face normal has length 1 |
| Geometry.DegenerateFaceHasZeroNormal | temp/icosahedron/src/Icosahedron.cpp:473-494 | a face with a zero or collinear edge gets the zero normal (0,0,0) |
| MeshLayout.BaseVertex | temp/icosahedron/src/Icosahedron.cpp:197-242 | vertex 0 is the north pole (0,0,r) and vertex 11 the south pole (0,0,-r); vertices 1-5 lie at height r·sin(atan(1/2)) and vertices 6-10 at the opposite height |
| MeshLayout.RingVertices | temp/icosahedron/src/Icosahedron.cpp:215-233 | at step i of the ring loop the horizontal angles have advanced by (i-1)·72°, and the floats written for vertices i and i+5 are base vertices i and i+5 |
| MeshLayout.RingStep | temp/icosahedron/src/Icosahedron.cpp:215-233 | one pass of the ring loop: if vertex 0 and the ring vertices before i are in place, the six writes, in the source's order, put vertices i and i+5 in place and leave every other vertex as it was |
| MeshLayout.BaseVertexOnSphere | temp/icosahedron/src/Icosahedron.cpp:4-10 | when sin²+cos² = 1, every one of the 12 base vertices is at distance r from the origin |
| MeshLayout.SectorFaces | temp/icosahedron/src/Icosahedron.cpp:286-334 | the four triangles of a sector are well formed: three distinct base vertices below 12, each atlas anchor on its vertex's row and within 11 columns; sector 5 wraps to vertices 1 and 6 |
| MeshLayout.FacesUpTo | temp/icosahedron/src/Icosahedron.cpp:286-341 | sectors 1..n emit 4n well-formed triangles |
| MeshLayout.FacesStep | temp/icosahedron/src/Icosahedron.cpp:286-341 | the triangles of sector i follow those of sectors 1..i-1 in emission order |
| MeshLayout.MeshFaces | temp/icosahedron/src/Icosahedron.cpp:283-341 | the mesh has 20 triangles |
| MeshLayout.Gather | temp/icosahedron/src/Icosahedron.cpp:379-423 | a buffer built from triangles holds 9 floats per triangle, or 6 for texture coordinates |
| MeshLayout.FaceData | temp/icosahedron/src/Icosahedron.cpp:310-313 | what one triangle pushes: its three corners (9 floats), its normal three times (9 floats) or its three atlas coordinates (6 floats) |
| MeshLayout.GatherSnoc | temp/icosahedron/src/Icosahedron.cpp:310-314 | emitting one more triangle appends exactly that triangle's data to each buffer |
| MeshLayout.GatherAt | temp/icosahedron/src/Icosahedron.cpp:379-423 | triangle t's data sits at offset 9t (6t for texture coordinates) |
| MeshLayout.GatherPositionAt | temp/icosahedron/src/Icosahedron.cpp:379-390 | vertex 3t+j of the position buffer is corner j of triangle t |
| MeshLayout.GatherNormalAt | temp/icosahedron/src/Icosahedron.cpp:397-408 | normal 3t+j is the face normal of triangle t |
| MeshLayout.GatherTexCoordAt | temp/icosahedron/src/Icosahedron.cpp:415-423 | texture coordinate 3t+j is the atlas anchor of corner j of triangle t |
| MeshLayout.GatherVertex | temp/icosahedron/src/Icosahedron.cpp:309-334 | every emitted vertex v carries the position, normal and texture coordinate of corner v mod 3 of triangle v div 3 |
| MeshLayout.GatherFacePositions | temp/icosahedron/src/Icosahedron.cpp:379-390 | addVertices with a triangle's corners extends the position buffer from the triangles before it to the triangles including it |
| MeshLayout.GatherFaceNormals | temp/icosahedron/src/Icosahedron.cpp:397-408 | addNormals with the computed face normal three times extends the normal buffer by that triangle |
| MeshLayout.GatherFaceTexCoords | temp/icosahedron/src/Icosahedron.cpp:415-423 | addTexCoords with a triangle's atlas coordinates extends the texture buffer by that triangle |
| MeshLayout.SequentialStep | temp/icosahedron/src/Icosahedron.cpp:430-435 | adding the indices n, n+1, n+2 after 0..n-1 gives 0..n+2, so index k is vertex k |
| MeshLayout.Sequential | temp/icosahedron/src/Icosahedron.cpp:314-334 | the triangle index buffer after n indices: 0, 1, ..., n-1, one index per emitted vertex; its growth by addIndices is stated by SequentialStep |
| MeshLayout.FlatShading | temp/icosahedron/src/Icosahedron.cpp:310-313 | the three vertices of each triangle have the same normal (flat shading) |
| MeshLayout.GatherTexCoordOnGrid | temp/icosahedron/src/Icosahedron.cpp:302-307 | each texture coordinate of a well-formed triangle is (m·S, n·T) with m ≤ 11, and n is the atlas row of its vertex |
| MeshLayout.TexCoordsOnAtlasGrid | temp/icosahedron/src/Icosahedron.cpp:302-307 | every texture coordinate of the mesh lies on the 11 × 3 atlas grid; the north pole is on row 0 and the south pole on row 3 |
| MeshLayout.FaceDataScaled | temp/icosahedron/src/Icosahedron.cpp:176-180 | a triangle's positions from scaled base vertices are its positions scaled |
| MeshLayout.GatherScaled | temp/icosahedron/src/Icosahedron.cpp:170-187 | expanding scaled base vertices gives the scaled position buffer |
| MeshLayout.SectorLines | temp/icosahedron/src/Icosahedron.cpp:450-461 | the 12 indices addLineIndices(b) pushes: six pairs, each index one of the sector's own 12 emitted vertices b..b+11 |
| MeshLayout.SectorLinesShift | temp/icosahedron/src/Icosahedron.cpp:448-462 | a sector's 12 line indices are the first sector's pattern shifted by the sector's first index |
| MeshLayout.LinesUpTo | temp/icosahedron/src/Icosahedron.cpp:337 | after n sectors the line buffer holds 12n indices |
| MeshLayout.LinesStep | temp/icosahedron/src/Icosahedron.cpp:337-340 | adding sector n's line pairs, starting at index 12n, to n sectors gives n+1 sectors |
| MeshLayout.SegmentShape | temp/icosahedron/src/Icosahedron.cpp:448-462 | line pair p is pair p mod 6 of the pattern, shifted by 12·(p div 6) |
| MeshLayout.SectorSegments | temp/icosahedron/src/Icosahedron.cpp:448-462 | within a sector each pair is ascending, below 12 and inside one triangle |
| MeshLayout.SectorSegmentsDistinct | temp/icosahedron/src/Icosahedron.cpp:448-462 | the six pairs of a sector are pairwise different |
| MeshLayout.SegmentInjective | temp/icosahedron/src/Icosahedron.cpp:337-340 | no pair of line indices is emitted twice (that the pairs are also different edges of the solid is WireframeIsEdges) |
| MeshLayout.LineIndexProperties | temp/icosahedron/src/Icosahedron.cpp:448-462 | after n sectors there are 6n pairs (u, w) with u < w < 12n, both ends in the same triangle, and no index pair repeated |
| MeshLayout.WireEdgeShape | temp/icosahedron/src/Icosahedron.cpp:286-340 | segment 6(i-1)+r of the wireframe joins the base vertices (0,i), (i,i+5), (i,i'), (i+5,i'), (i+5,11), (i+5,i'+5) for r = 0..5, where i' is the ring vertex after i |
| MeshLayout.WireframeIsEdges | temp/icosahedron/src/Icosahedron.cpp:4 | the 30 segments of the wireframe join 30 different pairs of base vertices, and every side of each of the 20 triangles is one of them: the wireframe draws each of the icosahedron's 30 edges exactly once |
| MeshLayout.Interleave | temp/icosahedron/src/Icosahedron.cpp:353-372 | the interleaved buffer: one record per vertex, 8 floats long (position, normal, texture coordinate); its growth is stated by InterleaveSnoc |
| MeshLayout.InterleaveSnoc | temp/icosahedron/src/Icosahedron.cpp:359-371 | pushing record n (3 position floats, 3 normal floats, 2 texture floats) extends the interleaving of n vertices to n+1 |
| MeshLayout.Record | temp/icosahedron/src/Icosahedron.cpp:361-370 | the 8 floats one pass pushes for vertex k: its 3 position floats, its 3 normal floats, then its 2 texture floats |
| MeshLayout.InterleaveRescale | temp/icosahedron/src/Icosahedron.cpp:170-187 | interleaving scaled positions equals scaling the three position slots of each interleaved record |
| MeshLayout.ScaledPositionSlots | temp/icosahedron/src/Icosahedron.cpp:182-185 | updateRadius on the interleaved buffer: slots 0-2 of every 8-float record multiplied by the factor, the other slots kept, the length unchanged |
| MeshLayout.PartlyScaledStep | temp/icosahedron/src/Icosahedron.cpp:176-180 | one loop pass's three multiplications on `vertices` extend the scaled prefix by three floats |
| MeshLayout.PartlySlotsScaledStep | temp/icosahedron/src/Icosahedron.cpp:182-185 | one loop pass's three multiplications on the interleaved buffer scale the position slots of one more record |
| MeshLayout.MeshBuffers | temp/icosahedron/src/Icosahedron.cpp:261-345 | the six buffers after a build: positions, normals and texture coordinates expanded from the 20 triangles, indices 0..59, the 60 wireframe indices and the 480-float interleaved copy |
| MeshLayout.MeshNormal | temp/icosahedron/src/Icosahedron.cpp:309-314 | in a built mesh, the normal stored for vertex v is the face normal of triangle v div 3 over the base vertices of the build, and it is orthogonal to that triangle's edges |
| MeshLayout.RescaleKeepsMesh | temp/icosahedron/src/Icosahedron.cpp:170-187 | rescaling a built mesh gives the built mesh of the scaled base vertices; normals, texture coordinates and indices are unchanged |
| MeshLayout.RescaleFactor | temp/icosahedron/src/Icosahedron.cpp:172 | the scale factor of updateRadius: sqrt(r² / the squared length of vertex 0). RescaleReachesRadius states what it achieves |
| MeshLayout.RescaleReachesRadius | temp/icosahedron/src/Icosahedron.cpp:172 | when sqrtf is exact, the rescaled vertex 0 has squared distance r² from the origin |
| IcosahedronMesh.Icosahedron.constructor | temp/icosahedron/src/Icosahedron.cpp:55-58 | the new object is built and valid; its radius is r (1 by default) and its edge length r / sin(2π/5); the positions, and the normals and texture coordinates, are all expanded from the 12 base vertices of radius r, so each stored normal is its triangle's face normal (MeshNormal) |
| IcosahedronMesh.Icosahedron.SetRadius | temp/icosahedron/src/Icosahedron.cpp:65-73 | stores the radius and the matching edge length; an empty object is built, with positions, normals and texture coordinates all from the base vertices of r; a built one has its positions rescaled and its other buffers kept; the invariant holds afterwards |
| IcosahedronMesh.Icosahedron.SetEdgeLength | temp/icosahedron/src/Icosahedron.cpp:75-80 | stores the edge length and the radius edge·sin(2π/5), rescales the positions and keeps every other buffer; the invariant holds afterwards |
| IcosahedronMesh.Icosahedron.UpdateRadius | temp/icosahedron/src/Icosahedron.cpp:170-187 | every position, in both buffers, is multiplied by the factor that brings the squared distance of vertex 0 to radius², that is its distance to |radius|; a built mesh stays built |
| IcosahedronMesh.Icosahedron.ComputeVertices | temp/icosahedron/src/Icosahedron.cpp:197-242 | returns 36 floats, which are the 12 base vertices of the current radius |
| IcosahedronMesh.Icosahedron.BuildVertices | temp/icosahedron/src/Icosahedron.cpp:261-345 | afterwards the buffers are exactly the 20-triangle mesh of the base vertices of the current radius (positions, face normals and atlas coordinates), with its indices, line pairs and interleaved copy |
| IcosahedronMesh.Icosahedron.AddSector | temp/icosahedron/src/Icosahedron.cpp:286-341 | one pass of the sector loop grows every buffer from the mesh of sectors 1..i-1 to that of sectors 1..i |
| IcosahedronMesh.Icosahedron.AddSectorTriangles | temp/icosahedron/src/Icosahedron.cpp:288-334 | the four triangles of sector i, with their corners v0..v4 and v11 and their atlas coordinates, extend the vertex, normal, texture and index buffers by exactly the sector's faces |
| IcosahedronMesh.Icosahedron.AddTriangle | temp/icosahedron/src/Icosahedron.cpp:309-334 | one triangle (face normal, then its vertices, normals, texture coordinates and indices) extends the buffers by exactly that face |
| IcosahedronMesh.Icosahedron.BuildInterleavedVertices | temp/icosahedron/src/Icosahedron.cpp:353-372 | the interleaved buffer is rebuilt as one 8-float record per vertex |
| IcosahedronMesh.Icosahedron.AddVertices | temp/icosahedron/src/Icosahedron.cpp:379-390 | appends the nine coordinates of the three positions, in order |
| IcosahedronMesh.Icosahedron.AddNormals | temp/icosahedron/src/Icosahedron.cpp:397-408 | appends the nine coordinates of the three normals, in order |
| IcosahedronMesh.Icosahedron.AddTexCoords | temp/icosahedron/src/Icosahedron.cpp:415-423 | appends the six coordinates of the three texture points, in order |
| IcosahedronMesh.Icosahedron.AddIndices | temp/icosahedron/src/Icosahedron.cpp:430-435 | appends the three indices |
| IcosahedronMesh.Icosahedron.AddLineIndices | temp/icosahedron/src/Icosahedron.cpp:448-462 | appends the sector's 12 line indices, relative to its first index |
| IcosahedronMesh.Icosahedron.GetRadius | temp/icosahedron/src/Icosahedron.h:43 | on a valid object, radius = edge length · sin(2π/5) |
| IcosahedronMesh.Icosahedron.GetEdgeLength | temp/icosahedron/src/Icosahedron.h:45 | on a valid object, edge length = radius / sin(2π/5) |
| IcosahedronMesh.Icosahedron.GetVertexCount | temp/icosahedron/src/Icosahedron.h:49 | a built mesh has 60 vertices |
| IcosahedronMesh.Icosahedron.GetNormalCount | temp/icosahedron/src/Icosahedron.h:50 | one normal per vertex (60) |
| IcosahedronMesh.Icosahedron.GetTexCoordCount | temp/icosahedron/src/Icosahedron.h:51 | one texture coordinate per vertex (60) |
| IcosahedronMesh.Icosahedron.GetIndexCount | temp/icosahedron/src/Icosahedron.h:52 | one index per vertex (60) |
| IcosahedronMesh.Icosahedron.GetLineIndexCount | temp/icosahedron/src/Icosahedron.h:53 | 60 line indices: 30 pairs |
| IcosahedronMesh.Icosahedron.GetTriangleCount | temp/icosahedron/src/Icosahedron.h:54 | 20 triangles, three vertices each |
| IcosahedronMesh.Icosahedron.GetVertexSize | temp/icosahedron/src/Icosahedron.h:56 | 720 bytes: three 4-byte floats per vertex |
| IcosahedronMesh.Icosahedron.GetNormalSize | temp/icosahedron/src/Icosahedron.h:57 | 720 bytes: three 4-byte floats per normal |
| IcosahedronMesh.Icosahedron.GetTexCoordSize | temp/icosahedron/src/Icosahedron.h:58 | 480 bytes: two 4-byte floats per texture coordinate |
| IcosahedronMesh.Icosahedron.GetIndexSize | temp/icosahedron/src/Icosahedron.h:59 | 240 bytes: one 4-byte index per vertex |
| IcosahedronMesh.Icosahedron.GetLineIndexSize | temp/icosahedron/src/Icosahedron.h:60 | 240 bytes: 4 bytes per line index |
| IcosahedronMesh.Icosahedron.GetInterleavedVertexCount | temp/icosahedron/src/Icosahedron.h:69 | 60 records: one per vertex, 8 floats each |
| IcosahedronMesh.Icosahedron.GetInterleavedVertexSize | temp/icosahedron/src/Icosahedron.h:70 | 1920 bytes: the record count times the stride |
| IcosahedronMesh.Icosahedron.GetInterleavedStride | temp/icosahedron/src/Icosahedron.h:71 | the stride is 32 bytes: eight 4-byte floats |
| ExtensionText.Tokens | temp/icosahedron/src/glExtension.cpp:488-503 | the names the tokenizer pushes while reading a string; its properties are stated by ScanStep, TokenCount, TokensSpaceFree, JoinTokens, TokensUnique and JoinRoundTrip |
| ExtensionText.Pending | temp/icosahedron/src/glExtension.cpp:489-501 | the name being built (`token`), which is never pushed unless a space follows; stated by the same lemmas |
| ExtensionText.ScanStep | temp/icosahedron/src/glExtension.cpp:491-503 | a space pushes the pending token and clears it; any other character extends the pending token |
| ExtensionText.TokenCount | temp/icosahedron/src/glExtension.cpp:488-503 | exactly one name is pushed per space in the string |
| ExtensionText.TokensSpaceFree | temp/icosahedron/src/glExtension.cpp:493-501 | no pushed name, and not the pending one, contains a space |
| ExtensionText.JoinTokens | temp/icosahedron/src/glExtension.cpp:488-503 | nothing is lost except the text after the last space: the names, each followed by a space, and then the pending text spell the input |
| ExtensionText.TokensUnique | temp/icosahedron/src/glExtension.cpp:488-503 | the split is the only one: any space-free names that, each followed by a space, and a space-free rest spell the input are the pushed names and the pending text |
| ExtensionText.JoinRoundTrip | temp/icosahedron/src/glExtension.cpp:488-503 | scanning space-free names, each followed by a space, gives the names back with nothing pending |
| ExtensionText.Join | temp/icosahedron/src/glExtension.cpp:488-503 | a non-empty list spelled out ends in a space |
| ExtensionText.LessEq | temp/icosahedron/src/glExtension.cpp:532 | std::string's operator<, as the not-after relation: lexicographic by character code, a proper prefix first. LessEqTotal, LessEqAntisymmetric, LessEqTransitive and LessEqReflexive make it a total order |
| ExtensionText.LessEqTotal | temp/icosahedron/src/glExtension.cpp:531-532 | any two names are comparable in alphabetical order |
| ExtensionText.LessEqAntisymmetric | temp/icosahedron/src/glExtension.cpp:531-532 | names that are each not after the other are equal |
| ExtensionText.LessEqTransitive | temp/icosahedron/src/glExtension.cpp:531-532 | alphabetical order is transitive |
| ExtensionText.LessEqReflexive | temp/icosahedron/src/glExtension.cpp:531-532 | every name is not after itself |
| ExtensionText.Insert | temp/icosahedron/src/glExtension.cpp:531-532 | inserting into a sorted list keeps it sorted and adds exactly that name |
| ExtensionText.SortStrings | temp/icosahedron/src/glExtension.cpp:531-532 | the result is sorted and a permutation of the input |
| ExtensionText.SortedHeadLeast | temp/icosahedron/src/glExtension.cpp:531-532 | the first element of a sorted list is not after any element of the list |
| ExtensionText.SortedUnique | temp/icosahedron/src/glExtension.cpp:531-532 | two sorted lists holding the same names are equal, so any correct sort leaves the list that SortStrings gives |
| ExtensionText.LowerChar | temp/icosahedron/src/glExtension.cpp:543 | ::tolower in the C locale: 'A'..'Z' become 'a'..'z' and every other character is kept; stated by LowerProperties |
| ExtensionText.Lower | temp/icosahedron/src/glExtension.cpp:540-545 | lower-casing keeps the length |
| ExtensionText.LowerProperties | temp/icosahedron/src/glExtension.cpp:540-545 | no capital letter remains; capitals A-Z become their small letter (code + 32); every other character is unchanged |
| ExtensionText.LowerIdempotent | temp/icosahedron/src/glExtension.cpp:540-545 | lower-casing twice gives the same result as lower-casing once |
| ExtensionText.LowerEqual | temp/icosahedron/src/glExtension.cpp:455 | two strings have equal lower-case forms exactly when they have the same length and agree character by character up to ASCII case |
| GlExtensionList.GlExtension.constructor | temp/icosahedron/src/glExtension.cpp:419-427 | the new list is sorted; it is empty for a null string and otherwise the sorted names of the string |
| GlExtensionList.GlExtension.GetExtensionStrings | temp/icosahedron/src/glExtension.cpp:482-533 | a null string changes nothing; otherwise the list becomes the old entries plus the scanned names, sorted (a sorted permutation); the sorted invariant is kept |
| GlExtensionList.GlExtension.IsSupported | temp/icosahedron/src/glExtension.cpp:448-461 | true exactly when some stored name equals the query once both are lower-cased |
| GlExtensionList.GlExtension.GetExtensions | temp/icosahedron/src/glExtension.cpp:468-475 | a non-empty list is returned unchanged; an empty one is collected again first; the result is the stored list, which stays sorted |
| GlExtensionList.GlExtension.ToLower | temp/icosahedron/src/glExtension.cpp:540-545 | returns the lower-cased copy of the string |

## Left out

- `draw`, `drawLines` and `drawWithLines` (Icosahedron.cpp:106-163) are left out because they issue OpenGL calls and compute nothing.
- `printSelf` (Icosahedron.cpp:87-98) is left out because it only writes text to standard output.
- Floating point: all arithmetic is on `real`, and `sinf`, `cosf`, `atanf` and `sqrtf` are uninterpreted. Rounding, and results that depend on the library's accuracy, are not modelled. The properties that need exact trigonometry or square roots take it as a precondition.
- The pointer getters (`getVertices`, `getNormals`, `getTexCoords`, `getIndices`, `getLineIndices`, `getInterleavedVertices`) are not separate members. The `seq` fields themselves play that role.
- Integer widths: `unsigned int` and `size_t` are `nat`. The counts never exceed a few hundred, so no wrap-around can occur.
- IcosahedronMesh.Icosahedron.UpdateRadius: requires vertex 0 to be non-zero and the interleaved buffer to have one record per vertex. Icosahedron.cpp:172 divides by the squared length of vertex 0 without checking it. After a radius of 0 every vertex is the origin. A later rescale to a radius r ≠ 0 then computes r²/0 = inf and multiplies 0 by inf, giving NaN; with r = 0 it computes 0/0. The model does not cover these NaN cases.
- IcosahedronMesh.Icosahedron.SetRadius: requires, on a built object, that vertex 0 is not the origin. This excludes the NaN case above. It also requires the invariant that ties the normals to the base vertices of the last build (`BuiltFromBase`), which every built object keeps.
- IcosahedronMesh.Icosahedron.SetEdgeLength: requires a valid, built object whose vertex 0 is not the origin. Every object reachable through the constructor is valid and built.
- IcosahedronMesh.Icosahedron.GetRadius: its contract holds on a valid object only, the state every object reachable through the constructor is in.
- IcosahedronMesh.Icosahedron.GetEdgeLength: its contract holds on a valid object only, for the same reason.
- The `_WIN32` branch of `getExtensionStrings` (glExtension.cpp:505-529) is left out because it reads WGL extensions through a driver function pointer. `getFunctionPointers` and the loading of GL entry points are left out for the same reason.
- `getInstance` (glExtension.cpp:436-440) is left out because it is process-wide singleton storage.
- The glExtension.h declarations hold no logic of their own.
- `glGetString` is the `Option<string>` argument of the methods that call it.
- ExtensionText.SortStrings: std::sort's algorithm (introsort, its comparisons and swaps) is not modelled, only its outcome. `SortedUnique` shows that outcome is unique.
- ExtensionText.LowerChar: `::tolower` is modelled for the C locale only. ASCII capitals map to small letters and everything else is unchanged; other locales are not modelled.
- ExtensionText.LessEq: `std::string::operator<` compares `char`s. The model compares character codes, which agree for the ASCII text GL returns.
