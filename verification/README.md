# Full-screen triangle vertex stage

A model of the vertex stage `main_vs` of the grr-gpu shader crate. The stage has no
vertex buffer: it reads the built-in i32 vertex index and writes a clip-space
position, taking x from bit 0 and y from bit 1 of the index:
x = ((id & 1) << 2) - 1 and y = ((id & 2) << 1) - 1, with z = 0 and w = 1. The host
draws a triangle list over the vertex range 0..3. That draw gives one over-sized triangle
with corners (-1, -1), (3, -1) and (-1, 3), which covers the whole clip square
[-1, 1] x [-1, 1]. Clipping then trims it to the viewport, so every pixel is shaded once.

Modules:
- `ClipSpace` (clip_space.dfy): positions, the perspective divide, and closed and open
  point-in-triangle tests.
- `Shader` (shader.dfy): `MainVs` on the 32-bit pattern of the index.
  `&`, `<<` and `-` act on the pattern, as they do on an i32. The result is read back as
  an i32 and converted exactly to f32.
- `Draw` (draw.dfy): running the vertex stage over a vertex range, triangle-list
  assembly, and the coverage of the clip square.

Two easy misreadings of the trick are corners at ±1 and a triangle that strictly contains
the clip square. The code differs on both points:
- The coordinates are -1 or 3.
- The containment is not strict. The left and bottom edges of the square lie on edges
  of the triangle, and the corner (1, 1) lies on its hypotenuse x + y = 2.

## Model

| member | source | states |
|---|---|---|
| Shader.MainVs | shader/src/lib.rs:32-43 | x and y are each -1 or 3; x is 3 exactly when bit 0 of the index is set, y exactly when bit 1 is set; z is 0 and w is 1 for every index |
| Shader.SubtractionNeverWraps | shader/src/lib.rs:38-39 | the i32 subtraction `- 1` never wraps for any index, so a build with overflow checks never traps |
| Shader.CoordinateDependsOnOneBit | shader/src/lib.rs:38-39 | two indices that agree on bit 0 get the same x; two that agree on bit 1 get the same y |
| Shader.CornerPerIndex | shader/src/lib.rs:37-42 | index 0 gives (-1, -1, 0, 1), index 1 gives (3, -1, 0, 1), index 2 gives (-1, 3, 0, 1), and the undrawn index 3 gives (3, 3, 0, 1) |
| Shader.LowBitIsParity | shader/src/lib.rs:38 | bit 0 of an i32's two's-complement pattern is set exactly when the value is odd, negative values included |
| Shader.PatternLowBit | shader/src/lib.rs:38 | bit 0 of a 32-bit pattern is set exactly when its unsigned value is odd |
| Shader.XIsParity | shader/src/lib.rs:38 | for every i32 index, x is 3 for odd indices and -1 for even ones |
| Shader.IntegerView | shader/src/lib.rs:38-39 | for the indices 0..3 the bit operations equal their integer reading: x = 4 * (v % 2) - 1 and y = 4 * ((v / 2) % 2) - 1 |
| Draw.RunVertexStage | src/main.rs:100 | a draw over the vertex range first..end yields exactly end - first positions; the k-th is the vertex stage applied to index first + k |
| Draw.Assemble | src/main.rs:100 | a triangle list has a third as many triangles as vertices, rounded down; triangle k is vertices 3k, 3k+1 and 3k+2 |
| Draw.FlattenAssemble | src/main.rs:100 | assembly drops only the trailing partial triangle: flattening the triangles restores the vertices up to the last multiple of three |
| Draw.FullScreenTriangleCorners | shader/src/lib.rs:38-39 | the drawn corners are (-1, -1), (3, -1) and (-1, 3): pairwise distinct, counter-clockwise, signed area 8 |
| Draw.FullScreenTriangleRegion | shader/src/lib.rs:38-39 | a point lies in the closed triangle if and only if x >= -1, y >= -1 and x + y <= 2 |
| Draw.CoversClipSquare | shader/src/lib.rs:37-42 | every point of the clip square [-1, 1] x [-1, 1] lies in the triangle |
| Draw.ClipSquareBoundaryOnEdges | shader/src/lib.rs:38-39 | a point of the clip square is strictly inside the triangle if and only if it is off the square's left and bottom edges and is not the corner (1, 1) |
| Draw.DrawFullScreen | src/main.rs:100 | every triangle assembled from the draw over 0..3 is projected; the range yields exactly one, the full-screen one, and it covers the whole clip square |

## Left out

- `main_fs` and `sdf_torus` (shader/src/lib.rs:11-28): floating-point shading. They use `length`, `abs`, a division that diverges on the ring or when the viewport height is 0, and `powf(2.2)`. Nothing about them is integer-exact.
- The host program (src/main.rs) apart from the vertex range of its draw call. Window and GL context creation, entry-point loading, the debug callback, event polling, resize, clear, swap and shader/pipeline deletion are calls into libraries whose code is not part of this model.
- The draw's instance range `0..1` is a single instance, so the model runs the vertex stage once over the vertex range and has no instance index.
- ClipSpace.Ndc and Draw.Project divide by w before clipping, while the GPU clips first and divides afterwards. The order does not matter here because every position has w = 1.
- Rasterisation and clipping themselves: the model stops at the claim that the clip square lies in the drawn triangle.
- Shader.IntegerView: states the integer reading of y only for the indices 0..3. For x the reading holds for every i32 index (Shader.XIsParity). For y, every index is covered only in bit terms (Shader.MainVs), because the solver cannot relate bit 1 of a bit-vector to integer division.
- Draw.RunVertexStage: requires first <= end. A reversed range is never issued by the host, and it is not modelled.
- The SPIR-V entry-point attributes, the `spirv_std` storage classes and the embedding of the compiled shader binary: toolchain plumbing.
