/** The host's single draw call, `draw(Triangles, 0..3, 0..1)`: the GPU runs the
    vertex stage once per index of the vertex range, groups the outputs into
    triangles three at a time, and rasterises what lies in the clip square. */
module Draw {
  import opened ClipSpace
  import opened Shader

  /** Vertex pulling for a non-indexed draw over the u32 range `first..end`: one
      vertex-stage invocation per index, in order, and nothing else. */
  method RunVertexStage(first: nat, end: nat) returns (out: seq<Vec4>)
    requires first <= end <= 0xFFFF_FFFF
    ensures |out| == end - first
    ensures forall k :: 0 <= k < |out| ==> out[k] == MainVs(Bits(first + k))
  {
    out := [];
    var id := first;
    while id < end
      invariant first <= id <= end
      invariant |out| == id - first
      invariant forall k :: 0 <= k < |out| ==> out[k] == MainVs(Bits(first + k))
    {
      out := out + [MainVs(Bits(id))];
      id := id + 1;
    }
  }

  /** Triangle-list assembly: every three consecutive vertices form one triangle;
      one or two trailing vertices form none. */
  function Assemble<T>(vs: seq<T>): (ts: seq<(T, T, T)>)
    ensures |ts| == |vs| / 3
    ensures forall k :: 0 <= k < |ts| ==> ts[k] == (vs[3 * k], vs[3 * k + 1], vs[3 * k + 2])
  {
    if |vs| < 3 then [] else [(vs[0], vs[1], vs[2])] + Assemble(vs[3..])
  }

  /** The vertices of a triangle list, in order. */
  function Flatten<T>(ts: seq<(T, T, T)>): seq<T> {
    if ts == [] then [] else [ts[0].0, ts[0].1, ts[0].2] + Flatten(ts[1..])
  }

  /** Assembly loses nothing but the trailing partial triangle: flattening the
      triangles gives back the vertices up to the last multiple of three. */
  lemma {:induction false} FlattenAssemble<T>(vs: seq<T>)
    ensures Flatten(Assemble(vs)) == vs[..|vs| / 3 * 3]
  {
    if |vs| >= 3 {
      FlattenAssemble(vs[3..]);
      assert vs[3..][..|vs[3..]| / 3 * 3] == vs[3..|vs| / 3 * 3];
    }
  }

  /** One assembled triangle projected onto the clip plane. */
  function Project(t: (Vec4, Vec4, Vec4)): Triangle
    requires t.0.w != 0 && t.1.w != 0 && t.2.w != 0
  {
    Triangle(Ndc(t.0), Ndc(t.1), Ndc(t.2))
  }

  /** The triangle spanned by the corners of the vertex indices 0, 1 and 2. */
  function FullScreenTriangle(): Triangle {
    Triangle(Ndc(MainVs(Bits(0))), Ndc(MainVs(Bits(1))), Ndc(MainVs(Bits(2))))
  }

  /** Its corners are (-1, -1), (3, -1) and (-1, 3): pairwise distinct, counter-clockwise,
      with signed area 8. */
  lemma FullScreenTriangleCorners()
    ensures FullScreenTriangle() == Triangle(Point(-1.0, -1.0), Point(3.0, -1.0), Point(-1.0, 3.0))
    ensures var t := FullScreenTriangle(); t.a != t.b && t.b != t.c && t.a != t.c
    ensures CounterClockwise(FullScreenTriangle())
    ensures TwiceArea(FullScreenTriangle()) == 16.0
  {
    CornerPerIndex();
  }

  /** The closed triangle is exactly the region x >= -1, y >= -1, x + y <= 2. */
  lemma FullScreenTriangleRegion(p: Point)
    ensures Covers(FullScreenTriangle(), p) <==> p.x >= -1.0 && p.y >= -1.0 && p.x + p.y <= 2.0
  {
    FullScreenTriangleCorners();
  }

  /** Every point of the clip square is covered, so every pixel of the viewport is shaded. */
  lemma CoversClipSquare(p: Point)
    requires InClipSquare(p)
    ensures Covers(FullScreenTriangle(), p)
  {
    FullScreenTriangleRegion(p);
  }

  /** The covering is not strict: the square's left and bottom edges lie on the
      triangle's edges and its corner (1, 1) on the hypotenuse; every other point
      of the square is interior. */
  lemma ClipSquareBoundaryOnEdges(p: Point)
    requires InClipSquare(p)
    ensures StrictlyCovers(FullScreenTriangle(), p) <==> p.x > -1.0 && p.y > -1.0 && p != Point(1.0, 1.0)
  {
    FullScreenTriangleCorners();
  }

  /** The host's draw over the vertex range 0..3: every assembled triangle is projected,
      and there is exactly one, the full-screen one, covering every point of the clip square. */
  method DrawFullScreen() returns (tris: seq<Triangle>)
    ensures |tris| == 1
    ensures tris[0] == FullScreenTriangle()
    ensures forall p :: InClipSquare(p) ==> Covers(tris[0], p)
  {
    var vs := RunVertexStage(0, 3);
    var ts := Assemble(vs);
    assert |ts| == 1;
    assert ts[0] == (MainVs(Bits(0)), MainVs(Bits(1)), MainVs(Bits(2)));
    tris := seq(|ts|, k requires 0 <= k < |ts| => Project(ts[k]));
    forall p | InClipSquare(p)
      ensures Covers(tris[0], p)
    {
      CoversClipSquare(p);
    }
  }
}
