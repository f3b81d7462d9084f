/**
  The edge lines of the track (components/Track.tsx): two ribbons of
  triangles, one on each side of the road, built by walking the sampled
  centre line and pushing vertex coordinates and triangle indices into two
  growing buffers.
 */
module TrackMesh {
  import opened Geometry

  const TrackWidth: real := 14.0
  const HalfWidth: real := TrackWidth / 2.0
  const LineWidth: real := 0.8
  /** The ribbons float this far above the curve so they sit on the road surface. */
  const RibbonLift: real := 0.15

  function Abs(x: real): real {
    if x < 0.0 then -x else x
  }

  /**
    The ribbon's outer edge: `LineWidth` further out on the side of the
    inner offset. A zero offset counts as the negative side.
   */
  function OuterOffset(offset: real): (r: real)
    ensures r > 0.0 <==> offset > 0.0
    ensures Abs(r) == Abs(offset) + LineWidth
    ensures Abs(r - offset) == LineWidth
  {
    if offset > 0.0 then offset + LineWidth else offset - LineWidth
  }

  /** Negating a non-zero offset mirrors the outer edge; a zero offset does not. */
  lemma OuterOffsetMirror(offset: real)
    ensures offset != 0.0 ==> OuterOffset(-offset) == -OuterOffset(offset)
    ensures offset == 0.0 ==> OuterOffset(-offset) == OuterOffset(offset) == -LineWidth
  {
  }

  /** The `x, y, z` a vertex pushes into the buffer, lifted by `RibbonLift`. */
  function Lifted(v: Vec3): seq<real> {
    [v.x, v.y + RibbonLift, v.z]
  }

  /** The two vertices pushed for curve point `p`: inner edge, then outer edge. */
  function VertexPair(p: Vec3, normal: Vec3, offset: real): (r: seq<real>)
    ensures |r| == 6
  {
    Lifted(Add(p, Scale(normal, offset))) + Lifted(Add(p, Scale(normal, OuterOffset(offset))))
  }

  /** The vertex buffer after the first `n` curve points. */
  function StripVertices(points: seq<Vec3>, normals: seq<Vec3>, offset: real, n: nat): (r: seq<real>)
    requires n <= |points| <= |normals|
    ensures |r| == 6 * n
  {
    if n == 0 then []
    else StripVertices(points, normals, offset, n - 1) + VertexPair(points[n - 1], normals[n - 1], offset)
  }

  /** The two triangles joining point `q`'s edge pair to point `q + 1`'s. */
  function QuadIndices(q: nat): seq<int> {
    var base := 2 * q;
    [base, base + 1, base + 2, base + 1, base + 3, base + 2]
  }

  /** The index buffer after the first `k` quads. */
  function StripIndices(k: nat): (r: seq<int>)
    ensures |r| == 6 * k
  {
    if k == 0 then [] else StripIndices(k - 1) + QuadIndices(k - 1)
  }

  /** Every point but the last starts a quad. */
  function Quads(n: nat): nat {
    if n == 0 then 0 else n - 1
  }

  /** Point `i`'s six coordinates sit at offsets `6i .. 6i + 6` of the vertex buffer. */
  lemma {:induction false} StripVerticesAt(points: seq<Vec3>, normals: seq<Vec3>, offset: real, n: nat, i: nat)
    requires i < n <= |points| <= |normals|
    ensures StripVertices(points, normals, offset, n)[6 * i .. 6 * i + 6] == VertexPair(points[i], normals[i], offset)
  {
    var prev := StripVertices(points, normals, offset, n - 1);
    var last := VertexPair(points[n - 1], normals[n - 1], offset);
    if i < n - 1 {
      StripVerticesAt(points, normals, offset, n - 1, i);
      assert (prev + last)[6 * i .. 6 * i + 6] == prev[6 * i .. 6 * i + 6];
    } else {
      assert (prev + last)[6 * i .. 6 * i + 6] == last;
    }
  }

  /** Quad `q`'s two triangles sit at offsets `6q .. 6q + 6` of the index buffer. */
  lemma {:induction false} StripIndicesAt(k: nat, q: nat)
    requires q < k
    ensures StripIndices(k)[6 * q .. 6 * q + 6] == QuadIndices(q)
  {
    var prev := StripIndices(k - 1);
    if q < k - 1 {
      StripIndicesAt(k - 1, q);
      assert (prev + QuadIndices(k - 1))[6 * q .. 6 * q + 6] == prev[6 * q .. 6 * q + 6];
    } else {
      assert (prev + QuadIndices(k - 1))[6 * q .. 6 * q + 6] == QuadIndices(q);
    }
  }

  /** The first `k` quads refer only to vertices `0 .. 2k + 1`. */
  lemma {:induction false} StripIndicesBounded(k: nat)
    ensures forall j :: 0 <= j < |StripIndices(k)| ==> 0 <= StripIndices(k)[j] <= 2 * k + 1
  {
    if k > 0 {
      StripIndicesBounded(k - 1);
      var prev := StripIndices(k - 1);
      var quad := QuadIndices(k - 1);
      forall j | 0 <= j < |prev + quad|
        ensures 0 <= (prev + quad)[j] <= 2 * k + 1
      {
        if j < |prev| {
          assert (prev + quad)[j] == prev[j];
        } else {
          assert (prev + quad)[j] == quad[j - |prev|];
        }
      }
    }
  }

  /**
    Of the strip of `n` points, the last quad uses the last vertex `2n - 1`,
    so the quads reach every vertex pair.
   */
  lemma LastQuadReachesEnd(n: nat)
    requires n >= 2
    ensures StripIndices(Quads(n))[6 * (n - 2) + 4] == 2 * n - 1
  {
    StripIndicesAt(n - 1, n - 2);
  }

  /**
    The inner and outer vertices of one point lie on the line through the
    point along its normal, `LineWidth` apart in units of the normal.
   */
  lemma RibbonAcrossNormal(p: Vec3, normal: Vec3, offset: real)
    ensures var pair := VertexPair(p, normal, offset);
      && pair[1] == p.y + normal.y * offset + RibbonLift
      && pair[4] == p.y + normal.y * OuterOffset(offset) + RibbonLift
      && Abs(OuterOffset(offset) - offset) == LineWidth
      && pair[3] - pair[0] == normal.x * (OuterOffset(offset) - offset)
      && pair[5] - pair[2] == normal.z * (OuterOffset(offset) - offset)
  {
    var s := OuterOffset(offset) - offset;
    assert normal.x * OuterOffset(offset) - normal.x * offset == normal.x * s;
    assert normal.z * OuterOffset(offset) - normal.z * offset == normal.z * s;
  }

  /**
    The ribbons at `offset` and `-offset` are mirror images about the curve:
    for every point their corresponding vertices average to the lifted
    point itself (for a non-zero offset, also the outer ones).
   */
  lemma MirrorPair(p: Vec3, normal: Vec3, offset: real)
    requires offset != 0.0
    ensures forall c :: 0 <= c < 6 ==>
      VertexPair(p, normal, offset)[c] + VertexPair(p, normal, -offset)[c] == 2.0 * Lifted(p)[c % 3]
  {
    OuterOffsetMirror(offset);
    var o := OuterOffset(offset);
    assert normal.x * (-offset) == -(normal.x * offset);
    assert normal.y * (-offset) == -(normal.y * offset);
    assert normal.z * (-offset) == -(normal.z * offset);
    assert normal.x * (-o) == -(normal.x * o);
    assert normal.y * (-o) == -(normal.y * o);
    assert normal.z * (-o) == -(normal.z * o);
  }

  /**
    `buildStrip`: one pair of vertices for every curve point, and two
    triangles for every point but the last, joining it to the next.
   */
  method BuildStrip(points: seq<Vec3>, normals: seq<Vec3>, offset: real) returns (vertices: seq<real>, indices: seq<int>)
    requires |points| <= |normals|
    ensures vertices == StripVertices(points, normals, offset, |points|)
    ensures indices == StripIndices(Quads(|points|))
    ensures |vertices| == 6 * |points|
    ensures |indices| == 6 * Quads(|points|)
    ensures forall j :: 0 <= j < |indices| ==> 0 <= indices[j] < 2 * |points|
  {
    vertices := [];
    indices := [];
    for i := 0 to |points|
      invariant vertices == StripVertices(points, normals, offset, i)
      invariant indices == StripIndices(if i < |points| then i else Quads(|points|))
    {
      var p := points[i];
      var normal := normals[i];
      var inner := Add(p, Scale(normal, offset));
      var outer := Add(p, Scale(normal, OuterOffset(offset)));
      ghost var before := vertices;
      vertices := vertices + Lifted(inner);
      vertices := vertices + Lifted(outer);
      assert vertices == before + VertexPair(p, normal, offset);
      if i < |points| - 1 {
        var base := i * 2;
        ghost var prior := indices;
        indices := indices + [base, base + 1, base + 2];
        indices := indices + [base + 1, base + 3, base + 2];
        assert indices == prior + QuadIndices(i);
      }
    }
    StripIndicesBounded(Quads(|points|));
  }

  /**
    The left and right edge lines: strips at `+HalfWidth` and `-HalfWidth`.
    They share one index buffer, and point by point their vertices mirror
    each other about the centre line.
   */
  method EdgeLines(points: seq<Vec3>, normals: seq<Vec3>)
    returns (leftVertices: seq<real>, leftIndices: seq<int>, rightVertices: seq<real>, rightIndices: seq<int>)
    requires |points| <= |normals|
    ensures leftVertices == StripVertices(points, normals, HalfWidth, |points|)
    ensures rightVertices == StripVertices(points, normals, -HalfWidth, |points|)
    ensures leftIndices == rightIndices == StripIndices(Quads(|points|))
    ensures forall i, c :: 0 <= i < |points| && 0 <= c < 6 ==>
      leftVertices[6 * i .. 6 * i + 6][c] + rightVertices[6 * i .. 6 * i + 6][c] == 2.0 * Lifted(points[i])[c % 3]
  {
    leftVertices, leftIndices := BuildStrip(points, normals, HalfWidth);
    rightVertices, rightIndices := BuildStrip(points, normals, -HalfWidth);
    forall i | 0 <= i < |points|
      ensures forall c :: 0 <= c < 6 ==>
        leftVertices[6 * i .. 6 * i + 6][c] + rightVertices[6 * i .. 6 * i + 6][c] == 2.0 * Lifted(points[i])[c % 3]
    {
      StripVerticesAt(points, normals, HalfWidth, |points|, i);
      StripVerticesAt(points, normals, -HalfWidth, |points|, i);
      MirrorPair(points[i], normals[i], HalfWidth);
    }
  }
}
