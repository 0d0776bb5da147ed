/** The GLB viewer's CPU-side mesh preparation: the interleaved vertex layout,
    flat per-triangle normals and the index format of a mesh buffer. The 4x4
    matrix helpers that build the model-view-projection matrix are module
    `Matrix4`. */
module GlbLoader {
  import opened Common

  // ---------------------------------------------------------------------------
  // Interleaved vertex data: position (3), normal (3), uv (2) per vertex.

  /** `uvs[k] || 0`: a missing uv component reads as 0. */
  function UvOr0(uvs: seq<real>, k: nat): real {
    if k < |uvs| then uvs[k] else 0.0
  }

  /** Component `c` (0..7) of vertex `i` in the interleaved layout. */
  function Field(positions: seq<real>, normals: seq<real>, uvs: seq<real>, i: nat, c: nat): real
    requires 3 * i + 2 < |positions| <= |normals| && c < 8
  {
    if c < 3 then positions[3 * i + c]
    else if c < 6 then normals[3 * i + (c - 3)]
    else UvOr0(uvs, 2 * i + (c - 6))
  }

  /** The 8-float record of vertex `i`. */
  function Record(positions: seq<real>, normals: seq<real>, uvs: seq<real>, i: nat): (r: seq<real>)
    requires 3 * i + 2 < |positions| <= |normals|
    ensures |r| == 8
  {
    var p := 3 * i;
    [positions[p], positions[p + 1], positions[p + 2], normals[p], normals[p + 1], normals[p + 2],
     UvOr0(uvs, 2 * i), UvOr0(uvs, 2 * i + 1)]
  }

  /** The interleaved records of the first `n` vertices. */
  function Interleaved(positions: seq<real>, normals: seq<real>, uvs: seq<real>, n: nat): (r: seq<real>)
    requires 3 * n <= |positions| <= |normals|
    ensures |r| == 8 * n
  {
    if n == 0 then []
    else Interleaved(positions, normals, uvs, n - 1) + Record(positions, normals, uvs, n - 1)
  }

  /** Float `8i + c` of the interleaved array is component `c` of vertex `i`. */
  lemma {:induction false} InterleavedAt(positions: seq<real>, normals: seq<real>, uvs: seq<real>,
                                         n: nat, i: nat, c: nat)
    requires 3 * n <= |positions| <= |normals| && i < n && c < 8
    ensures Interleaved(positions, normals, uvs, n)[8 * i + c] == Field(positions, normals, uvs, i, c)
  {
    if i < n - 1 {
      InterleavedAt(positions, normals, uvs, n - 1, i, c);
    } else {
      assert Interleaved(positions, normals, uvs, n)[8 * i + c] == Record(positions, normals, uvs, i)[c];
    }
  }

  /** The `width` floats at `offset` of every 8-float vertex record, in vertex order. */
  function Attribute(data: seq<real>, offset: nat, width: nat): seq<real>
    requires offset + width <= 8
  {
    seq((|data| / 8) * width, k requires 0 <= k < (|data| / 8) * width =>
      DivBound(k, |data| / 8, width);
      data[8 * (k / width) + offset + k % width])
  }

  /** Reading the position attribute back out of the interleaved array gives the positions. */
  lemma PositionsRoundTrip(positions: seq<real>, normals: seq<real>, uvs: seq<real>)
    requires |positions| % 3 == 0 && |normals| >= |positions|
    ensures Attribute(Interleaved(positions, normals, uvs, |positions| / 3), 0, 3) == positions
  {
    var n := |positions| / 3;
    var data := Interleaved(positions, normals, uvs, n);
    assert |data| / 8 == n;
    forall k | 0 <= k < 3 * n
      ensures Attribute(data, 0, 3)[k] == positions[k]
    {
      DivBound(k, n, 3);
      InterleavedAt(positions, normals, uvs, n, k / 3, k % 3);
    }
  }

  /** Reading the normal attribute back gives the normals of those vertices. */
  lemma NormalsRoundTrip(positions: seq<real>, normals: seq<real>, uvs: seq<real>)
    requires |positions| % 3 == 0 && |normals| >= |positions|
    ensures Attribute(Interleaved(positions, normals, uvs, |positions| / 3), 3, 3) == normals[..|positions|]
  {
    var n := |positions| / 3;
    var data := Interleaved(positions, normals, uvs, n);
    assert |data| / 8 == n;
    forall k | 0 <= k < 3 * n
      ensures Attribute(data, 3, 3)[k] == normals[k]
    {
      DivBound(k, n, 3);
      InterleavedAt(positions, normals, uvs, n, k / 3, 3 + k % 3);
    }
  }

  /** Reading the uv attribute back gives the uvs, with missing components as 0. */
  lemma UvsRoundTrip(positions: seq<real>, normals: seq<real>, uvs: seq<real>)
    requires |positions| % 3 == 0 && |normals| >= |positions|
    ensures Attribute(Interleaved(positions, normals, uvs, |positions| / 3), 6, 2)
            == seq(2 * (|positions| / 3), k requires 0 <= k => UvOr0(uvs, k))
  {
    var n := |positions| / 3;
    var data := Interleaved(positions, normals, uvs, n);
    assert |data| / 8 == n;
    forall k | 0 <= k < 2 * n
      ensures Attribute(data, 6, 2)[k] == UvOr0(uvs, k)
    {
      DivBound(k, n, 2);
      InterleavedAt(positions, normals, uvs, n, k / 2, 6 + k % 2);
    }
  }

  /** The body of the `createInterleavedVertexData` loop: writes the record of vertex `i`
      and leaves every other float alone. */
  method WriteVertexRecord(vertexData: array<real>, i: nat,
                           positions: seq<real>, normals: seq<real>, uvs: seq<real>)
    requires 3 * i + 2 < |positions| <= |normals| && 8 * i + 8 <= vertexData.Length
    modifies vertexData
    ensures vertexData[..8 * i] == old(vertexData[..8 * i])
    ensures vertexData[8 * i..8 * i + 8] == Record(positions, normals, uvs, i)
  {
    var offset, posOffset, uvOffset := i * 8, i * 3, i * 2;
    vertexData[offset] := positions[posOffset];
    vertexData[offset + 1] := positions[posOffset + 1];
    vertexData[offset + 2] := positions[posOffset + 2];
    vertexData[offset + 3] := normals[posOffset];
    vertexData[offset + 4] := normals[posOffset + 1];
    vertexData[offset + 5] := normals[posOffset + 2];
    vertexData[offset + 6] := UvOr0(uvs, uvOffset);
    vertexData[offset + 7] := UvOr0(uvs, uvOffset + 1);
    ghost var record := Record(positions, normals, uvs, i);
    forall c | 0 <= c < 8 ensures vertexData[offset..offset + 8][c] == record[c] {
      assert vertexData[offset..offset + 8][c] == vertexData[offset + c];
    }
  }

  /** `createInterleavedVertexData`: one 8-float record per vertex. */
  method CreateInterleavedVertexData(positions: seq<real>, normals: seq<real>, uvs: seq<real>)
    returns (vertexData: array<real>)
    requires |positions| % 3 == 0 && |normals| >= |positions|
    ensures vertexData[..] == Interleaved(positions, normals, uvs, |positions| / 3)
  {
    var vertexCount := |positions| / 3;
    vertexData := new real[vertexCount * 8];
    var i := 0;
    while i < vertexCount
      invariant i <= vertexCount
      invariant vertexData[..8 * i] == Interleaved(positions, normals, uvs, i)
    {
      WriteVertexRecord(vertexData, i, positions, normals, uvs);
      assert vertexData[..8 * i + 8] == vertexData[..8 * i] + vertexData[8 * i..8 * i + 8];
      i := i + 1;
    }
    assert vertexData[..] == vertexData[..8 * vertexCount];
  }

  // ---------------------------------------------------------------------------
  // Flat normals for a triangle list without a normal attribute.

  function Dot(a: Vec3, b: Vec3): real {
    a.x * b.x + a.y * b.y + a.z * b.z
  }

  function Cross(a: Vec3, b: Vec3): Vec3 {
    Vec3(a.y * b.z - a.z * b.y, a.z * b.x - a.x * b.z, a.x * b.y - a.y * b.x)
  }

  /** The cross product is perpendicular to both of its factors. */
  lemma CrossPerpendicular(a: Vec3, b: Vec3)
    ensures Dot(Cross(a, b), a) == 0.0 && Dot(Cross(a, b), b) == 0.0
  {
  }

  /** Vertex `j` of triangle `t` in a flat position list. */
  function Vertex(positions: seq<real>, t: nat, j: nat): Vec3
    requires 9 * t + 3 * j + 2 < |positions|
  {
    var b := 9 * t + 3 * j;
    Vec3(positions[b], positions[b + 1], positions[b + 2])
  }

  /** Divides by the length when it is positive; `sqrt` stands for `Math.sqrt`. */
  function Normalise(v: Vec3, sqrt: real -> real): Vec3 {
    var length := sqrt(Dot(v, v));
    if length > 0.0 then Vec3(v.x / length, v.y / length, v.z / length) else v
  }

  /** The normal shared by the three vertices of triangle `t`. */
  function FaceNormal(positions: seq<real>, t: nat, sqrt: real -> real): Vec3
    requires 9 * t + 8 < |positions|
  {
    var v1 := Vertex(positions, t, 0);
    Normalise(Cross(Vertex(positions, t, 1).Minus(v1), Vertex(positions, t, 2).Minus(v1)), sqrt)
  }

  function Component(v: Vec3, c: nat): real
    requires c < 3
  {
    if c == 0 then v.x else if c == 1 then v.y else v.z
  }

  lemma Quotient(a: real, l: real)
    requires l != 0.0
    ensures a / l == a * (1.0 / l) && l * (1.0 / l) == 1.0
  {
  }

  /** With a true square root, a normalised non-zero vector has unit length and keeps
      its direction. */
  lemma NormaliseUnit(v: Vec3, sqrt: real -> real)
    requires forall r :: r >= 0.0 ==> sqrt(r) >= 0.0 && sqrt(r) * sqrt(r) == r
    requires Dot(v, v) > 0.0
    ensures Dot(Normalise(v, sqrt), Normalise(v, sqrt)) == 1.0
    ensures Normalise(v, sqrt).Scale(sqrt(Dot(v, v))) == v
  {
    var d := Dot(v, v);
    var len := sqrt(d);
    assert len * len == d;
    assert len != 0.0;
    var r := 1.0 / len;
    Quotient(v.x, len);
    Quotient(v.y, len);
    Quotient(v.z, len);
    var u := Vec3(v.x * r, v.y * r, v.z * r);
    assert Normalise(v, sqrt) == u;
    assert Dot(u, u) == d * (r * r);
    assert d * (r * r) == (len * r) * (len * r);
  }

  /** Each triangle's normal is perpendicular to its two edges from the first vertex. */
  lemma FaceNormalPerpendicular(positions: seq<real>, t: nat, sqrt: real -> real)
    requires 9 * t + 8 < |positions|
    ensures var v1 := Vertex(positions, t, 0);
            && Dot(FaceNormal(positions, t, sqrt), Vertex(positions, t, 1).Minus(v1)) == 0.0
            && Dot(FaceNormal(positions, t, sqrt), Vertex(positions, t, 2).Minus(v1)) == 0.0
  {
    var v1 := Vertex(positions, t, 0);
    var e1, e2 := Vertex(positions, t, 1).Minus(v1), Vertex(positions, t, 2).Minus(v1);
    var c := Cross(e1, e2);
    CrossPerpendicular(e1, e2);
    var len := sqrt(Dot(c, c));
    if len > 0.0 {
      var u := FaceNormal(positions, t, sqrt);
      assert Dot(u, e1) == Dot(c, e1) / len;
      assert Dot(u, e2) == Dot(c, e2) / len;
    }
  }

  /** The normals of the first `n` triangles of the position list. */
  function FaceNormals(positions: seq<real>, n: nat, sqrt: real -> real): (r: seq<Vec3>)
    requires 9 * n <= |positions|
    ensures |r| == n
  {
    if n == 0 then [] else FaceNormals(positions, n - 1, sqrt) + [FaceNormal(positions, n - 1, sqrt)]
  }

  lemma {:induction false} FaceNormalsAt(positions: seq<real>, n: nat, sqrt: real -> real, t: nat)
    requires 9 * n <= |positions| && t < n
    ensures FaceNormals(positions, n, sqrt)[t] == FaceNormal(positions, t, sqrt)
  {
    if t < n - 1 {
      FaceNormalsAt(positions, n - 1, sqrt, t);
    }
  }

  /** The nine floats of one triangle: its normal once for each of its vertices. */
  function Triple(v: Vec3): (r: seq<real>)
    ensures |r| == 9 && forall m :: 0 <= m < 9 ==> r[m] == Component(v, m % 3)
  {
    [v.x, v.y, v.z, v.x, v.y, v.z, v.x, v.y, v.z]
  }

  /** Per-vertex floats: each face's vector repeated for its three vertices. */
  function Spread(faces: seq<Vec3>): (r: seq<real>)
    ensures |r| == 9 * |faces|
  {
    if |faces| == 0 then [] else Spread(faces[..|faces| - 1]) + Triple(faces[|faces| - 1])
  }

  /** The three floats of vertex `j` of triangle `t` in a per-vertex array. */
  function NormalAt(s: seq<real>, t: nat, j: nat): Vec3
    requires 9 * t + 3 * j + 2 < |s|
  {
    var b := 9 * t + 3 * j;
    Vec3(s[b], s[b + 1], s[b + 2])
  }

  /** Vertex `j` of face `t` carries the face's vector. */
  lemma {:induction false} SpreadAt(faces: seq<Vec3>, t: nat, j: nat)
    requires t < |faces| && j < 3
    ensures NormalAt(Spread(faces), t, j) == faces[t]
  {
    var n := |faces| - 1;
    var front := faces[..n];
    assert Spread(faces) == Spread(front) + Triple(faces[n]);
    var b := 9 * t + 3 * j;
    if t < n {
      SpreadAt(front, t, j);
      assert NormalAt(Spread(front), t, j) == front[t];
    } else {
      assert b - 9 * n == 3 * j;
      assert Spread(faces)[b] == Triple(faces[n])[3 * j];
      assert Spread(faces)[b + 1] == Triple(faces[n])[3 * j + 1];
      assert Spread(faces)[b + 2] == Triple(faces[n])[3 * j + 2];
    }
  }

  /** All three vertices of a triangle get that triangle's normal. */
  lemma FlatNormalsShared(positions: seq<real>, sqrt: real -> real, t: nat, j: nat)
    requires |positions| % 9 == 0 && 9 * t + 8 < |positions| && j < 3
    ensures |Spread(FaceNormals(positions, |positions| / 9, sqrt))| == |positions|
    ensures NormalAt(Spread(FaceNormals(positions, |positions| / 9, sqrt)), t, j) == FaceNormal(positions, t, sqrt)
  {
    SpreadAt(FaceNormals(positions, |positions| / 9, sqrt), t, j);
    FaceNormalsAt(positions, |positions| / 9, sqrt, t);
  }

  /** The inner loop of `generateNormals`: the three vertices of the triangle starting
      at float `i` get `normal`. */
  method SetTriangleNormal(normals: array<real>, i: nat, normal: Vec3)
    requires i + 9 <= normals.Length
    modifies normals
    ensures forall k :: 0 <= k < normals.Length ==>
              normals[k] == if i <= k < i + 9 then Component(normal, (k - i) % 3) else old(normals[k])
  {
    for j := 0 to 3
      invariant forall k :: 0 <= k < normals.Length ==>
                  normals[k] == if i <= k < i + 3 * j then Component(normal, (k - i) % 3) else old(normals[k])
    {
      normals[i + j * 3] := normal.x;
      normals[i + j * 3 + 1] := normal.y;
      normals[i + j * 3 + 2] := normal.z;
    }
  }

  /** The body of `generateNormals` for the triangle starting at float `9 * t`: the
      cross product of its edges from the first vertex, normalised when non-zero. */
  method TriangleNormal(positions: seq<real>, t: nat, sqrt: real -> real) returns (normal: Vec3)
    requires 9 * t + 9 <= |positions|
    ensures normal == FaceNormal(positions, t, sqrt)
  {
    var i := 9 * t;
    var v1 := Vec3(positions[i], positions[i + 1], positions[i + 2]);
    var v2 := Vec3(positions[i + 3], positions[i + 4], positions[i + 5]);
    var v3 := Vec3(positions[i + 6], positions[i + 7], positions[i + 8]);
    assert v1 == Vertex(positions, t, 0) && v2 == Vertex(positions, t, 1)
      && v3 == Vertex(positions, t, 2);
    var edge1 := v2.Minus(v1);
    var edge2 := v3.Minus(v1);
    normal := Cross(edge1, edge2);
    var length := sqrt(Dot(normal, normal));
    if length > 0.0 {
      normal := Vec3(normal.x / length, normal.y / length, normal.z / length);
    }
  }

  /** One more face spreads to nine more floats. */
  lemma WrittenTriple(after: seq<real>, before: seq<real>, i: nat, normal: Vec3)
    requires |after| == |before| && i + 9 <= |after|
    requires forall k :: 0 <= k < |after| ==>
               after[k] == if i <= k < i + 9 then Component(normal, (k - i) % 3) else before[k]
    ensures after[..i + 9] == before[..i] + Triple(normal)
  {
  }

  lemma SpreadSnoc(faces: seq<Vec3>, t: nat)
    requires t < |faces|
    ensures Spread(faces[..t + 1]) == Spread(faces[..t]) + Triple(faces[t])
  {
    assert faces[..t + 1][..t] == faces[..t];
  }

  /** One pass of the outer loop of `generateNormals`: triangle `t`, starting at float
      `9 * t`, gets its normal, extending the filled prefix by nine floats. */
  method FillTriangle(normals: array<real>, positions: seq<real>, t: nat, sqrt: real -> real,
                      ghost faces: seq<Vec3>)
    requires normals.Length == |positions| && 9 * t + 9 <= |positions|
    requires |faces| == |positions| / 9
    requires forall u :: 0 <= u < |faces| ==> faces[u] == FaceNormal(positions, u, sqrt)
    requires normals[..9 * t] == Spread(faces[..t])
    modifies normals
    ensures normals[..9 * t + 9] == Spread(faces[..t + 1])
  {
    var normal := TriangleNormal(positions, t, sqrt);
    var i := 9 * t;
    ghost var before := normals[..];
    SetTriangleNormal(normals, i, normal);
    WrittenTriple(normals[..], before, i, normal);
    SpreadSnoc(faces, t);
  }

  /** `generateNormals`: every vertex of a triangle gets the triangle's normal. */
  method GenerateNormals(positions: seq<real>, sqrt: real -> real) returns (normals: array<real>)
    requires |positions| % 9 == 0
    ensures normals[..] == Spread(FaceNormals(positions, |positions| / 9, sqrt))
  {
    normals := new real[|positions|];
    var n := |positions| / 9;
    ghost var faces := FaceNormals(positions, n, sqrt);
    forall u | 0 <= u < n
      ensures faces[u] == FaceNormal(positions, u, sqrt)
    {
      FaceNormalsAt(positions, n, sqrt, u);
    }
    var t := 0;
    while t < n
      invariant t <= n
      invariant normals[..9 * t] == Spread(faces[..t])
    {
      FillTriangle(normals, positions, t, sqrt, faces);
      t := t + 1;
    }
    assert faces[..n] == faces;
  }

  // ---------------------------------------------------------------------------
  // Index buffers: a mesh's indices arrive as a Uint16Array or a Uint32Array,
  // or not at all.

  /** The typed array holding a mesh's indices; `items` are its elements. */
  datatype IndexArray = Uint16Array(items: seq<int>) | Uint32Array(items: seq<int>)

  /** The index format named in the render pass's `setIndexBuffer`. */
  datatype IndexFormat = Uint16 | Uint32

  /** Bytes per element of a format. */
  function FormatBytes(f: IndexFormat): nat {
    if f.Uint16? then 2 else 4
  }

  /** Bytes per element of a typed array, and so its `byteLength`. */
  function ElementBytes(a: IndexArray): nat {
    if a.Uint16Array? then 2 else 4
  }

  function ByteLength(a: IndexArray): nat {
    |a.items| * ElementBytes(a)
  }

  /** Every element is representable in the array's element type. */
  predicate WellTyped(a: IndexArray) {
    forall k :: 0 <= k < |a.items| ==> 0 <= a.items[k] < Pow256(ElementBytes(a))
  }

  function Pow256(n: nat): (r: nat)
    ensures r > 0
  {
    if n == 0 then 1 else 256 * Pow256(n - 1)
  }

  /** The format chosen for a mesh: "uint16" unless the indices are present and
      are not a Uint16Array. */
  function ChooseIndexFormat(indices: Option<IndexArray>): (f: IndexFormat)
    ensures f.Uint32? <==> indices.Some? && indices.value.Uint32Array?
  {
    if indices.Some? && !indices.value.Uint16Array? then Uint32 else Uint16
  }

  /** `indices ? indices.length : 0`. */
  function IndexCount(indices: Option<IndexArray>): nat {
    if indices.Some? then |indices.value.items| else 0
  }

  /** The chosen format reads the index buffer exactly as it was written: its
      element width is the typed array's, so `indexCount` elements of that width
      fill the buffer's `byteLength` and every element is representable in it. */
  lemma IndexFormatMatchesBuffer(indices: Option<IndexArray>)
    requires indices.Some? ==> WellTyped(indices.value)
    ensures indices.Some? ==>
      FormatBytes(ChooseIndexFormat(indices)) == ElementBytes(indices.value) &&
      IndexCount(indices) * FormatBytes(ChooseIndexFormat(indices)) == ByteLength(indices.value) &&
      forall k :: 0 <= k < IndexCount(indices) ==>
        indices.value.items[k] < Pow256(FormatBytes(ChooseIndexFormat(indices)))
    ensures indices.None? ==> IndexCount(indices) == 0 && ChooseIndexFormat(indices) == Uint16
  {
  }

  /** One entry of `meshData`. */
  datatype MeshData = MeshData(vertices: seq<real>, indices: Option<IndexArray>,
                               vertexCount: nat, indexCount: nat)

  /** The record pushed for one mesh primitive. */
  function MeshDataOf(positions: seq<real>, normals: seq<real>, uvs: seq<real>,
                      indices: Option<IndexArray>): (m: MeshData)
    requires |positions| % 3 == 0 && |normals| >= |positions|
    ensures |m.vertices| == 8 * m.vertexCount && 3 * m.vertexCount == |positions|
    ensures m.indexCount == IndexCount(indices)
  {
    MeshData(Interleaved(positions, normals, uvs, |positions| / 3), indices,
             |positions| / 3, IndexCount(indices))
  }
}
