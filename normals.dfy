/**
 * The per-vertex normals of `createSimpleGLB`: a zero-filled array as long as
 * the positions, to which every complete index triple adds its face normal
 * (the cross product of its two edges) at each of its three corners; then
 * every non-zero accumulated vector is divided by its length.
 */
module Normals {
  import opened JsNumber
  import opened Geometry
  import Layout

  /** Every index names a whole vertex of `vs`. */
  predicate InRange(vs: seq<Number>, idx: seq<nat>) {
    forall k :: 0 <= k < |idx| ==> 3 * idx[k] + 3 <= |vs|
  }

  /** Vertex `v` as the normal loop reads it: `allVertices[3 v] ?? 0`, and so on. */
  function VertexAt(vs: seq<Number>, v: nat): Vec3 {
    Layout.Corner(vs, v)
  }

  /** The face normal of the triangle whose indices start at `k`: `(v2 - v1) × (v3 - v1)`. */
  function FaceNormal(vs: seq<Number>, idx: seq<nat>, k: nat): Vec3
    requires k + 3 <= |idx|
  {
    var v1 := VertexAt(vs, idx[k]);
    Cross(Minus(VertexAt(vs, idx[k + 1]), v1), Minus(VertexAt(vs, idx[k + 2]), v1))
  }

  function Zeros(n: nat): (r: seq<Number>)
    ensures |r| == n && forall k :: 0 <= k < n ==> r[k] == Zero
  {
    seq(n, _ => Zero)
  }

  /** `normals[k] += f.x; normals[k + 1] += f.y; normals[k + 2] += f.z`. */
  function AddAt(n: seq<Number>, k: nat, f: Vec3): (r: seq<Number>)
    requires k + 3 <= |n|
    ensures |r| == |n|
  {
    seq(|n|, i requires 0 <= i < |n| =>
      if i == k then Add(n[i], f.x) else if i == k + 1 then Add(n[i], f.y) else if i == k + 2 then Add(n[i], f.z) else n[i])
  }

  /** `f` added at vertices `a`, `b` and `c` in turn. */
  function AddFaceAt(n: seq<Number>, f: Vec3, a: nat, b: nat, c: nat): (r: seq<Number>)
    requires 3 * a + 3 <= |n| && 3 * b + 3 <= |n| && 3 * c + 3 <= |n|
    ensures |r| == |n|
  {
    AddAt(AddAt(AddAt(n, 3 * a, f), 3 * b, f), 3 * c, f)
  }

  /** The face normal of every complete index triple, in order. */
  function Faces(vs: seq<Number>, idx: seq<nat>): (r: seq<Vec3>)
    ensures |r| == |idx| / 3
  {
    seq(|idx| / 3, t requires 0 <= t < |idx| / 3 => FaceNormal(vs, idx, 3 * t))
  }

  /** `n` after the first `t` triangles each added `faces[t]` at its three corners in turn. */
  function AddFaces(n: seq<Number>, faces: seq<Vec3>, idx: seq<nat>, t: nat): (r: seq<Number>)
    requires InRange(n, idx) && t <= |faces| && 3 * t <= |idx|
    ensures |r| == |n|
  {
    if t == 0 then n
    else
      var k := 3 * (t - 1);
      AddFaceAt(AddFaces(n, faces, idx, t - 1), faces[t - 1], idx[k], idx[k + 1], idx[k + 2])
  }

  /** The normals array after the first `t` triangles of the accumulation loop. */
  function Accumulated(vs: seq<Number>, idx: seq<nat>, t: nat): (r: seq<Number>)
    requires InRange(vs, idx) && 3 * t <= |idx|
    ensures |r| == |vs|
  {
    AddFaces(Zeros(|vs|), Faces(vs, idx), idx, t)
  }

  /** A vector divided by its length when that length is positive, else left as it is. */
  function Normalize(m: Math, s: Vec3): Vec3 {
    var length := Length(m, s);
    if Less(Zero, length) then DivBy(s, length) else s
  }

  /** Components `k`, `k + 1`, `k + 2` overwritten with `u`. */
  function SetVertex(n: seq<Number>, k: nat, u: Vec3): (r: seq<Number>)
    requires k + 3 <= |n|
    ensures |r| == |n|
  {
    seq(|n|, i requires 0 <= i < |n| =>
      if i == k then u.x else if i == k + 1 then u.y else if i == k + 2 then u.z else n[i])
  }

  /** The normalised vector of every vertex of `n`. */
  function Units(m: Math, n: seq<Number>): (r: seq<Vec3>)
    ensures |r| == |n| / 3
  {
    seq(|n| / 3, v requires 0 <= v < |n| / 3 => Normalize(m, At(n, v)))
  }

  /**
   * `units` holds the normalised vector of every vertex of `n`. The trigger
   * keeps the arithmetic of `Normalize` out of proofs that only move these
   * vectors around.
   */
  predicate IsUnits(m: Math, n: seq<Number>, units: seq<Vec3>) {
    |units| == |n| / 3 &&
    forall v {:trigger Normalize(m, At(n, v))} :: 0 <= v < |units| ==> units[v] == Normalize(m, At(n, v))
  }

  lemma UnitsAreUnits(m: Math, n: seq<Number>)
    ensures IsUnits(m, n, Units(m, n))
  {
  }

  /** `n` with its first `j` vertices replaced by `units[0..j]`. */
  function Overwritten(n: seq<Number>, units: seq<Vec3>, j: nat): (r: seq<Number>)
    requires 3 * j <= |n| && j <= |units|
    ensures |r| == |n|
  {
    if j == 0 then n else SetVertex(Overwritten(n, units, j - 1), 3 * (j - 1), units[j - 1])
  }

  /** The normals after normalising the first `j` vertices of `n` in turn. */
  function NormalizedUpTo(m: Math, n: seq<Number>, j: nat): (r: seq<Number>)
    requires 3 * j <= |n|
    ensures |r| == |n|
  {
    Overwritten(n, Units(m, n), j)
  }

  /** The finished `normals` array: every complete triangle accumulated, every vertex normalised. */
  function NormalsOf(m: Math, vs: seq<Number>, idx: seq<nat>): (r: seq<Number>)
    requires InRange(vs, idx) && |vs| % 3 == 0
    ensures |r| == |vs|
  {
    NormalizedUpTo(m, Accumulated(vs, idx, |idx| / 3), |vs| / 3)
  }

  /** Three in-place additions at `k`, `k + 1`, `k + 2`. */
  method AddToVertex(normals: array<Number>, k: nat, f: Vec3)
    requires k + 3 <= normals.Length
    modifies normals
    ensures normals[..] == AddAt(old(normals[..]), k, f)
  {
    normals[k] := Add(normals[k], f.x);
    normals[k + 1] := Add(normals[k + 1], f.y);
    normals[k + 2] := Add(normals[k + 2], f.z);
  }

  /** The two normal loops of `createSimpleGLB`, on a fresh zero-filled array. */
  method ComputeNormals(m: Math, vs: seq<Number>, idx: seq<nat>) returns (normals: array<Number>)
    requires InRange(vs, idx) && |vs| % 3 == 0
    ensures fresh(normals)
    ensures normals[..] == NormalsOf(m, vs, idx)
  {
    normals := new Number[|vs|](_ => Zero);
    assert normals[..] == Zeros(|vs|);
    AccumulateNormals(vs, idx, normals);
    UnitsAreUnits(m, normals[..]);
    NormalizeNormals(m, normals, Units(m, normals[..]));
  }

  /**
   * The accumulation loop. An index triple cut short by the end of
   * `allIndices` is skipped (`idx3 === undefined`), and the loop then ends.
   */
  method AccumulateNormals(vs: seq<Number>, idx: seq<nat>, normals: array<Number>)
    requires InRange(vs, idx) && normals[..] == Zeros(|vs|)
    modifies normals
    ensures normals[..] == Accumulated(vs, idx, |idx| / 3)
  {
    var i := 0;
    ghost var done := 0;
    while i < |idx|
      invariant 3 * done <= |idx| && (i == 3 * done || (i == 3 * done + 3 && |idx| < i))
      invariant normals.Length == |vs|
      invariant normals[..] == Accumulated(vs, idx, done)
    {
      if i + 2 < |idx| {
        AddFace(vs, idx, i, done, normals);
        done := done + 1;
      }
      i := i + 3;
    }
    ThirdOf(|idx|, done);
  }

  /** One complete triangle added at its three corners. */
  method AddFace(vs: seq<Number>, idx: seq<nat>, k: nat, ghost t: nat, normals: array<Number>)
    requires InRange(vs, idx) && k == 3 * t && k + 3 <= |idx| && normals[..] == Accumulated(vs, idx, t)
    modifies normals
    ensures normals[..] == Accumulated(vs, idx, t + 1)
  {
    var f := FaceNormal(vs, idx, k);
    AccumulatedStep(vs, idx, t);
    AddCorners(normals, f, idx[k], idx[k + 1], idx[k + 2]);
  }

  /** Triangle `t` adds its own face normal at its three corners. */
  lemma AccumulatedStep(vs: seq<Number>, idx: seq<nat>, t: nat)
    requires InRange(vs, idx) && 3 * t + 3 <= |idx|
    ensures var k := 3 * t;
      Accumulated(vs, idx, t + 1) == AddFaceAt(Accumulated(vs, idx, t), FaceNormal(vs, idx, k), idx[k], idx[k + 1], idx[k + 2])
  {
    assert Faces(vs, idx)[t] == FaceNormal(vs, idx, 3 * t);
  }

  /** The nine in-place additions of one triangle. */
  method AddCorners(normals: array<Number>, f: Vec3, a: nat, b: nat, c: nat)
    requires 3 * a + 3 <= normals.Length && 3 * b + 3 <= normals.Length && 3 * c + 3 <= normals.Length
    modifies normals
    ensures normals[..] == AddFaceAt(old(normals[..]), f, a, b, c)
  {
    AddToVertex(normals, 3 * a, f);
    AddToVertex(normals, 3 * b, f);
    AddToVertex(normals, 3 * c, f);
  }

  lemma ThirdOf(n: nat, d: nat)
    requires 3 * d <= n < 3 * d + 3
    ensures n / 3 == d
  {
  }

  /**
   * The normalisation loop, vertex by vertex. Each vertex is read before it is
   * overwritten, so it is normalised from its accumulated value: `units`
   * stands for those normalised vectors.
   */
  method NormalizeNormals(m: Math, normals: array<Number>, ghost units: seq<Vec3>)
    requires normals.Length % 3 == 0 && IsUnits(m, normals[..], units)
    modifies normals
    ensures normals[..] == Overwritten(old(normals[..]), units, normals.Length / 3)
  {
    ghost var n0 := normals[..];
    var i := 0;
    ghost var j := 0;
    while i < normals.Length
      invariant i == 3 * j && i <= normals.Length
      invariant normals[..] == Overwritten(n0, units, j)
    {
      OverwrittenBeyond(n0, units, j, i);
      OverwrittenBeyond(n0, units, j, i + 1);
      OverwrittenBeyond(n0, units, j, i + 2);
      NormalizeVertex(m, normals, i, n0, units, j);
      i := i + 3;
      j := j + 1;
    }
    ThirdOf(normals.Length, j);
  }

  /** One iteration: divide vertex `j` by its length when that length is positive. */
  method NormalizeVertex(m: Math, normals: array<Number>, i: nat, ghost n0: seq<Number>, ghost units: seq<Vec3>, ghost j: nat)
    requires i + 3 <= normals.Length && i == 3 * j && IsUnits(m, n0, units) && j < |units|
    requires Vec3(normals[i], normals[i + 1], normals[i + 2]) == At(n0, j)
    modifies normals
    ensures normals[..] == SetVertex(old(normals[..]), i, units[j])
  {
    var nx, ny, nz := normals[i], normals[i + 1], normals[i + 2];
    assert units[j] == Normalize(m, At(n0, j));
    var length := Length(m, Vec3(nx, ny, nz));
    if Less(Zero, length) {
      normals[i] := Div(nx, length);
      normals[i + 1] := Div(ny, length);
      normals[i + 2] := Div(nz, length);
    }
  }

  /** Vertices not yet reached keep their values. */
  lemma {:induction false} OverwrittenBeyond(n: seq<Number>, units: seq<Vec3>, j: nat, k: nat)
    requires 3 * j <= |n| && j <= |units| && 3 * j <= k < |n|
    ensures Overwritten(n, units, j)[k] == n[k]
  {
    if j > 0 {
      OverwrittenBeyond(n, units, j - 1, k);
    }
  }

  // ---------------------------------------------------------------- per-vertex view

  /**
   * Vertex `v`'s value `s` after the first `t` triangles, summed vertex by
   * vertex: each triangle adds its face normal once for every corner that is
   * `v` (twice or three times for a degenerate triangle).
   */
  function CornerSums(s: Vec3, faces: seq<Vec3>, idx: seq<nat>, t: nat, v: nat): Vec3
    requires t <= |faces| && 3 * t <= |idx|
  {
    if t == 0 then s
    else
      var k := 3 * (t - 1);
      CornerSum(CornerSums(s, faces, idx, t - 1, v), faces[t - 1], idx[k], idx[k + 1], idx[k + 2], v)
  }

  /** The accumulated normal of vertex `v` after `t` triangles, as a per-vertex sum from zero. */
  function VertexSum(vs: seq<Number>, idx: seq<nat>, t: nat, v: nat): Vec3
    requires 3 * t <= |idx|
  {
    CornerSums(Vec3(Zero, Zero, Zero), Faces(vs, idx), idx, t, v)
  }

  /** `f` added to `s` once for each of `a`, `b`, `c` that is `v`. */
  function CornerSum(s: Vec3, f: Vec3, a: nat, b: nat, c: nat, v: nat): Vec3 {
    var s1 := if a == v then Plus(s, f) else s;
    var s2 := if b == v then Plus(s1, f) else s1;
    if c == v then Plus(s2, f) else s2
  }

  /** The three components of vertex `v` in a flat list. */
  function At(n: seq<Number>, v: nat): Vec3
    requires 3 * v + 3 <= |n|
  {
    Vec3(n[3 * v], n[3 * v + 1], n[3 * v + 2])
  }

  /** Adding at vertex `a` changes vertex `v` only when `a == v`. */
  lemma AddAtVertex(n: seq<Number>, a: nat, v: nat, f: Vec3)
    requires 3 * a + 3 <= |n| && 3 * v + 3 <= |n|
    ensures At(AddAt(n, 3 * a, f), v) == if a == v then Plus(At(n, v), f) else At(n, v)
  {
  }

  /** Adding one triangle changes each vertex by its corner sum. */
  lemma AddFaceAtVertex(n: seq<Number>, f: Vec3, a: nat, b: nat, c: nat, v: nat)
    requires 3 * a + 3 <= |n| && 3 * b + 3 <= |n| && 3 * c + 3 <= |n| && 3 * v + 3 <= |n|
    ensures At(AddFaceAt(n, f, a, b, c), v) == CornerSum(At(n, v), f, a, b, c, v)
  {
    var n1 := AddAt(n, 3 * a, f);
    var n2 := AddAt(n1, 3 * b, f);
    AddAtVertex(n, a, v, f);
    AddAtVertex(n1, b, v, f);
    AddAtVertex(n2, c, v, f);
  }

  /** Adding triangles in place changes each vertex by its corner sums. */
  lemma {:induction false} AddFacesAt(n: seq<Number>, faces: seq<Vec3>, idx: seq<nat>, t: nat, v: nat)
    requires InRange(n, idx) && t <= |faces| && 3 * t <= |idx| && 3 * v + 3 <= |n|
    ensures At(AddFaces(n, faces, idx, t), v) == CornerSums(At(n, v), faces, idx, t, v)
  {
    if t > 0 {
      AddFacesAt(n, faces, idx, t - 1, v);
      var k := 3 * (t - 1);
      AddFaceAtVertex(AddFaces(n, faces, idx, t - 1), faces[t - 1], idx[k], idx[k + 1], idx[k + 2], v);
    }
  }

  /** The in-place accumulation computes, for every vertex, its per-vertex sum. */
  lemma AccumulatedAt(vs: seq<Number>, idx: seq<nat>, t: nat, v: nat)
    requires InRange(vs, idx) && 3 * t <= |idx| && 3 * v + 3 <= |vs|
    ensures At(Accumulated(vs, idx, t), v) == VertexSum(vs, idx, t, v)
  {
    AddFacesAt(Zeros(|vs|), Faces(vs, idx), idx, t, v);
  }

  /** After `j` vertices, those below `j` hold their unit vectors and the rest are untouched. */
  lemma {:induction false} OverwrittenAt(n: seq<Number>, units: seq<Vec3>, j: nat, v: nat)
    requires 3 * j <= |n| && j <= |units| && 3 * v + 3 <= |n|
    ensures At(Overwritten(n, units, j), v) == if v < j then units[v] else At(n, v)
  {
    if j > 0 {
      OverwrittenAt(n, units, j - 1, v);
    }
  }

  /**
   * The normal of vertex `v` is its per-vertex sum of face normals, divided by
   * its length when that length is positive.
   */
  lemma NormalOfVertex(m: Math, vs: seq<Number>, idx: seq<nat>, v: nat)
    requires InRange(vs, idx) && |vs| % 3 == 0 && 3 * v + 3 <= |vs|
    ensures At(NormalsOf(m, vs, idx), v) == Normalize(m, VertexSum(vs, idx, |idx| / 3, v))
  {
    AccumulatedAt(vs, idx, |idx| / 3, v);
    var acc := Accumulated(vs, idx, |idx| / 3);
    OverwrittenAt(acc, Units(m, acc), |vs| / 3, v);
  }

  /** Triangles none of whose corners is `v` leave its sum as it is. */
  lemma {:induction false} UnusedCornerSums(s: Vec3, faces: seq<Vec3>, idx: seq<nat>, t: nat, v: nat)
    requires t <= |faces| && 3 * t <= |idx|
    requires forall k :: 0 <= k < 3 * t ==> idx[k] != v
    ensures CornerSums(s, faces, idx, t, v) == s
  {
    if t > 0 {
      UnusedCornerSums(s, faces, idx, t - 1, v);
      var k := 3 * (t - 1);
      assert idx[k] != v && idx[k + 1] != v && idx[k + 2] != v;
    }
  }

  /** An accumulator of length 0 stays exactly zero: the vertex's normal is (0, 0, 0). */
  lemma UnusedVertexNormal(m: Math, vs: seq<Number>, idx: seq<nat>, v: nat)
    requires InRange(vs, idx) && |vs| % 3 == 0 && 3 * v + 3 <= |vs|
    requires forall k :: 0 <= k < |idx| ==> idx[k] != v
    ensures At(NormalsOf(m, vs, idx), v) == Vec3(Zero, Zero, Zero)
  {
    NormalOfVertex(m, vs, idx, v);
    UnusedCornerSums(Vec3(Zero, Zero, Zero), Faces(vs, idx), idx, |idx| / 3, v);
  }
}
