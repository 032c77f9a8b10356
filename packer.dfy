/**
 * The binary buffers of `createSimpleGLB`: positions, normals and colours as
 * little-endian 32-bit floats, four bytes per number, and the triangle
 * indices as little-endian unsigned integers, two bytes each when there are
 * at most 65535 of them and four bytes each otherwise.
 */
module Packer {
  import opened Wrappers
  import opened Bytes
  import opened JsNumber
  import Layout
  import Scene
  import SdfParser

  /**
   * `writeFloatLE`: the number rounded to IEEE 754 single precision and
   * stored as four little-endian bytes. The rounding is not modelled, so the
   * encoding is a parameter.
   */
  type FloatEncoder = Number -> Word

  /** `buf` after writing the bytes `w` at offset `at`: the bytes before `at` are kept. */
  method WriteBytes(buf: array<byte>, at: nat, w: seq<byte>)
    requires at + |w| <= buf.Length
    modifies buf
    ensures buf[..at + |w|] == old(buf[..at]) + w
  {
    for k := 0 to |w|
      invariant buf[..at + k] == old(buf[..at]) + w[..k]
    {
      buf[at + k] := w[k];
      assert w[..k + 1] == w[..k] + [w[k]];
    }
  }

  // ---------------------------------------------------------------- floats

  /** The four bytes of every number, in order. */
  function FloatPieces(f32: FloatEncoder, xs: seq<Number>): (r: seq<seq<byte>>)
    ensures |r| == |xs| && forall i :: 0 <= i < |xs| ==> r[i] == f32(xs[i]) && |r[i]| == 4
  {
    seq(|xs|, i requires 0 <= i < |xs| => f32(xs[i]))
  }

  /** A float buffer: the numbers' encodings laid end to end. */
  function FloatBytes(f32: FloatEncoder, xs: seq<Number>): seq<byte> {
    Joined(FloatPieces(f32, xs))
  }

  /**
   * A float buffer is four bytes per number, and the four bytes at offset
   * `4 * i` are the encoding of number `i`.
   */
  lemma FloatBytesAt(f32: FloatEncoder, xs: seq<Number>, i: nat)
    requires i < |xs|
    ensures |FloatBytes(f32, xs)| == 4 * |xs|
    ensures FloatBytes(f32, xs)[4 * i..4 * i + 4] == f32(xs[i])
  {
    JoinedAt(FloatPieces(f32, xs), 4, i);
  }

  lemma FloatBytesLength(f32: FloatEncoder, xs: seq<Number>)
    ensures |FloatBytes(f32, xs)| == 4 * |xs|
  {
    JoinedLength(FloatPieces(f32, xs), 4);
  }

  /** `Buffer.alloc(xs.length * 4)`, then `writeFloatLE(xs[i], i * 4)` for every `i`. */
  method PackFloats(f32: FloatEncoder, xs: seq<Number>) returns (buf: array<byte>)
    ensures fresh(buf) && buf[..] == FloatBytes(f32, xs)
  {
    var pieces := FloatPieces(f32, xs);
    buf := new byte[|xs| * 4](_ => 0);
    for i := 0 to |xs|
      invariant buf.Length == 4 * |xs|
      invariant buf[..4 * i] == Joined(pieces[..i])
    {
      WriteBytes(buf, i * 4, f32(xs[i]));
      assert pieces[..i + 1] == pieces[..i] + [pieces[i]];
      JoinedSnoc(pieces[..i], pieces[i]);
    }
    assert pieces[..|xs|] == pieces;
    assert buf[..] == buf[..4 * |xs|];
  }

  // ---------------------------------------------------------------- colours

  /** The value written for colour component `i`: every fourth component, the alpha, is 1.0. */
  function ColorValue(cs: seq<Number>, i: nat): Number
    requires i < |cs|
  {
    if (i + 1) % 4 == 0 then One else cs[i]
  }

  /** The colour components as the colour loop writes them. */
  function ForcedAlpha(cs: seq<Number>): (r: seq<Number>)
    ensures |r| == |cs|
  {
    seq(|cs|, i requires 0 <= i < |cs| => ColorValue(cs, i))
  }

  /**
   * Forcing the alpha leaves the red, green and blue components alone and
   * makes every colour opaque.
   */
  lemma ForcedAlphaOpaque(cs: seq<Number>)
    ensures Scene.Opaque(ForcedAlpha(cs))
    ensures forall i :: 0 <= i < |cs| && i % 4 != 3 ==> ForcedAlpha(cs)[i] == cs[i]
  {
    forall i | 0 <= i < |cs|
      ensures ForcedAlpha(cs)[i] == if i % 4 == 3 then One else cs[i]
    {
      assert (i + 1) % 4 == 0 <==> i % 4 == 3;
    }
  }

  /** On colours that are already opaque, as every merged scene's are, forcing the alpha changes nothing. */
  lemma OpaqueUnchanged(cs: seq<Number>)
    requires Scene.Opaque(cs)
    ensures ForcedAlpha(cs) == cs
  {
    ForcedAlphaOpaque(cs);
  }

  /** The colour loop: `writeFloatLE` of every component, with 1.0 in place of each alpha. */
  method PackColors(f32: FloatEncoder, cs: seq<Number>) returns (buf: array<byte>)
    ensures fresh(buf) && buf[..] == FloatBytes(f32, ForcedAlpha(cs))
  {
    ghost var pieces := FloatPieces(f32, ForcedAlpha(cs));
    buf := new byte[|cs| * 4](_ => 0);
    for i := 0 to |cs|
      invariant buf.Length == 4 * |cs|
      invariant buf[..4 * i] == Joined(pieces[..i])
    {
      var value := cs[i];
      if (i + 1) % 4 == 0 {
        value := One;
      }
      WriteBytes(buf, i * 4, f32(value));
      assert pieces[..i + 1] == pieces[..i] + [pieces[i]];
      JoinedSnoc(pieces[..i], pieces[i]);
    }
    assert pieces[..|cs|] == pieces;
    assert buf[..] == buf[..4 * |cs|];
  }

  // ---------------------------------------------------------------- indices

  /** `writeUInt16LE` and `writeUInt32LE` throw a RangeError on a value that does not fit. */
  datatype RangeError = RangeError(value: nat)

  /** The first value the chosen width cannot hold: `2^32` for 32-bit indices, `2^16` for 16-bit ones. */
  function IndexLimit(count: nat): (r: nat)
    ensures r == if count > 65535 then Two32 else Two16
  {
    if Layout.WideIndices(count) then Two32 else Two16
  }

  /** Every index fits the width chosen for `|idx|` indices. */
  predicate Fits(idx: seq<nat>) {
    forall k :: 0 <= k < |idx| ==> idx[k] < IndexLimit(|idx|)
  }

  /** The bytes written for one index among `count`. */
  function IndexPiece(count: nat, v: nat): (r: seq<byte>)
    requires v < IndexLimit(count)
    ensures |r| == Layout.IndexWidth(count)
  {
    if Layout.WideIndices(count) then LE32(v) else LE16(v)
  }

  function IndexPieces(idx: seq<nat>): (r: seq<seq<byte>>)
    requires Fits(idx)
    ensures |r| == |idx| && forall k :: 0 <= k < |idx| ==> r[k] == IndexPiece(|idx|, idx[k])
  {
    seq(|idx|, k requires 0 <= k < |idx| => IndexPiece(|idx|, idx[k]))
  }

  /** The index buffer of indices that fit. */
  function IndexBytes(idx: seq<nat>): seq<byte>
    requires Fits(idx)
  {
    Joined(IndexPieces(idx))
  }

  lemma IndexBytesLength(idx: seq<nat>)
    requires Fits(idx)
    ensures |IndexBytes(idx)| == Layout.IndexWidth(|idx|) * |idx|
  {
    JoinedLength(IndexPieces(idx), Layout.IndexWidth(|idx|));
  }

  /**
   * Reading the index buffer back at the chosen width gives the indices back:
   * the buffer is `IndexWidth` bytes per index, and index `k` is the 16-bit or
   * 32-bit little-endian integer at offset `IndexWidth * k`.
   */
  lemma {:induction false} IndexBytesRead(idx: seq<nat>, k: nat)
    requires Fits(idx) && k < |idx|
    ensures |IndexBytes(idx)| == Layout.IndexWidth(|idx|) * |idx|
    ensures Layout.WideIndices(|idx|) ==> ReadLE32(IndexBytes(idx), 4 * k) == idx[k]
    ensures !Layout.WideIndices(|idx|) ==> ReadLE16(IndexBytes(idx), 2 * k) == idx[k]
  {
    var w := Layout.IndexWidth(|idx|);
    var b := IndexBytes(idx);
    var p := IndexPiece(|idx|, idx[k]);
    JoinedAt(IndexPieces(idx), w, k);
    assert b[w * k..w * k + w] == p;
    assert b[w * k] == p[0] && b[w * k + 1] == p[1];
    if w == 4 {
      assert b[w * k + 2] == p[2] && b[w * k + 3] == p[3];
    }
  }

  /** The error for the first index, from position `k` on, that the width cannot hold. */
  function MisfitFrom(idx: seq<nat>, k: nat): (r: RangeError)
    requires k <= |idx| && (forall j :: 0 <= j < k ==> idx[j] < IndexLimit(|idx|)) && !Fits(idx)
    ensures exists i :: (k <= i < |idx| && r.value == idx[i] && idx[i] >= IndexLimit(|idx|)
      && forall j :: 0 <= j < i ==> idx[j] < IndexLimit(|idx|))
    decreases |idx| - k
  {
    if idx[k] >= IndexLimit(|idx|) then RangeError(idx[k]) else MisfitFrom(idx, k + 1)
  }

  /** The RangeError the index loop throws: the value of the first index that does not fit. */
  function FirstMisfit(idx: seq<nat>): (r: RangeError)
    requires !Fits(idx)
    ensures exists i :: (0 <= i < |idx| && r.value == idx[i] && idx[i] >= IndexLimit(|idx|)
      && forall j :: 0 <= j < i ==> idx[j] < IndexLimit(|idx|))
  {
    MisfitFrom(idx, 0)
  }

  /** The first index that does not fit is the one `FirstMisfit` reports. */
  lemma FirstMisfitAt(idx: seq<nat>, i: nat)
    requires i < |idx| && idx[i] >= IndexLimit(|idx|) && forall j :: 0 <= j < i ==> idx[j] < IndexLimit(|idx|)
    ensures FirstMisfit(idx) == RangeError(idx[i])
  {
    var r := FirstMisfit(idx);
    var k :| 0 <= k < |idx| && r.value == idx[k] && idx[k] >= IndexLimit(|idx|)
      && forall j :: 0 <= j < k ==> idx[j] < IndexLimit(|idx|);
    assert k == i;
  }

  /** The pieces of the first `n` indices. */
  function IndexPrefix(idx: seq<nat>, n: nat): (r: seq<seq<byte>>)
    requires n <= |idx| && forall j :: 0 <= j < n ==> idx[j] < IndexLimit(|idx|)
    ensures |r| == n
  {
    seq(n, j requires 0 <= j < n => IndexPiece(|idx|, idx[j]))
  }

  lemma IndexPrefixSnoc(idx: seq<nat>, n: nat)
    requires n < |idx| && forall j :: 0 <= j <= n ==> idx[j] < IndexLimit(|idx|)
    ensures Joined(IndexPrefix(idx, n + 1)) == Joined(IndexPrefix(idx, n)) + IndexPiece(|idx|, idx[n])
  {
    assert IndexPrefix(idx, n + 1) == IndexPrefix(idx, n) + [IndexPiece(|idx|, idx[n])];
    JoinedSnoc(IndexPrefix(idx, n), IndexPiece(|idx|, idx[n]));
  }

  /**
   * The index loop: `useUint32 = allIndices.length > 65535`, then
   * `writeUInt32LE(value, i * 4)` or `writeUInt16LE(value, i * 2)` for each
   * index. It succeeds exactly when every index fits, and then the buffer is
   * the index bytes; otherwise it stops at the first index that does not fit.
   */
  method PackIndices(idx: seq<nat>) returns (r: Result<array<byte>, RangeError>)
    ensures r.Success? <==> Fits(idx)
    ensures r.Success? ==> fresh(r.value) && r.value[..] == IndexBytes(idx)
    ensures r.Failure? ==> r.error == FirstMisfit(idx)
  {
    var useUint32 := |idx| > 65535;
    var width := if useUint32 then 4 else 2;
    var limit := IndexLimit(|idx|);
    var buf := new byte[|idx| * width](_ => 0);
    var at := 0;
    for i := 0 to |idx|
      invariant buf.Length == if useUint32 then 4 * |idx| else 2 * |idx|
      invariant at == if useUint32 then 4 * i else 2 * i
      invariant forall j :: 0 <= j < i ==> idx[j] < limit
      invariant buf[..at] == Joined(IndexPrefix(idx, i))
    {
      var value := idx[i];
      if value >= limit {
        FirstMisfitAt(idx, i);
        return Failure(RangeError(value));
      }
      WriteIndex(buf, at, |idx|, value);
      IndexPrefixSnoc(idx, i);
      at := at + width;
    }
    assert IndexPrefix(idx, |idx|) == IndexPieces(idx);
    assert buf[..] == buf[..at];
    return Success(buf);
  }

  /** One `setUint32` or `setUint16` call of the index loop, chosen by the index count. */
  method WriteIndex(buf: array<byte>, at: nat, count: nat, value: nat)
    requires value < IndexLimit(count) && at + Layout.IndexWidth(count) <= buf.Length
    modifies buf
    ensures buf[..at + Layout.IndexWidth(count)] == old(buf[..at]) + IndexPiece(count, value)
  {
    if count > 65535 {
      WriteBytes(buf, at, LE32(value));
    } else {
      WriteBytes(buf, at, LE16(value));
    }
  }

  /**
   * The merged scene's indices always fit 16-bit integers when 16-bit
   * indices are chosen: every index names a vertex, and a scene has fewer
   * vertices than indices. With 32-bit indices they fit as long as the scene
   * has at most `2^32` vertices.
   */
  lemma {:induction false} SceneIndicesFit(m: Math, mol: SdfParser.Molecule)
    requires Scene.VertexCount(Scene.SceneOf(m, mol)) <= Two32
    ensures Fits(Scene.SceneOf(m, mol).indices)
  {
    var mesh := Scene.SceneOf(m, mol);
    Scene.SceneShape(m, mol);
    var d := Scene.Drawn(m, mol.atoms, mol.bonds);
    assert Scene.VertexCount(mesh) == 169 * |mol.atoms| + 18 * d;
    assert Scene.VertexCount(mesh) <= |mesh.indices|;
  }
}
