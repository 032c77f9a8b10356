/**
 * `createSimpleGLB` as a whole: parse the molfile, merge spheres and tubes,
 * measure the bounding box, describe the buffers in the glTF JSON, compute
 * the normals, pack the four binary buffers end to end, pad both chunks to a
 * multiple of four bytes and frame them as a GLB file. And
 * `convertSdfToGlb`, which replaces every failure by one generic error.
 */
module Converter {
  import opened Wrappers
  import opened Bytes
  import opened JsNumber
  import SdfParser
  import Scene
  import Layout
  import Normals
  import Packer
  import Glb

  /** Why `createSimpleGLB` throws: no counts line, an index too large for its width, or a file whose length does not fit the 32-bit header field. */
  datatype GlbError = Parse(cause: SdfParser.ParseError) | IndexOutOfRange(range: Packer.RangeError) | TooLarge(totalLength: nat)

  /**
   * `Buffer.from(JSON.stringify(json))`: the UTF-8 bytes of the JSON text.
   * JSON serialisation is not modelled, so it is a parameter that sees the
   * layout numbers the JSON is built from.
   */
  type Stringify = Layout.Description -> seq<byte>

  /** Padding bytes: spaces after the JSON, zeros after the binary data. */
  const JsonFill: byte := 0x20
  const BinFill: byte := 0x00

  /**
   * `Buffer.concat([s, Buffer.alloc((4 - s.length % 4) % 4, fill)])`: the
   * shortest extension of `s` by `fill` bytes to a multiple of four.
   */
  function Padded(s: seq<byte>, fill: byte): (r: seq<byte>)
    ensures |r| % 4 == 0 && |s| <= |r| < |s| + 4
    ensures r[..|s|] == s && forall i :: |s| <= i < |r| ==> r[i] == fill
  {
    s + Fill((4 - |s| % 4) % 4, fill)
  }

  /** The JSON's layout numbers for a merged scene. */
  function DescriptionFor(mesh: Scene.Mesh): Layout.Description {
    Layout.DescriptionOf(Layout.BoundsOf(mesh.vertices), |mesh.vertices|, |mesh.colors|, |mesh.indices|)
  }

  /** `binData`: positions, normals, colours (alpha forced) and indices, end to end. */
  function BinaryOf(f32: Packer.FloatEncoder, mesh: Scene.Mesh, normals: seq<Number>): seq<byte>
    requires Packer.Fits(mesh.indices)
  {
    Packer.FloatBytes(f32, mesh.vertices) + Packer.FloatBytes(f32, normals)
    + Packer.FloatBytes(f32, Packer.ForcedAlpha(mesh.colors)) + Packer.IndexBytes(mesh.indices)
  }

  /** Every index of a well-formed mesh names a whole vertex of it. */
  lemma WellFormedInRange(mesh: Scene.Mesh)
    requires Scene.WellFormed(mesh)
    ensures Normals.InRange(mesh.vertices, mesh.indices)
  {
    forall k | 0 <= k < |mesh.indices|
      ensures 3 * mesh.indices[k] + 3 <= |mesh.vertices|
    {
      assert mesh.indices[k] + 1 <= |mesh.vertices| / 3;
    }
  }

  /** The normals of a merged scene. */
  function SceneNormals(m: Math, mol: SdfParser.Molecule): (r: seq<Number>)
    ensures |r| == |Scene.SceneOf(m, mol).vertices|
  {
    var mesh := Scene.SceneOf(m, mol);
    Scene.SceneShape(m, mol);
    WellFormedInRange(mesh);
    Normals.NormalsOf(m, mesh.vertices, mesh.indices)
  }

  /**
   * The padded chunks framed as a GLB file, or `TooLarge` when the total
   * length does not fit the header's 32-bit field (`writeUInt32LE` throws).
   */
  function Framing(json: seq<byte>, bin: seq<byte>): Result<seq<byte>, GlbError> {
    var total := 28 + |Padded(json, JsonFill)| + |Padded(bin, BinFill)|;
    if total >= Two32 then Failure(TooLarge(total))
    else Success(Glb.Framed(2, Padded(json, JsonFill), Padded(bin, BinFill)))
  }

  /** The binary data of a mesh and its normals, or the RangeError of the index loop. */
  function PackedMesh(f32: Packer.FloatEncoder, mesh: Scene.Mesh, normals: seq<Number>): Result<seq<byte>, GlbError> {
    if Packer.Fits(mesh.indices) then Success(BinaryOf(f32, mesh, normals))
    else Failure(IndexOutOfRange(Packer.FirstMisfit(mesh.indices)))
  }

  /** What `createSimpleGLB` returns or throws for a parsed molecule. */
  function GlbOfMolecule(m: Math, f32: Packer.FloatEncoder, stringify: Stringify, mol: SdfParser.Molecule): Result<seq<byte>, GlbError> {
    var mesh := Scene.SceneOf(m, mol);
    match PackedMesh(f32, mesh, SceneNormals(m, mol))
    case Failure(e) => Failure(e)
    case Success(bin) => Framing(stringify(DescriptionFor(mesh)), bin)
  }

  /** What `createSimpleGLB` returns or throws for a molfile. */
  function GlbOf(m: Math, f32: Packer.FloatEncoder, stringify: Stringify, sdf: string): Result<seq<byte>, GlbError> {
    match SdfParser.ParsedSdf(sdf)
    case Failure(e) => Failure(Parse(e))
    case Success(mol) => GlbOfMolecule(m, f32, stringify, mol)
  }

  /** The ASCII tags written by `header.write` and the chunk headers are the words of the GLB layout. */
  lemma Tags()
    ensures Ascii("glTF") == Glb.MagicWord
    ensures Ascii("JSON") == Glb.JsonChunkType
    ensures Ascii("BIN\0") == Glb.BinChunkType
  {
  }

  /** `createSimpleGLB`. */
  method CreateSimpleGlb(m: Math, f32: Packer.FloatEncoder, stringify: Stringify, sdf: string) returns (r: Result<seq<byte>, GlbError>)
    ensures r == GlbOf(m, f32, stringify, sdf)
  {
    var parsed := SdfParser.ParseSdf(sdf);
    if parsed.Failure? {
      return Failure(Parse(parsed.error));
    }
    var mol := parsed.value;
    var mesh := Scene.BuildScene(m, mol);
    Scene.SceneShape(m, mol);
    var box := Layout.BoundingBox(mesh.vertices);
    var jsonBuffer := stringify(Layout.DescriptionOf(box, |mesh.vertices|, |mesh.colors|, |mesh.indices|));
    WellFormedInRange(mesh);
    var normals := Normals.ComputeNormals(m, mesh.vertices, mesh.indices);
    assert normals[..] == SceneNormals(m, mol);
    var binData := PackMesh(f32, mesh, normals[..]);
    if binData.Failure? {
      return Failure(binData.error);
    }
    r := Assemble(jsonBuffer, binData.value);
  }

  /** The four buffer loops and the `Buffer.concat` of their buffers. */
  method PackMesh(f32: Packer.FloatEncoder, mesh: Scene.Mesh, normals: seq<Number>) returns (r: Result<seq<byte>, GlbError>)
    ensures r == PackedMesh(f32, mesh, normals)
  {
    var vertexBuffer := Packer.PackFloats(f32, mesh.vertices);
    var normalBuffer := Packer.PackFloats(f32, normals);
    var indexResult := Packer.PackIndices(mesh.indices);
    if indexResult.Failure? {
      return Failure(IndexOutOfRange(indexResult.error));
    }
    var indexBuffer := indexResult.value;
    var colorBuffer := Packer.PackColors(f32, mesh.colors);
    r := Success(vertexBuffer[..] + normalBuffer[..] + colorBuffer[..] + indexBuffer[..]);
  }

  /** The padding, the 12-byte header, the two chunk headers and the final `Buffer.concat`. */
  method Assemble(jsonBuffer: seq<byte>, binData: seq<byte>) returns (r: Result<seq<byte>, GlbError>)
    ensures r == Framing(jsonBuffer, binData)
  {
    var paddedJson := jsonBuffer + Fill((4 - |jsonBuffer| % 4) % 4, JsonFill);
    var paddedBin := binData + Fill((4 - |binData| % 4) % 4, BinFill);
    var totalLength := 12 + 8 + |paddedJson| + 8 + |paddedBin|;
    if totalLength >= Two32 {
      return Failure(TooLarge(totalLength));
    }
    var header := Ascii("glTF") + LE32(2) + LE32(totalLength);
    var jsonChunkHeader := LE32(|paddedJson|) + Ascii("JSON");
    var binChunkHeader := LE32(|paddedBin|) + Ascii("BIN\0");
    Tags();
    assert header + jsonChunkHeader + paddedJson + binChunkHeader + paddedBin
      == Glb.MagicWord + LE32(2) + LE32(totalLength) + LE32(|paddedJson|) + Glb.JsonChunkType + paddedJson
         + LE32(|paddedBin|) + Glb.BinChunkType + paddedBin;
    r := Success(header + jsonChunkHeader + paddedJson + binChunkHeader + paddedBin);
  }

  // ---------------------------------------------------------------- what the file holds

  /** The bytes a buffer view addresses. */
  function ViewBytes(b: seq<byte>, v: Layout.View): (r: seq<byte>)
    requires v.byteOffset + v.byteLength <= |b|
    ensures |r| == v.byteLength && forall i :: 0 <= i < v.byteLength ==> r[i] == b[v.byteOffset + i]
  {
    b[v.byteOffset..v.byteOffset + v.byteLength]
  }

  /** A file that is not too large reads back as a version 2 GLB whose chunks are the padded JSON and binary data. */
  lemma FramingReadsBack(json: seq<byte>, bin: seq<byte>)
    requires Framing(json, bin).Success?
    ensures Glb.ReadGlb(Framing(json, bin).value) == Some(Glb.Container(2, Padded(json, JsonFill), Padded(bin, BinFill)))
  {
    Glb.ReadFramed(2, Padded(json, JsonFill), Padded(bin, BinFill));
  }

  /** Each of four pieces laid end to end is found at the sum of the lengths before it. */
  lemma Quarters(a: seq<byte>, b: seq<byte>, c: seq<byte>, x: seq<byte>)
    ensures var s := a + b + c + x;
      && s[..|a|] == a && s[|a|..|a| + |b|] == b
      && s[|a| + |b|..|a| + |b| + |c|] == c && s[|a| + |b| + |c|..] == x
  {
  }

  /** Four views laid end to end from offset 0, as long as four pieces, address those pieces laid end to end. */
  lemma ViewsOfPieces(views: seq<Layout.View>, a: seq<byte>, b: seq<byte>, c: seq<byte>, x: seq<byte>)
    requires |views| == 4 && views[0].byteOffset == 0
    requires forall k :: 0 <= k < 3 ==> views[k + 1].byteOffset == views[k].byteOffset + views[k].byteLength
    requires views[0].byteLength == |a| && views[1].byteLength == |b|
    requires views[2].byteLength == |c| && views[3].byteLength == |x|
    ensures var s := a + b + c + x;
      && (forall k :: 0 <= k < 4 ==> views[k].byteOffset + views[k].byteLength <= |s|)
      && ViewBytes(s, views[0]) == a && ViewBytes(s, views[1]) == b
      && ViewBytes(s, views[2]) == c && ViewBytes(s, views[3]) == x
  {
    Quarters(a, b, c, x);
  }

  /**
   * The JSON describes the binary data exactly: it is `bufferLength` bytes
   * long, and each of the four buffer views addresses the buffer it names —
   * positions, normals, colours with the alpha forced, indices.
   */
  lemma BinaryLayout(f32: Packer.FloatEncoder, mesh: Scene.Mesh, normals: seq<Number>)
    requires Packer.Fits(mesh.indices) && |normals| == |mesh.vertices|
    ensures var d := DescriptionFor(mesh); var b := BinaryOf(f32, mesh, normals);
      && |b| == d.bufferLength && |d.views| == 4
      && (forall k :: 0 <= k < 4 ==> d.views[k].byteOffset + d.views[k].byteLength <= |b|)
      && ViewBytes(b, d.views[0]) == Packer.FloatBytes(f32, mesh.vertices)
      && ViewBytes(b, d.views[1]) == Packer.FloatBytes(f32, normals)
      && ViewBytes(b, d.views[2]) == Packer.FloatBytes(f32, Packer.ForcedAlpha(mesh.colors))
      && ViewBytes(b, d.views[3]) == Packer.IndexBytes(mesh.indices)
  {
    var p, c, n := |mesh.vertices|, |mesh.colors|, |mesh.indices|;
    var d := DescriptionFor(mesh);
    Layout.DescriptionLayout(Layout.BoundsOf(mesh.vertices), p, c, n);
    var v, q, k, x := Packer.FloatBytes(f32, mesh.vertices), Packer.FloatBytes(f32, normals),
      Packer.FloatBytes(f32, Packer.ForcedAlpha(mesh.colors)), Packer.IndexBytes(mesh.indices);
    Packer.FloatBytesLength(f32, mesh.vertices);
    Packer.FloatBytesLength(f32, normals);
    Packer.FloatBytesLength(f32, Packer.ForcedAlpha(mesh.colors));
    Packer.IndexBytesLength(mesh.indices);
    ViewsOfPieces(d.views, v, q, k, x);
  }

  /**
   * A framed file, read back as a GLB: version 2, a JSON chunk that starts
   * with the JSON text, and a BIN chunk of `bufferLength` bytes plus at most
   * three bytes of padding, in which each buffer view of the JSON addresses
   * the buffer it names.
   */
  lemma FileLayout(f32: Packer.FloatEncoder, stringify: Stringify, mesh: Scene.Mesh, normals: seq<Number>)
    requires Packer.Fits(mesh.indices) && |normals| == |mesh.vertices|
    requires Framing(stringify(DescriptionFor(mesh)), BinaryOf(f32, mesh, normals)).Success?
    ensures var d := DescriptionFor(mesh);
      var c := Glb.ReadGlb(Framing(stringify(d), BinaryOf(f32, mesh, normals)).value);
      && c.Some? && c.value.version == 2
      && |stringify(d)| <= |c.value.json| && c.value.json[..|stringify(d)|] == stringify(d)
      && d.bufferLength <= |c.value.bin| < d.bufferLength + 4 && |d.views| == 4
      && (forall k :: 0 <= k < 4 ==> d.views[k].byteOffset + d.views[k].byteLength <= |c.value.bin|)
      && ViewBytes(c.value.bin, d.views[0]) == Packer.FloatBytes(f32, mesh.vertices)
      && ViewBytes(c.value.bin, d.views[1]) == Packer.FloatBytes(f32, normals)
      && ViewBytes(c.value.bin, d.views[2]) == Packer.FloatBytes(f32, Packer.ForcedAlpha(mesh.colors))
      && ViewBytes(c.value.bin, d.views[3]) == Packer.IndexBytes(mesh.indices)
  {
    var d := DescriptionFor(mesh);
    var bin := BinaryOf(f32, mesh, normals);
    FramingReadsBack(stringify(d), bin);
    BinaryLayout(f32, mesh, normals);
    var padded := Padded(bin, BinFill);
    forall k | 0 <= k < 4
      ensures ViewBytes(padded, d.views[k]) == ViewBytes(bin, d.views[k])
    {
    }
  }

  /**
   * The file for a molecule holds the merged scene: the views of its JSON
   * address the scene's positions, normals, own colours and indices in the
   * BIN chunk.
   */
  lemma MoleculeFile(m: Math, f32: Packer.FloatEncoder, stringify: Stringify, mol: SdfParser.Molecule)
    requires GlbOfMolecule(m, f32, stringify, mol).Success?
    ensures var mesh := Scene.SceneOf(m, mol); var d := DescriptionFor(mesh);
      var c := Glb.ReadGlb(GlbOfMolecule(m, f32, stringify, mol).value);
      && c.Some? && c.value.version == 2
      && |stringify(d)| <= |c.value.json| && c.value.json[..|stringify(d)|] == stringify(d)
      && d.bufferLength <= |c.value.bin| < d.bufferLength + 4 && |d.views| == 4
      && (forall k :: 0 <= k < 4 ==> d.views[k].byteOffset + d.views[k].byteLength <= |c.value.bin|)
      && Packer.Fits(mesh.indices)
      && ViewBytes(c.value.bin, d.views[0]) == Packer.FloatBytes(f32, mesh.vertices)
      && ViewBytes(c.value.bin, d.views[1]) == Packer.FloatBytes(f32, SceneNormals(m, mol))
      && ViewBytes(c.value.bin, d.views[2]) == Packer.FloatBytes(f32, mesh.colors)
      && ViewBytes(c.value.bin, d.views[3]) == Packer.IndexBytes(mesh.indices)
  {
    var mesh := Scene.SceneOf(m, mol);
    var normals := SceneNormals(m, mol);
    assert Packer.Fits(mesh.indices);
    assert GlbOfMolecule(m, f32, stringify, mol) == Framing(stringify(DescriptionFor(mesh)), BinaryOf(f32, mesh, normals));
    FileLayout(f32, stringify, mesh, normals);
    Scene.SceneShape(m, mol);
    Packer.OpaqueUnchanged(mesh.colors);
  }

  /**
   * A scene of at most `2^32` vertices never fails on an index: with 16-bit
   * indices every index is below the index count, with 32-bit ones below
   * `2^32`. Only the total length can then make the file fail.
   */
  lemma NoIndexOverflow(m: Math, f32: Packer.FloatEncoder, stringify: Stringify, mol: SdfParser.Molecule)
    requires Scene.VertexCount(Scene.SceneOf(m, mol)) <= Two32
    ensures GlbOfMolecule(m, f32, stringify, mol).Success? || GlbOfMolecule(m, f32, stringify, mol).error.TooLarge?
  {
    Packer.SceneIndicesFit(m, mol);
  }

  /** `convertSdfToGlb`: any failure of `createSimpleGLB` becomes this one error. */
  const ConversionFailed: string := "SDF->GLB conversion failed."

  method ConvertSdfToGlb(m: Math, f32: Packer.FloatEncoder, stringify: Stringify, sdf: string) returns (r: Result<seq<byte>, string>)
    ensures r.Success? <==> GlbOf(m, f32, stringify, sdf).Success?
    ensures r.Success? ==> r.value == GlbOf(m, f32, stringify, sdf).value
    ensures r.Failure? ==> r.error == ConversionFailed
  {
    var glb := CreateSimpleGlb(m, f32, stringify, sdf);
    if glb.Failure? {
      return Failure(ConversionFailed);
    }
    return Success(glb.value);
  }
}
