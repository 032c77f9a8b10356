/**
 * The binary glTF container (GLB) of chapter 4 of the Khronos glTF 2.0
 * specification: a 12-byte header (magic `glTF`, version, total length), then
 * a JSON chunk and a BIN chunk, each behind an 8-byte chunk header (length,
 * type) and each a multiple of 4 bytes long.
 *
 * `ReadGlb` is an independent reader of that layout; both container writers
 * of the model are proved to produce files it reads back.
 */
module Glb {
  import opened Wrappers
  import opened Bytes

  /** `glTF`, read as a little-endian 32-bit integer. */
  const MagicWord: Word := LE32(0x46546C67)
  /** Chunk type `JSON`. */
  const JsonChunkType: Word := LE32(0x4E4F534A)
  /** Chunk type `BIN` followed by a zero byte. */
  const BinChunkType: Word := LE32(0x004E4942)

  datatype Container = Container(version: nat, json: seq<byte>, bin: seq<byte>)

  /** Reads a GLB file with one JSON chunk and one BIN chunk; `None` if the layout is violated. */
  function ReadGlb(b: seq<byte>): (r: Option<Container>)
    ensures r.Some? ==> |b| == 28 + |r.value.json| + |r.value.bin|
    ensures r.Some? ==> |r.value.json| % 4 == 0 && |r.value.bin| % 4 == 0
  {
    if |b| < 28 || b[..4] != MagicWord || ReadLE32(b, 8) != |b| then None
    else
      var jl := ReadLE32(b, 12);
      if b[16..20] != JsonChunkType || jl % 4 != 0 || 28 + jl > |b| then None
      else
        var p := 20 + jl;
        var bl := ReadLE32(b, p);
        if b[p + 4..p + 8] != BinChunkType || bl % 4 != 0 || p + 8 + bl != |b| then None
        else Some(Container(ReadLE32(b, 4), b[20..p], b[p + 8..]))
  }

  /** The canonical bytes of a container holding the two given (already padded) chunks. */
  function Framed(version: nat, json: seq<byte>, bin: seq<byte>): (r: seq<byte>)
    requires version < Two32 && 28 + |json| + |bin| < Two32
    ensures |r| == 28 + |json| + |bin|
  {
    MagicWord + LE32(version) + LE32(28 + |json| + |bin|)
    + LE32(|json|) + JsonChunkType + json
    + LE32(|bin|) + BinChunkType + bin
  }

  lemma ReadWordAt(s: seq<byte>, at: nat, w: Word)
    requires at + 4 <= |s| && s[at..at + 4] == w
    ensures ReadLE32(s, at) == ReadLE32(w, 0)
  {
    assert s[at] == w[0] && s[at + 1] == w[1] && s[at + 2] == w[2] && s[at + 3] == w[3];
  }

  /** Framing the chunks and reading the file back gives the chunks back. */
  lemma ReadFramed(version: nat, json: seq<byte>, bin: seq<byte>)
    requires version < Two32 && 28 + |json| + |bin| < Two32
    requires |json| % 4 == 0 && |bin| % 4 == 0
    ensures ReadGlb(Framed(version, json, bin)) == Some(Container(version, json, bin))
  {
    FramedHeader(version, json, bin);
    FramedChunks(version, json, bin);
  }

  /** The 12-byte header and the JSON chunk header of a framed file. */
  lemma FramedHeader(version: nat, json: seq<byte>, bin: seq<byte>)
    requires version < Two32 && 28 + |json| + |bin| < Two32
    ensures var f := Framed(version, json, bin);
      && f[..4] == MagicWord && ReadLE32(f, 4) == version && ReadLE32(f, 8) == |f|
      && ReadLE32(f, 12) == |json| && f[16..20] == JsonChunkType
  {
    var total := 28 + |json| + |bin|;
    var head := MagicWord + LE32(version) + LE32(total) + LE32(|json|) + JsonChunkType;
    var f := Framed(version, json, bin);
    assert f == head + (json + LE32(|bin|) + BinChunkType + bin);
    assert f[..4] == head[..4] == MagicWord;
    assert f[4..8] == head[4..8] == LE32(version);
    assert f[8..12] == head[8..12] == LE32(total);
    assert f[12..16] == head[12..16] == LE32(|json|);
    assert f[16..20] == head[16..20] == JsonChunkType;
    ReadWordAt(f, 4, LE32(version));
    ReadWordAt(f, 8, LE32(total));
    ReadWordAt(f, 12, LE32(|json|));
  }

  /** The JSON chunk, the BIN chunk header and the BIN chunk of a framed file. */
  lemma FramedChunks(version: nat, json: seq<byte>, bin: seq<byte>)
    requires version < Two32 && 28 + |json| + |bin| < Two32
    ensures var f := Framed(version, json, bin);
      var p := 20 + |json|;
      && f[20..p] == json && ReadLE32(f, p) == |bin|
      && f[p + 4..p + 8] == BinChunkType && f[p + 8..] == bin
  {
    var head := MagicWord + LE32(version) + LE32(28 + |json| + |bin|) + LE32(|json|) + JsonChunkType;
    var tail := LE32(|bin|) + BinChunkType + bin;
    var f := Framed(version, json, bin);
    assert f == head + json + tail;
    var p := 20 + |json|;
    assert f[20..p] == json;
    assert f[p..] == tail;
    assert f[p..p + 4] == LE32(|bin|);
    assert f[p + 4..p + 8] == BinChunkType;
    assert f[p + 8..] == bin;
    ReadWordAt(f, p, LE32(|bin|));
  }
}
