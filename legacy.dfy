/**
 * The older GLB builder of `sdf-to-gltf.ts` (`SDFToGLTFConverter`): a
 * whitespace-splitting molfile reader, one eight-corner cube per atom, and a
 * GLB file whose JSON declares a fixed layout for 24 vertices per atom while
 * the binary data holds 8, so the two disagree (see `DeclaredVersusEmitted`).
 */
module Legacy {
  import opened Wrappers
  import opened Bytes
  import opened JsNumber
  import opened JsString
  import Elements
  import Layout
  import Packer
  import Glb

  // ---------------------------------------------------------------- parseSDF

  datatype LegacyAtom = LegacyAtom(x: Number, y: Number, z: Number, symbol: string)

  /** `line.trim().split(/\s+/)`. */
  function WordsOf(line: string): seq<string> {
    SplitWs(Trim(line))
  }

  /** The atom read from the first four words: three coordinates and the symbol. */
  function AtomOfWords(parts: seq<string>): LegacyAtom
    requires |parts| >= 4
  {
    LegacyAtom(ParseFloat(parts[0]), ParseFloat(parts[1]), ParseFloat(parts[2]), parts[3])
  }

  /** The atom a line yields: one when it has at least four words, none otherwise. */
  function AtomFromLine(line: string): (r: seq<LegacyAtom>)
    ensures |r| <= 1
    ensures |r| == 1 <==> |WordsOf(line)| >= 4
    ensures |r| == 1 ==> r[0] == AtomOfWords(WordsOf(line))
  {
    var parts := WordsOf(line);
    if |parts| >= 4 then [AtomOfWords(parts)] else []
  }

  /**
   * A line holding at least four whitespace-separated fields, with any blanks
   * around them, yields one atom: the numbers of the first three fields and
   * the fourth field as its symbol.
   */
  lemma AtomOfFields(lead: string, fields: seq<string>, gaps: seq<string>, trail: string)
    requires WellSpaced(fields, gaps) && |fields| >= 4
    requires AllSpace(lead) && AllSpace(trail)
    ensures AtomFromLine(lead + Spaced(fields, gaps) + trail)
      == [LegacyAtom(ParseFloat(fields[0]), ParseFloat(fields[1]), ParseFloat(fields[2]), fields[3])]
  {
    var core := Spaced(fields, gaps);
    SpacedEnds(fields, gaps);
    TrimAround(lead, core, trail);
    SplitWsSpaced(fields, gaps);
    assert WordsOf(lead + core + trail) == fields;
  }

  /** `atomCount`: `parseInt` of the first three characters of trimmed line 3, or 0 without a line 3. */
  function AtomCountOf(lines: seq<string>): Option<int> {
    if |lines| > 3 then ParseInt(Substring(Trim(lines[3]), 0, 3)) else Some(0)
  }

  /** `i >= 4 && i < 4 + atomCount`, which is false for a NaN count. */
  predicate InAtomBlock(count: Option<int>, i: nat) {
    4 <= i && count.Some? && i < 4 + count.value
  }

  /** What `read` yields for the lines of the atom block among the first `n` lines, in order. */
  function BlockRecords<T>(read: string -> seq<T>, lines: seq<string>, count: Option<int>, n: nat): seq<T>
    requires n <= |lines|
  {
    if n == 0 then []
    else BlockRecords(read, lines, count, n - 1) + (if InAtomBlock(count, n - 1) then read(lines[n - 1]) else [])
  }

  /** What `parseSDF` returns. */
  function LegacyAtoms(content: string): seq<LegacyAtom> {
    var lines := Split(content, '\n');
    BlockRecords(AtomFromLine, lines, AtomCountOf(lines), |lines|)
  }

  /** No line before line 4 yields anything. */
  lemma {:induction false} NothingBeforeBlock<T>(read: string -> seq<T>, lines: seq<string>, count: Option<int>, n: nat)
    requires n <= 4 && n <= |lines|
    ensures BlockRecords(read, lines, count, n) == []
  {
    if n > 0 {
      NothingBeforeBlock(read, lines, count, n - 1);
    }
  }

  /**
   * `parseSDF`: one pass over the lines; line 3 sets `atomCount`, and each
   * line of the atom block whose trimmed text has at least four words
   * yields an atom.
   */
  method ParseSDF(content: string) returns (atoms: seq<LegacyAtom>)
    ensures atoms == LegacyAtoms(content)
  {
    var lines := Split(content, '\n');
    atoms := [];
    var atomCount: Option<int> := Some(0);
    for i := 0 to |lines|
      invariant atomCount == if i > 3 then AtomCountOf(lines) else Some(0)
      invariant atoms == BlockRecords(AtomFromLine, lines, AtomCountOf(lines), i)
    {
      if i < 4 {
        NothingBeforeBlock(AtomFromLine, lines, AtomCountOf(lines), i + 1);
      }
      var line := Trim(lines[i]);
      if i == 3 {
        atomCount := ParseInt(Substring(line, 0, 3));
        continue;
      }
      if i >= 4 && atomCount.Some? && i < 4 + atomCount.value {
        var parts := SplitWs(line);
        if |parts| >= 4 {
          atoms := atoms + [AtomOfWords(parts)];
        }
      }
    }
  }

  /** How many of the first `n` lines lie in the atom block. */
  function BlockLinesBelow(count: Option<int>, n: nat): (r: nat)
    ensures count.None? || count.value <= 0 ==> r == 0
    ensures count.Some? && count.value > 0 ==> r <= count.value
  {
    if count.None? || n <= 4 then 0
    else if n <= 4 + count.value then n - 4
    else if count.value > 0 then count.value else 0
  }

  /**
   * Never more atoms than block lines read so far: none when the count is NaN
   * or not positive (or line 3 is missing), and at most the count otherwise.
   */
  lemma {:induction false} AtomsAtMostCount(lines: seq<string>, count: Option<int>, n: nat)
    requires n <= |lines|
    ensures |BlockRecords(AtomFromLine, lines, count, n)| <= BlockLinesBelow(count, n)
  {
    if n > 0 {
      AtomsAtMostCount(lines, count, n - 1);
    }
  }

  /** Block lines that each yield one record yield them in order, record `k` from line `4 + k`. */
  lemma {:induction false} FullBlock<T>(read: string -> seq<T>, lines: seq<string>, c: nat, n: nat)
    requires 4 <= n <= 4 + c && n <= |lines|
    requires forall i :: 4 <= i < n ==> |read(lines[i])| == 1
    ensures |BlockRecords(read, lines, Some(c), n)| == n - 4
    ensures forall k :: 0 <= k < n - 4 ==> BlockRecords(read, lines, Some(c), n)[k] == read(lines[4 + k])[0]
  {
    if n == 4 {
      NothingBeforeBlock(read, lines, Some(c), 4);
    } else {
      FullBlock(read, lines, c, n - 1);
    }
  }

  /**
   * When every line of the block is there and has at least four words, atom
   * `k` is read from the words of line `4 + k`.
   */
  lemma CompleteBlock(lines: seq<string>, c: nat, n: nat)
    requires 4 <= n <= 4 + c && n <= |lines|
    requires forall i :: 4 <= i < n ==> |WordsOf(lines[i])| >= 4
    ensures |BlockRecords(AtomFromLine, lines, Some(c), n)| == n - 4
    ensures forall k :: 0 <= k < n - 4 ==> BlockRecords(AtomFromLine, lines, Some(c), n)[k] == AtomOfWords(WordsOf(lines[4 + k]))
  {
    FullBlock(AtomFromLine, lines, c, n);
  }

  // ---------------------------------------------------------------- getAtomRadius

  const Radii: map<string, real> := map[
    "H" := 0.3, "C" := 0.7, "N" := 0.65, "O" := 0.6, "P" := 1.0,
    "S" := 1.0, "F" := 0.5, "Cl" := 0.9, "Br" := 1.1, "I" := 1.3
  ]

  const DefaultRadius: real := 0.8

  /**
   * `radii[symbol] || 0.8`. A symbol naming a property every object inherits
   * (`toString`, `constructor`, ...) yields that function or object, which
   * turns every product it enters into NaN; the model returns NaN for it.
   */
  function AtomRadius(symbol: string): Number {
    if symbol in Radii then Finite(Radii[symbol])
    else if symbol in Elements.InheritedKeys then NaN
    else Finite(DefaultRadius)
  }

  /**
   * The ten listed symbols get their table radius, every other symbol that
   * is not an inherited property name gets 0.8, an inherited property name
   * gets NaN, and since no table radius is zero the `|| 0.8` never replaces a
   * listed one.
   */
  lemma AtomRadiusSpec(symbol: string)
    ensures symbol in Radii ==> AtomRadius(symbol) == Finite(Radii[symbol]) && Radii[symbol] > 0.0
    ensures symbol !in Radii && symbol !in Elements.InheritedKeys ==> AtomRadius(symbol) == Finite(0.8)
    ensures symbol in Elements.InheritedKeys ==> AtomRadius(symbol).NaN?
    ensures !AtomRadius(symbol).NaN? ==> 0.3 <= AtomRadius(symbol).v <= 1.3
  {
  }

  // ---------------------------------------------------------------- generateMoleculeGeometry

  /** The eight cube corners, front face then back face. */
  const CubeCorners: seq<(int, int, int)> := [
    (-1, -1, 1), (1, -1, 1), (1, 1, 1), (-1, 1, 1),
    (-1, -1, -1), (-1, 1, -1), (1, 1, -1), (1, -1, -1)
  ]

  /** The twelve triangles, two per cube side, as corner numbers. */
  const CubeFaces: seq<nat> := [
    0, 1, 2, 0, 2, 3, 4, 5, 6, 4, 6, 7, 0, 4, 7, 0, 7, 1,
    2, 6, 5, 2, 5, 3, 0, 3, 5, 0, 5, 4, 1, 7, 6, 1, 6, 2
  ]

  function Component(p: (int, int, int), d: nat): int {
    if d == 0 then p.0 else if d == 1 then p.1 else p.2
  }

  function Base(a: LegacyAtom, d: nat): Number {
    if d == 0 then a.x else if d == 1 then a.y else a.z
  }

  /** `atom.x + dx * radius`, and likewise for y and z. */
  function Offset(base: Number, unit: int, radius: Number): Number {
    Add(base, Mul(FromInt(unit), radius))
  }

  /** Coordinate `d` of corner `c` of the cube of half-width `radius` around `a`: `atom.x + x * radius`, ... */
  function CornerCoordinate(a: LegacyAtom, radius: Number, c: nat, d: nat): Number
    requires c < 8
  {
    Offset(Base(a, d), Component(CubeCorners[c], d), radius)
  }

  /** The 24 position numbers of one atom's cube, three per corner. */
  function CubePositions(a: LegacyAtom): (r: seq<Number>)
    ensures |r| == 24
  {
    seq(24, k requires 0 <= k < 24 => CornerCoordinate(a, AtomRadius(a.symbol), k / 3, k % 3))
  }

  /** The 24 normal numbers of every cube: the corner directions themselves. */
  function CubeNormals(): (r: seq<Number>)
    ensures |r| == 24
  {
    seq(24, k requires 0 <= k < 24 => FromInt(Component(CubeCorners[k / 3], k % 3)))
  }

  /** The corner numbers of `faces` as indices of atom `i`'s corners, which start at `8 i`. */
  function ShiftedFaces(faces: seq<nat>, i: nat): (r: seq<nat>)
    ensures |r| == |faces|
  {
    seq(|faces|, k requires 0 <= k < |faces| => i * 8 + faces[k])
  }

  /** The 36 indices of atom `i`'s cube. */
  function CubeIndices(i: nat): (r: seq<nat>)
    ensures |r| == 36
  {
    ShiftedFaces(CubeFaces, i)
  }

  function Positions(atoms: seq<LegacyAtom>): (r: seq<Number>)
    ensures |r| == 24 * |atoms|
  {
    if atoms == [] then [] else Positions(atoms[..|atoms| - 1]) + CubePositions(atoms[|atoms| - 1])
  }

  function NormalsFor(n: nat): (r: seq<Number>)
    ensures |r| == 24 * n
  {
    if n == 0 then [] else NormalsFor(n - 1) + CubeNormals()
  }

  function IndicesFor(n: nat): (r: seq<nat>)
    ensures |r| == 36 * n
  {
    if n == 0 then [] else IndicesFor(n - 1) + CubeIndices(n - 1)
  }

  /** Three more elements of `s` on top of its prefix of length `3 c`. */
  lemma TripleStep<T>(s: seq<T>, c: nat)
    requires 3 * c + 3 <= |s|
    ensures s[..3 * c + 3] == s[..3 * c] + [s[3 * c], s[3 * c + 1], s[3 * c + 2]]
  {
  }

  /** Element `3 c + d` of a three-per-corner sequence is coordinate `d` of corner `c`. */
  lemma Thirds(c: nat)
    ensures (3 * c) / 3 == c && (3 * c) % 3 == 0
    ensures (3 * c + 1) / 3 == c && (3 * c + 1) % 3 == 1
    ensures (3 * c + 2) / 3 == c && (3 * c + 2) % 3 == 2
  {
  }

  /** `vertices.forEach(...)`: the corners of one atom pushed onto `positions` and `normals`. */
  method PushCorners(a: LegacyAtom, positions: seq<Number>, normals: seq<Number>) returns (ps: seq<Number>, ns: seq<Number>)
    ensures ps == positions + CubePositions(a) && ns == normals + CubeNormals()
  {
    var radius := AtomRadius(a.symbol);
    ps, ns := positions, normals;
    for c := 0 to 8
      invariant ps == positions + CubePositions(a)[..3 * c]
      invariant ns == normals + CubeNormals()[..3 * c]
    {
      var corner := CubeCorners[c];
      ps := ps + [CornerCoordinate(a, radius, c, 0), CornerCoordinate(a, radius, c, 1), CornerCoordinate(a, radius, c, 2)];
      ns := ns + [FromInt(corner.0), FromInt(corner.1), FromInt(corner.2)];
      Thirds(c);
      TripleStep(CubePositions(a), c);
      TripleStep(CubeNormals(), c);
    }
    assert CubePositions(a)[..24] == CubePositions(a);
    assert CubeNormals()[..24] == CubeNormals();
  }

  /** `faces.forEach(...)`: the triangles of atom `i` pushed onto `indices`. */
  method PushFaces(i: nat, indices: seq<nat>) returns (ix: seq<nat>)
    ensures ix == indices + CubeIndices(i)
  {
    ix := indices;
    for f := 0 to 12
      invariant ix == indices + CubeIndices(i)[..3 * f]
    {
      ix := ix + [i * 8 + CubeFaces[3 * f], i * 8 + CubeFaces[3 * f + 1], i * 8 + CubeFaces[3 * f + 2]];
      FaceStep(CubeFaces, i, f);
    }
    assert CubeIndices(i)[..36] == CubeIndices(i);
  }

  /** Face `f` adds its three corners, offset by `8 i`, to the indices of the faces before it. */
  lemma FaceStep(faces: seq<nat>, i: nat, f: nat)
    requires 3 * f + 3 <= |faces|
    ensures ShiftedFaces(faces, i)[..3 * f + 3]
      == ShiftedFaces(faces, i)[..3 * f] + [i * 8 + faces[3 * f], i * 8 + faces[3 * f + 1], i * 8 + faces[3 * f + 2]]
  {
    TripleStep(ShiftedFaces(faces, i), f);
  }

  /** The `atoms.forEach` loop of `generateMoleculeGeometry`. */
  method MoleculeGeometry(atoms: seq<LegacyAtom>) returns (positions: seq<Number>, normals: seq<Number>, indices: seq<nat>)
    ensures positions == Positions(atoms) && normals == NormalsFor(|atoms|) && indices == IndicesFor(|atoms|)
  {
    positions, normals, indices := [], [], [];
    for i := 0 to |atoms|
      invariant positions == Positions(atoms[..i]) && normals == NormalsFor(i) && indices == IndicesFor(i)
    {
      positions, normals := PushCorners(atoms[i], positions, normals);
      indices := PushFaces(i, indices);
      assert atoms[..i + 1][..i] == atoms[..i];
    }
    assert atoms[..|atoms|] == atoms;
  }

  /** Every corner number of the face list names one of the eight corners. */
  lemma CubeFacesBelowEight()
    ensures forall k :: 0 <= k < 36 ==> CubeFaces[k] < 8
  {
  }

  /**
   * Index `36 i + k` belongs to atom `i`'s cube: it is `8 i` plus a corner
   * number, so it lies in `[8 i, 8 i + 8)`.
   */
  lemma {:induction false} IndicesForAt(n: nat, i: nat, k: nat)
    requires i < n && k < 36
    ensures IndicesFor(n)[36 * i + k] == 8 * i + CubeFaces[k]
    ensures 8 * i <= IndicesFor(n)[36 * i + k] < 8 * i + 8
  {
    CubeFacesBelowEight();
    var front := IndicesFor(n - 1);
    assert IndicesFor(n) == front + CubeIndices(n - 1);
    if i < n - 1 {
      IndicesForAt(n - 1, i, k);
      assert 36 * i + k < |front|;
    } else {
      assert 36 * i + k == |front| + k;
    }
  }

  /** Every index of `n` cubes is below `8 n`. */
  lemma {:induction false} IndicesBelow(n: nat)
    ensures forall j :: 0 <= j < |IndicesFor(n)| ==> IndicesFor(n)[j] < 8 * n
  {
    forall j | 0 <= j < |IndicesFor(n)|
      ensures IndicesFor(n)[j] < 8 * n
    {
      IndicesForAt(n, j / 36, j % 36);
    }
  }

  // ---------------------------------------------------------------- typed-array buffers

  /** `new Uint16Array(indices)`: each value taken modulo `2^16`, stored little-endian. */
  function Uint16Bytes(idx: seq<nat>): (r: seq<byte>)
    ensures |r| == 2 * |idx|
  {
    var ps := seq(|idx|, k requires 0 <= k < |idx| => LE16(idx[k] % Two16));
    JoinedLength(ps, 2);
    Joined(ps)
  }

  lemma Uint16BytesAt(idx: seq<nat>, k: nat)
    requires k < |idx|
    ensures ReadLE16(Uint16Bytes(idx), 2 * k) == idx[k] % Two16
    ensures idx[k] < Two16 ==> ReadLE16(Uint16Bytes(idx), 2 * k) == idx[k]
  {
    var ps := seq(|idx|, j requires 0 <= j < |idx| => LE16(idx[j] % Two16));
    JoinedAt(ps, 2, k);
    var b := Uint16Bytes(idx);
    assert b[2 * k..2 * k + 2] == ps[k];
    assert b[2 * k] == ps[k][0] && b[2 * k + 1] == ps[k][1];
  }

  /** The buffer `generateMoleculeGeometry` returns: positions, normals, indices. */
  function GeometryBytes(f32: Packer.FloatEncoder, atoms: seq<LegacyAtom>): seq<byte> {
    Packer.FloatBytes(f32, Positions(atoms)) + Packer.FloatBytes(f32, NormalsFor(|atoms|)) + Uint16Bytes(IndicesFor(|atoms|))
  }

  /** `generateMoleculeGeometry`. */
  method GenerateMoleculeGeometry(f32: Packer.FloatEncoder, atoms: seq<LegacyAtom>) returns (bin: seq<byte>)
    ensures bin == GeometryBytes(f32, atoms)
  {
    var positions, normals, indices := MoleculeGeometry(atoms);
    bin := Packer.FloatBytes(f32, positions) + Packer.FloatBytes(f32, normals) + Uint16Bytes(indices);
  }

  /** 96 position bytes, 96 normal bytes and 72 index bytes per atom: `264 n`, a multiple of four. */
  lemma GeometryLength(f32: Packer.FloatEncoder, atoms: seq<LegacyAtom>)
    ensures |GeometryBytes(f32, atoms)| == 264 * |atoms|
    ensures |GeometryBytes(f32, atoms)| % 4 == 0
  {
    Packer.FloatBytesLength(f32, Positions(atoms));
    Packer.FloatBytesLength(f32, NormalsFor(|atoms|));
    var n := |atoms|;
    assert 4 * (24 * n) + 4 * (24 * n) + 2 * (36 * n) == 4 * (66 * n);
  }

  /**
   * With at most 8192 atoms every index is below `2^16`, and the index bytes
   * read back as the indices: index `36 i + k` is `8 i` plus corner number `k`.
   */
  lemma IndicesReadBack(n: nat, i: nat, k: nat)
    requires n <= 8192 && i < n && k < 36
    ensures ReadLE16(Uint16Bytes(IndicesFor(n)), 2 * (36 * i + k)) == 8 * i + CubeFaces[k]
  {
    IndicesForAt(n, i, k);
    Uint16BytesAt(IndicesFor(n), 36 * i + k);
  }

  /**
   * Beyond 8192 atoms the `Uint16Array` wraps: the first index of atom 8192
   * is 65536, and it is stored as 0, the first corner of atom 0.
   */
  lemma IndicesWrap(n: nat)
    requires n > 8192
    ensures IndicesFor(n)[36 * 8192] == 65536
    ensures ReadLE16(Uint16Bytes(IndicesFor(n)), 2 * (36 * 8192)) == 0
  {
    IndicesForAt(n, 8192, 0);
    Uint16BytesAt(IndicesFor(n), 36 * 8192);
  }

  // ---------------------------------------------------------------- generateSimpleGLB

  /**
   * The layout numbers of the JSON, all fixed by the atom count: 24 vertices
   * and 36 indices per atom, three buffer views and the buffer length.
   */
  datatype LegacyDescription = LegacyDescription(
    positionCount: nat, normalCount: nat, indexCount: nat, views: seq<Layout.View>, bufferLength: nat)

  function LegacyDescriptionOf(n: nat): LegacyDescription {
    LegacyDescription(n * 24, n * 24, n * 36,
      [Layout.View(0, n * 24 * 3 * 4, Layout.ArrayBuffer),
       Layout.View(n * 24 * 3 * 4, n * 24 * 3 * 4, Layout.ArrayBuffer),
       Layout.View(n * 24 * 3 * 4 * 2, n * 36 * 2, Layout.ElementArrayBuffer)],
      n * (24 * 3 * 4 * 2 + 36 * 2))
  }

  /** `JSON.stringify(scene)` as UTF-8 bytes; JSON serialisation is not modelled. */
  type LegacyStringify = LegacyDescription -> seq<byte>

  /** `4 - (length % 4)`: one to four spaces, never zero. */
  function JsonPadding(length: nat): (p: nat)
    ensures 1 <= p <= 4 && (length + p) % 4 == 0
  {
    4 - length % 4
  }

  /**
   * The file around a JSON text and a binary buffer: the JSON padded with one
   * to four spaces, the binary data as it is, or the RangeError's length when
   * the total needs more than 32 bits.
   */
  function LegacyFraming(json: seq<byte>, bin: seq<byte>): (r: Result<seq<byte>, nat>)
    ensures r.Failure? <==> 28 + |json| + JsonPadding(|json|) + |bin| >= Two32
    ensures r.Failure? ==> r.error == 28 + |json| + JsonPadding(|json|) + |bin|
  {
    var padded := json + Fill(JsonPadding(|json|), 0x20);
    var total := 12 + 8 + |padded| + 8 + |bin|;
    if total >= Two32 then Failure(total) else Success(Glb.Framed(2, padded, bin))
  }

  /** The output of `generateSimpleGLB`. */
  function SimpleGlbOf(f32: Packer.FloatEncoder, stringify: LegacyStringify, atoms: seq<LegacyAtom>): Result<seq<byte>, nat> {
    LegacyFraming(stringify(LegacyDescriptionOf(|atoms|)), GeometryBytes(f32, atoms))
  }

  /** `generateSimpleGLB`. */
  method GenerateSimpleGlb(f32: Packer.FloatEncoder, stringify: LegacyStringify, atoms: seq<LegacyAtom>) returns (r: Result<seq<byte>, nat>)
    ensures r == SimpleGlbOf(f32, stringify, atoms)
  {
    var jsonBuffer := stringify(LegacyDescriptionOf(|atoms|));
    var binaryData := GenerateMoleculeGeometry(f32, atoms);
    r := WriteGlb(jsonBuffer, binaryData);
  }

  /** The padding and the header and chunk-header writes of `generateSimpleGLB`. */
  method WriteGlb(jsonBuffer: seq<byte>, binaryData: seq<byte>) returns (r: Result<seq<byte>, nat>)
    ensures r == LegacyFraming(jsonBuffer, binaryData)
  {
    var padding := 4 - |jsonBuffer| % 4;
    var paddedJsonBuffer := jsonBuffer + Fill(padding, 0x20);
    var totalLength := 12 + 8 + |paddedJsonBuffer| + 8 + |binaryData|;
    if totalLength >= Two32 {
      return Failure(totalLength);
    }
    var header := LE32(0x46546C67) + LE32(2) + LE32(totalLength);
    var jsonChunkHeader := LE32(|paddedJsonBuffer|) + LE32(0x4E4F534A);
    var binaryChunkHeader := LE32(|binaryData|) + LE32(0x004E4942);
    assert header + jsonChunkHeader + paddedJsonBuffer + binaryChunkHeader + binaryData
      == Glb.MagicWord + LE32(2) + LE32(totalLength) + LE32(|paddedJsonBuffer|) + Glb.JsonChunkType + paddedJsonBuffer
         + LE32(|binaryData|) + Glb.BinChunkType + binaryData;
    r := Success(header + jsonChunkHeader + paddedJsonBuffer + binaryChunkHeader + binaryData);
  }

  /**
   * A file that is not too large reads back as a version 2 GLB whose JSON
   * chunk is the JSON text followed by one to four spaces and whose BIN chunk
   * is the geometry buffer.
   */
  lemma SimpleGlbReadsBack(f32: Packer.FloatEncoder, stringify: LegacyStringify, atoms: seq<LegacyAtom>)
    requires SimpleGlbOf(f32, stringify, atoms).Success?
    ensures var json := stringify(LegacyDescriptionOf(|atoms|));
      Glb.ReadGlb(SimpleGlbOf(f32, stringify, atoms).value)
        == Some(Glb.Container(2, json + Fill(JsonPadding(|json|), 0x20), GeometryBytes(f32, atoms)))
  {
    var json := stringify(LegacyDescriptionOf(|atoms|));
    GeometryLength(f32, atoms);
    Glb.ReadFramed(2, json + Fill(JsonPadding(|json|), 0x20), GeometryBytes(f32, atoms));
  }

  /**
   * The JSON's layout and the emitted data disagree for every non-empty
   * molecule: it declares 24 vertices per atom and `648 n` buffer bytes, the
   * geometry holds 8 vertices (of three numbers) per atom in `264 n` bytes.
   */
  lemma DeclaredVersusEmitted(f32: Packer.FloatEncoder, atoms: seq<LegacyAtom>)
    ensures var d := LegacyDescriptionOf(|atoms|);
      && d.positionCount == 24 * |atoms| && |Positions(atoms)| == 3 * (8 * |atoms|)
      && d.bufferLength == 648 * |atoms| && |GeometryBytes(f32, atoms)| == 264 * |atoms|
      && (|atoms| > 0 ==> d.bufferLength != |GeometryBytes(f32, atoms)|)
  {
    DeclaredSizes(|atoms|);
    GeometryLength(f32, atoms);
  }

  /** The sizes the JSON declares for `n` atoms. */
  lemma DeclaredSizes(n: nat)
    ensures LegacyDescriptionOf(n).positionCount == 24 * n
    ensures LegacyDescriptionOf(n).bufferLength == 648 * n
  {
    assert 24 * 3 * 4 * 2 + 36 * 2 == 648;
  }

  // ---------------------------------------------------------------- generateFallbackGLB

  /** The single atom of the fallback file: a carbon at the origin. */
  const FallbackAtom: LegacyAtom := LegacyAtom(Zero, Zero, Zero, "C")

  /** The file `generateFallbackGLB` writes. */
  method GenerateFallbackGlb(f32: Packer.FloatEncoder, stringify: LegacyStringify) returns (r: Result<seq<byte>, nat>)
    ensures r == SimpleGlbOf(f32, stringify, [FallbackAtom])
  {
    r := GenerateSimpleGlb(f32, stringify, [FallbackAtom]);
  }

  /**
   * The fallback file holds one cube of half-width 0.7 (the carbon radius)
   * around the origin: 264 bytes of geometry, indices 0 to 7, and it is
   * framed whenever the JSON text is shorter than 4 GiB minus the fixed parts.
   */
  lemma FallbackFile(f32: Packer.FloatEncoder, stringify: LegacyStringify)
    requires |stringify(LegacyDescriptionOf(1))| + 300 < Two32
    ensures SimpleGlbOf(f32, stringify, [FallbackAtom]).Success?
    ensures |GeometryBytes(f32, [FallbackAtom])| == 264
    ensures AtomRadius(FallbackAtom.symbol) == Finite(0.7)
    ensures forall j :: 0 <= j < |IndicesFor(1)| ==> IndicesFor(1)[j] < 8
  {
    GeometryLength(f32, [FallbackAtom]);
    IndicesBelow(1);
  }
}
