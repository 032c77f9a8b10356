# SDF to GLB conversion and PubChem record splitting, modelled in Dafny

This project models the part of the ChemiLens backend that turns a molecule in
MDL SDF text into a binary glTF (GLB) file, together with the helper that pulls
PubChem compound records apart by compound id (CID).

- `converter.ts` (`createSimpleGLB` and its helpers) works in these steps:
  - It parses the counts line, the atom block and the bond block of an SDF
    record (`SdfParser`).
  - It draws every atom as a UV sphere of 12 segments and every bond as an
    8-segment cylinder that ends at the atom surfaces (`Geometry`, `Scene`).
    Radius and colour come from the element table (`Elements`).
  - It merges all meshes into one position, colour and index list.
  - It computes the bounding box and the node translation that centres the model (`Layout`).
  - It accumulates and normalises the vertex normals (`Normals`).
  - It writes four little-endian buffers (`Packer`). Colour alphas are forced
    to 1, and indices are 16-bit or 32-bit depending on how many indices there are.
  - It frames JSON and binary chunk into a GLB container padded to 4 bytes (`Converter`, `Glb`).
- `sdf-to-gltf.ts` is the older fallback converter (`Legacy`). It reads atoms by
  whitespace-separated fields, draws every atom as an 8-corner cube with
  per-symbol radius, and writes a GLB from a fixed JSON description. It can also
  write a one-carbon fallback file.
- `cidtosdf.ts` (`PubChem`) works in these steps:
  - It reads the CID after the `> <PUBCHEM_COMPOUND_CID>` tag.
  - It removes duplicate CIDs in first-seen order and joins them with commas.
  - It splits the combined reply on `$$$$` lines.
  - It keeps the records that carry a non-zero CID.

Supporting modules model the JavaScript built-ins the code relies on:
- `JsNumber`: IEEE doubles as exact reals plus NaN and the infinities, with
  `Math.min`/`Math.max` semantics. Trigonometry and `Math.sqrt` are passed in
  as a `Math` record.
- `JsString`: `split`, `substring`, `trim`, `parseInt`, `parseFloat`, `join`.
- `Bytes`: `writeUInt16LE`, `writeUInt32LE`, `Buffer.alloc`, `Buffer.concat`.

The code that changes state step by step is modelled as methods with loops
(`ParseSdf`, `CreateSphere`, `CreateCylinder`, `BuildScene`, `BoundingBox`,
`ComputeNormals`, the `Pack…` methods, `CreateSimpleGlb`, `Legacy.ParseSDF`,
`Legacy.MoleculeGeometry`). Each is proved equal to a specification function,
and the properties are proved about those functions.

Some behaviours of the code are easy to miss, and the model keeps them:
- An empty line 3 counts as a missing counts line: the parser throws.
- Empty atom or bond lines are skipped, because an empty string is falsy.
- A counts line whose atom count does not parse yields no atoms and, since
  `4 + NaN` indexes nothing, no bonds (`SdfParser.NaNAtomCount`).
- The index component type and width follow the number of indices, not the
  number of vertices.
- In the fallback converter:
  - The JSON declares 24 vertices and 648 buffer bytes per atom, but the
    geometry holds 8 vertices in 264 bytes per atom (`Legacy.DeclaredVersusEmitted`).
  - Cube indices are written as 16-bit values and wrap beyond 8192 atoms
    (`Legacy.IndicesWrap`).
  - The JSON padding is 1 to 4 spaces, never 0.
  - `radii[symbol] || 0.8` reads inherited `Object.prototype` members too:
    for a symbol such as `toString` the lookup yields a function, and the
    arithmetic on it gives a NaN radius (`Legacy.AtomRadiusSpec`).

## Model

| member | source | states |
|---|---|---|
| SdfParser.PresentLines | backend/converter/converter.ts:452-454 | the lines a block loop reads are at most its count, none empty, and none when its start index is NaN |
| SdfParser.ParseSdf | backend/converter/converter.ts:440-472 | fails exactly when line 3 is missing or empty; otherwise returns the atoms and bonds the specification function reads |
| SdfParser.ReadRecords | backend/converter/converter.ts:452-469 | the block loop returns one parsed record per present line of the block, in order |
| SdfParser.RecordsAt | backend/converter/converter.ts:455-459 | record i is the parse of line i |
| SdfParser.PresentLinesComplete | backend/converter/converter.ts:452-454 | when every line of the block exists and is non-empty, the loop reads exactly that slice |
| SdfParser.CompleteRecord | backend/converter/converter.ts:440-472 | a well-formed record (counts parse, all block lines present) parses to one atom per atom line and one bond per bond line, in order |
| SdfParser.CompleteBlocks | backend/converter/converter.ts:452-468 | with both counts parsed, the atom block is lines 4 to 4+a and the bond block follows it directly |
| SdfParser.AtomsAtMostCount | backend/converter/converter.ts:452-459 | never more atoms than the parsed atom count |
| SdfParser.NaNAtomCount | backend/converter/converter.ts:446-463 | an unparsable atom count yields no atoms and no bonds |
| JsString.Split | backend/converter/converter.ts:441 | at least one piece and no piece contains the separator |
| JsString.JoinSplit | backend/converter/converter.ts:441 | joining the pieces of a split with the separator restores the string |
| JsString.SplitJoin | backend/pubchem/cidtosdf.ts:26 | splitting a join of separator-free pieces restores the pieces |
| JsString.Substring | backend/converter/converter.ts:446-458 | the result is the clamped slice of the string, as long as the range when it lies inside |
| JsString.TrimSpec | backend/converter/converter.ts:458 | trimming leaves a slice that neither starts nor ends with whitespace, and everything cut off is whitespace |
| JsString.SplitWs | backend/converter/sdf-to-gltf.ts:113 | the whitespace split yields at least one field and no field holds whitespace |
| JsString.SplitWsSpaced | backend/converter/sdf-to-gltf.ts:113 | non-empty fields without whitespace, joined by non-empty whitespace runs, split back into exactly those fields |
| JsString.TrimAround | backend/converter/sdf-to-gltf.ts:104 | `trim` removes exactly the whitespace around a text that starts and ends with a non-space character |
| JsString.DigitRunIsMaximal | backend/pubchem/cidtosdf.ts:9 | the digit run is all digits and is followed by a non-digit or the end |
| JsString.ParseIntRadixSpec | backend/converter/converter.ts:446-447 | `parseInt` gives NaN exactly when the text after leading whitespace and one sign does not start with a decimal digit, or, when a `0x` prefix is accepted and present, nothing after the prefix is a hex digit |
| JsString.ParseIntOfField | backend/converter/converter.ts:446-447 | a right-aligned integer field followed by a non-digit parses back to that integer |
| JsString.ParseInt10OfIntToString | backend/pubchem/cidtosdf.ts:10 | printing an integer in decimal and parsing it back gives the integer |
| JsString.DigitsValueOfNatToString | backend/pubchem/cidtosdf.ts:26 | the decimal digits of a natural number evaluate back to it |
| JsString.ParseFloatSpec | backend/converter/converter.ts:455-457 | `parseFloat` is NaN exactly when no decimal literal follows, and infinite exactly for `Infinity` |
| JsNumber.MinIsLower | backend/converter/converter.ts:205-209 | on non-NaN values `Math.min` is below both arguments and is one of them |
| JsNumber.MaxIsUpper | backend/converter/converter.ts:206-210 | on non-NaN values `Math.max` is above both arguments and is one of them |
| Elements.LookupSpec | backend/converter/converter.ts:123-124 | an unknown symbol gets the DEFAULT entry (radius 0.3, grey 0.8); every looked-up radius lies in 0.2 to 0.6 |
| Elements.ParsedSymbolIsOwnKeyOrDefault | backend/converter/converter.ts:458 | a parsed element symbol has at most 3 characters, so it never names an inherited object property |
| Geometry.CreateSphere | backend/converter/converter.ts:5-41 | the two loops yield the sphere's grid of points and its band triangles |
| Geometry.EmitGrid | backend/converter/converter.ts:11-27 | the nested vertex loop pushes the grid points row by row |
| Geometry.EmitBands | backend/converter/converter.ts:30-38 | the nested index loop pushes two triangles per grid quad |
| Geometry.SphereSize | backend/converter/converter.ts:5-41 | a sphere has 3(s+1)^2 coordinates and 6s^2 indices |
| Geometry.SphereIndicesInRange | backend/converter/converter.ts:30-38 | every sphere index names one of the (s+1)^2 vertices |
| Geometry.SphereIndexPrefixStep | backend/converter/converter.ts:32-36 | the index prefix grows quad by quad, each quad at lat(s+1)+lon adding its two triangles |
| Geometry.CreateCylinder | backend/converter/converter.ts:44-111 | empty when the axis is shorter than 0.001; otherwise 2(s+1) rim points and 6s indices |
| Geometry.EmitPairs | backend/converter/converter.ts:85-98 | pushes bottom and top rim point per angle step |
| Geometry.EmitSides | backend/converter/converter.ts:101-108 | pushes two triangles per side quad |
| Geometry.CylinderSize | backend/converter/converter.ts:44-111 | sizes of an empty and of a drawn cylinder |
| Geometry.CylinderIndicesInRange | backend/converter/converter.ts:101-108 | every side index names one of the 2(s+1) rim vertices, and the `% (segments + 1)` never wraps |
| Scene.ColorRun | backend/converter/converter.ts:134-136 | one RGBA colour per vertex |
| Scene.AppendColored | backend/converter/converter.ts:128-136 | merging a part appends its positions, shifted indices and colours |
| Scene.BondSegment | backend/converter/converter.ts:141-181 | a bond gets a segment only when both 1-based ordinals name atoms, the two centres are apart, and the segment left between the atom surfaces is longer than the minimum gap |
| Scene.UnresolvedBondsDrawNothing | backend/converter/converter.ts:140-198 | bonds whose ordinals name no atom leave the mesh unchanged and draw no cylinder |
| Scene.AppendPartWellFormed | backend/converter/converter.ts:128-136 | merging a well-formed part keeps every index below the vertex count and every alpha at 1 |
| Scene.Drawn | backend/converter/converter.ts:140-198 | at most one cylinder per bond |
| Scene.DrawnBondIsLongEnough | backend/converter/converter.ts:173-181 | a bond that is drawn never hits the cylinder's too-short case |
| Scene.AtomsMeshShape | backend/converter/converter.ts:122-137 | the spheres of n atoms are well formed with 169n vertices and 864n indices |
| Scene.BondsMeshWellFormed | backend/converter/converter.ts:140-198 | adding bond cylinders keeps the merged mesh well formed |
| Scene.BondsMeshCounts | backend/converter/converter.ts:140-198 | each drawn bond adds 6(s+1) coordinates and 6s indices |
| Scene.SceneShape | backend/converter/converter.ts:122-198 | the merged mesh is well formed, with 507 coordinates, 676 colour values and 864 indices per atom, and 54, 72 and 48 per drawn bond |
| Scene.PushAtoms | backend/converter/converter.ts:122-137 | the atom loop builds the sphere part of the scene |
| Scene.PushBonds | backend/converter/converter.ts:140-198 | the bond loop builds the cylinder part of the scene |
| Scene.BuildScene | backend/converter/converter.ts:115-198 | the merged mesh of all atoms and drawn bonds |
| Layout.BoundingBox | backend/converter/converter.ts:201-211 | the loop computes the running min and max over every third coordinate |
| Layout.BoxContains | backend/converter/converter.ts:201-211 | without NaN coordinates the box holds every point read; its min never exceeds `Number.MAX_VALUE` and its max never falls below `-Number.MAX_VALUE` |
| Layout.BoxMinAttained | backend/converter/converter.ts:205-209 | each minimum is a coordinate read, NaN, or still `Number.MAX_VALUE` |
| Layout.BoxMaxAttained | backend/converter/converter.ts:206-210 | each maximum is a coordinate read, NaN, or still `-Number.MAX_VALUE` |
| Layout.BoxNaN | backend/converter/converter.ts:205-210 | one NaN coordinate makes that axis's min and max NaN |
| Layout.CenterShiftCentres | backend/converter/converter.ts:220 | the translation puts the box's midpoint at the origin |
| Layout.EmptyBounds | backend/converter/converter.ts:201-220 | no vertices leave the start box, and the translation is zero |
| Layout.DescriptionLayout | backend/converter/converter.ts:248-304 | views lie end to end from 0 in the order positions, normals, colours, indices; the buffer length is their sum; 32-bit indices exactly above 65535 indices |
| Normals.ComputeNormals | backend/converter/converter.ts:310-356 | the accumulate and normalise loops produce the specified normals |
| Normals.AccumulateNormals | backend/converter/converter.ts:311-343 | the face loop adds each face's cross product to its three corners |
| Normals.NormalizeNormals | backend/converter/converter.ts:346-356 | the normalise loop replaces each vertex normal by its unit vector |
| Normals.AccumulatedAt | backend/converter/converter.ts:312-343 | a vertex's accumulated normal is the sum over the faces that use it |
| Normals.NormalOfVertex | backend/converter/converter.ts:310-356 | each final normal is the normalised sum of its faces' normals |
| Normals.UnusedVertexNormal | backend/converter/converter.ts:346-355 | a vertex used by no face keeps the zero normal |
| Packer.PackFloats | backend/converter/converter.ts:359-369 | the buffer holds one encoded float per value, at offset 4i |
| Packer.FloatBytesAt | backend/converter/converter.ts:360-363 | bytes 4i to 4i+4 are the encoding of value i |
| Packer.ForcedAlphaOpaque | backend/converter/converter.ts:382-390 | every fourth value becomes 1, and every other value is kept |
| Packer.PackColors | backend/converter/converter.ts:382-390 | the colour buffer encodes the colours with alphas forced to 1 |
| Packer.PackIndices | backend/converter/converter.ts:371-380 | succeeds exactly when every index fits its width; then it writes each index little-endian at its width; else it reports the first index out of range |
| Packer.IndexBytesRead | backend/converter/converter.ts:371-380 | index k reads back from offset 4k (wide) or 2k (narrow) |
| Packer.FirstMisfitAt | backend/converter/converter.ts:376-378 | the reported index is the first one out of range |
| Packer.SceneIndicesFit | backend/converter/converter.ts:371-380 | for a scene of at most 2^32 vertices, which every JavaScript array of positions meets, the indices fit their width, so the range error cannot occur |
| Glb.ReadGlb | backend/converter/converter.ts:403-426 | a container that reads has total length 28 plus its chunks, and chunk lengths that are multiples of 4 |
| Glb.ReadFramed | backend/converter/converter.ts:403-426 | reading a framed container gives back its version and both chunks |
| Converter.Padded | backend/converter/converter.ts:396-401 | pads to a multiple of 4 with fewer than 4 fill bytes and keeps the data as a prefix |
| Converter.Tags | backend/converter/converter.ts:406-418 | the ASCII writes of 'glTF', 'JSON' and 'BIN\0' are the GLB magic and chunk types |
| Converter.Assemble | backend/converter/converter.ts:393-426 | padding, headers and concatenation give the framed file, or fail when the length exceeds 32 bits |
| Converter.FramingReadsBack | backend/converter/converter.ts:393-426 | the framed file reads back as version 2 with the padded JSON and padded binary |
| Converter.ViewBytes | backend/converter/converter.ts:276-300 | a view selects exactly its byteLength bytes from its byteOffset |
| Converter.BinaryLayout | backend/converter/converter.ts:276-304 | every view of the JSON lies inside the binary and selects positions, normals, colours and indices in turn |
| Converter.FileLayout | backend/converter/converter.ts:276-426 | in the framed file, the JSON is a prefix of chunk 0 and every declared view of chunk 1 holds its data |
| Converter.PackMesh | backend/converter/converter.ts:358-393 | packs the four buffers and concatenates them, or fails on an index range error |
| Converter.CreateSimpleGlb | backend/converter/converter.ts:114-427 | the converter's steps give the specified file |
| Converter.MoleculeFile | backend/converter/converter.ts:114-427 | a converted molecule's file reads back with each declared view holding the molecule's positions, normals, colours and indices |
| Converter.NoIndexOverflow | backend/converter/converter.ts:371-380 | conversion can fail only by exceeding the 32-bit file length |
| Converter.ConvertSdfToGlb | backend/converter/converter.ts:492-502 | succeeds exactly when the conversion does, with its file; otherwise the one fixed error |
| Legacy.AtomOfFields | backend/converter/sdf-to-gltf.ts:104-121 | a line holding at least four whitespace-separated fields `x y z S …`, with any whitespace around it, yields the one atom with coordinates `parseFloat` of the first three fields and symbol the fourth |
| Legacy.ParseSDF | backend/converter/sdf-to-gltf.ts:97-126 | the line loop returns the atoms of lines 4 to 4+count that have 4 fields |
| Legacy.NothingBeforeBlock | backend/converter/sdf-to-gltf.ts:103-111 | lines 0 to 3 never yield atoms |
| Legacy.AtomsAtMostCount | backend/converter/sdf-to-gltf.ts:107-111 | never more atoms than the count of line 3 |
| Legacy.CompleteBlock | backend/converter/sdf-to-gltf.ts:103-123 | when every block line has 4 fields, atom k comes from line 4+k |
| Legacy.AtomRadiusSpec | backend/converter/sdf-to-gltf.ts:302-317 | a listed symbol gets its positive radius; a name that is neither listed nor inherited from `Object.prototype` gets 0.8; an inherited name such as `toString` gives NaN; every radius that is a number lies in 0.3 to 1.3 |
| Legacy.PushCorners | backend/converter/sdf-to-gltf.ts:263-271 | appends the 8 scaled corners and their normals |
| Legacy.PushFaces | backend/converter/sdf-to-gltf.ts:283-289 | appends the 12 faces shifted by 8 per atom |
| Legacy.MoleculeGeometry | backend/converter/sdf-to-gltf.ts:247-290 | the atom loop yields 24 position numbers, 24 normal numbers and 36 indices per atom |
| Legacy.IndicesForAt | backend/converter/sdf-to-gltf.ts:283-289 | index k of atom i is 8i plus the face corner, inside that atom's 8 vertices |
| Legacy.IndicesBelow | backend/converter/sdf-to-gltf.ts:283-289 | every index names one of the 8n vertices |
| Legacy.Uint16BytesAt | backend/converter/sdf-to-gltf.ts:294 | a `Uint16Array` stores each index modulo 2^16 |
| Legacy.GenerateMoleculeGeometry | backend/converter/sdf-to-gltf.ts:246-297 | the buffer holds positions, normals and 16-bit indices in turn |
| Legacy.GeometryLength | backend/converter/sdf-to-gltf.ts:292-296 | 264 bytes per atom, a multiple of 4 |
| Legacy.IndicesReadBack | backend/converter/sdf-to-gltf.ts:283-294 | up to 8192 atoms every index reads back unchanged |
| Legacy.IndicesWrap | backend/converter/sdf-to-gltf.ts:283-294 | beyond 8192 atoms the first index of atom 8192 is 65536 and is stored as 0 |
| Legacy.JsonPadding | backend/converter/sdf-to-gltf.ts:212 | adds 1 to 4 bytes to reach a multiple of 4 |
| Legacy.LegacyFraming | backend/converter/sdf-to-gltf.ts:212-240 | fails exactly when the total length needs more than 32 bits; otherwise the GLB frame of padded JSON and geometry |
| Legacy.WriteGlb | backend/converter/sdf-to-gltf.ts:212-240 | the header writes and concatenation give that frame |
| Legacy.GenerateSimpleGlb | backend/converter/sdf-to-gltf.ts:143-241 | the generator's steps give the specified file |
| Legacy.SimpleGlbReadsBack | backend/converter/sdf-to-gltf.ts:143-241 | the file reads back as version 2 with the padded JSON and the geometry |
| Legacy.DeclaredSizes | backend/converter/sdf-to-gltf.ts:165-206 | the JSON declares 24 vertices and 648 buffer bytes per atom |
| Legacy.DeclaredVersusEmitted | backend/converter/sdf-to-gltf.ts:165-216 | declared and emitted buffer sizes differ for every non-empty molecule |
| Legacy.GenerateFallbackGlb | backend/converter/sdf-to-gltf.ts:322-329 | the fallback is the file for one carbon atom at the origin |
| Legacy.FallbackFile | backend/converter/sdf-to-gltf.ts:322-329 | the fallback file is produced (when its JSON fits), its geometry is 264 bytes, its carbon radius is 0.7 and its indices stay below 8 |
| PubChem.FirstTagMatch | backend/pubchem/cidtosdf.ts:9 | finds the first occurrence of the tag followed by a digit, and none before it |
| PubChem.IdAfterTag | backend/pubchem/cidtosdf.ts:8-11 | no id exactly when no tag is followed by a digit; otherwise a non-negative value |
| PubChem.CidFromSdf | backend/pubchem/cidtosdf.ts:8-11 | no CID exactly when the CID tag followed by a digit is absent; otherwise a non-negative value |
| PubChem.CapturedAt | backend/pubchem/cidtosdf.ts:9 | the captured group is the maximal digit run after the tag |
| PubChem.IdAtFirstMatch | backend/pubchem/cidtosdf.ts:9-10 | the id is the value of the digits after the first match |
| PubChem.CidAtFirstMatch | backend/pubchem/cidtosdf.ts:9-10 | the CID is the value of the digits after the first match of the CID tag |
| PubChem.CidOfRecord | backend/pubchem/cidtosdf.ts:8-11 | a record holding the CID tag and a printed CID reads back that CID |
| PubChem.DigitsZero | backend/pubchem/cidtosdf.ts:10-43 | the captured value is 0 exactly when all its digits are '0' |
| PubChem.Unique | backend/pubchem/cidtosdf.ts:25 | the same CIDs as the input, each once |
| PubChem.UniqueKeepsFirstOrder | backend/pubchem/cidtosdf.ts:25 | the CIDs keep the order of their first occurrences |
| PubChem.UniqueOfDistinct | backend/pubchem/cidtosdf.ts:25 | a list without duplicates is kept as it is |
| PubChem.CidListReadsBack | backend/pubchem/cidtosdf.ts:25-26 | splitting the comma list gives back each unique CID in order |
| PubChem.FirstDelimiter | backend/pubchem/cidtosdf.ts:38 | finds the first `\n$$$$`, and none before it |
| PubChem.SplitRecords | backend/pubchem/cidtosdf.ts:38 | at least one piece, and no piece holds a delimiter |
| PubChem.SplitJoinedRecords | backend/pubchem/cidtosdf.ts:38 | records joined by `\n$$$$\n` split back into the same records |
| PubChem.EntryOf | backend/pubchem/cidtosdf.ts:40-46 | a record is kept exactly when its CID is present and non-zero, paired with that CID |
| PubChem.Entries | backend/pubchem/cidtosdf.ts:40-47 | every kept entry is one of the records with its own non-zero CID |
| PubChem.EntriesAppend | backend/pubchem/cidtosdf.ts:40-47 | keeping distributes over concatenation, so order is preserved |
| PubChem.EntriesComplete | backend/pubchem/cidtosdf.ts:40-47 | every record with a non-zero CID is kept |
| PubChem.CidsToSdfs | backend/pubchem/cidtosdf.ts:18-55 | no CIDs gives no results; each result has a non-zero CID read from its own delimiter-free record |

## Left out

- Filesystem, temporary files, the Python converter, `console` logging and
  `cleanupTempFiles` are I/O and are not modelled.
- The HTTP request is modelled as a `Fetch` parameter that returns the reply
  text, or nothing when the request fails. A thrown network error and a
  non-ok status are both that "nothing".
- `Math.sin`, `Math.cos`, `Math.sqrt` and `Math.PI` are parameters (a `Math`
  record), because floating-point transcendental functions are foreign code.
- Float32 encoding (`writeFloatLE`, `Float32Array`) is a parameter that turns
  a number into 4 bytes. Rounding to single precision is not modelled.
- Arithmetic on numbers is exact over the reals, with no signed zero and no
  53-bit rounding.
- `JSON.stringify` is a parameter that maps the layout description to bytes.
  The JSON text itself and its constant fields (materials, asset, generator)
  are not modelled.
- Typed arrays and `Buffer` are assumed little-endian, as on every platform
  Node runs on.
- Normals.ComputeNormals: requires every index to name an existing vertex. The
  JavaScript array would grow for an out-of-range index. The merged scene
  always meets the requirement (`Scene.SceneShape`, `Converter.WellFormedInRange`).
- PubChem.CidFromSdf: gives the exact value of the digit run and does not
  model rounding of runs longer than 15 digits to a double.
- PubChem.CidList: prints each CID in plain decimal and does not model
  exponent notation from 10^21 up or non-integer ids.
- PubChem.Unique: CIDs are integers, so the `Set` rules for NaN and signed
  zero do not arise.
- The `cids` argument being `null` or `undefined` is the `None` case of an option.
- Buffer size limits of the runtime are not modelled beyond the 32-bit length
  fields of the GLB header.
