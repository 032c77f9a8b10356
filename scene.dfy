/**
 * The merge step of `createSimpleGLB`: one coloured sphere per atom, then one
 * grey tube per drawable bond, appended to flat vertex, colour and index
 * lists. Each part's indices are shifted by the number of vertices already
 * present, and every vertex of a part gets the part's colour with alpha 1.0.
 */
module Scene {
  import opened Wrappers
  import opened JsNumber
  import opened Geometry
  import opened Elements
  import SdfParser

  /** `allVertices` (x, y, z per vertex), `allColors` (r, g, b, a per vertex) and `allIndices`. */
  datatype Mesh = Mesh(vertices: seq<Number>, colors: seq<Number>, indices: seq<nat>)

  const EmptyMesh: Mesh := Mesh([], [], [])

  /** Segments of the atom spheres and of the bond tubes; radius and colour of a tube. */
  const SphereSegments: nat := 12
  const TubeSegments: nat := 8
  const TubeRadius: Number := Finite(0.06)
  const TubeColor: Rgb := Rgb(Finite(0.3), Finite(0.3), Finite(0.3))
  /** A bond is drawn only when the gap between the two sphere surfaces exceeds this. */
  const MinGap: Number := Finite(0.05)

  function VertexCount(mesh: Mesh): nat {
    |mesh.vertices| / 3
  }

  /** Every fourth colour component, the alpha, is 1.0. */
  predicate Opaque(colors: seq<Number>) {
    forall k :: 0 <= k < |colors| && k % 4 == 3 ==> colors[k] == One
  }

  /**
   * Whole vertices, four colour components per vertex with alpha 1.0, and
   * every index naming an existing vertex.
   */
  predicate WellFormed(mesh: Mesh) {
    && |mesh.vertices| % 3 == 0
    && |mesh.colors| == 4 * VertexCount(mesh)
    && Opaque(mesh.colors)
    && forall k :: 0 <= k < |mesh.indices| ==> mesh.indices[k] < VertexCount(mesh)
  }

  /** `indices.map(i => i + indexOffset)`. */
  function Shift(idx: seq<nat>, offset: nat): (r: seq<nat>)
    ensures |r| == |idx| && forall k :: 0 <= k < |idx| ==> r[k] == idx[k] + offset
  {
    seq(|idx|, k requires 0 <= k < |idx| => idx[k] + offset)
  }

  /** `n` times r, g, b, 1.0. */
  function ColorRun(c: Rgb, n: nat): (r: seq<Number>)
    ensures |r| == 4 * n
  {
    if n == 0 then [] else ColorRun(c, n - 1) + [c.r, c.g, c.b, One]
  }

  /**
   * One part appended: its vertices, its indices shifted past the vertices
   * already present, and one colour per vertex — the colour loop runs while
   * `i < vertices.length / 3`, that is `ceil(|vs| / 3)` times.
   */
  function AppendPart(acc: Mesh, vs: seq<Number>, idx: seq<nat>, c: Rgb): Mesh {
    Mesh(acc.vertices + vs, acc.colors + ColorRun(c, (|vs| + 2) / 3), acc.indices + Shift(idx, VertexCount(acc)))
  }

  /** The body shared by the atom and bond callbacks of `createSimpleGLB`. */
  method AppendColored(acc: Mesh, vs: seq<Number>, idx: seq<nat>, c: Rgb) returns (r: Mesh)
    ensures r == AppendPart(acc, vs, idx, c)
  {
    var indexOffset := |acc.vertices| / 3;
    var vertices := acc.vertices + vs;
    var indices := acc.indices + Shift(idx, indexOffset);
    var colors := acc.colors;
    var i := 0;
    while 3 * i < |vs|
      invariant 3 * i <= |vs| + 2
      invariant colors == acc.colors + ColorRun(c, i)
    {
      colors := colors + [c.r, c.g, c.b, One];
      i := i + 1;
    }
    assert i == (|vs| + 2) / 3;
    r := Mesh(vertices, colors, indices);
  }

  lemma {:induction false} ColorRunOpaque(c: Rgb, n: nat)
    ensures Opaque(ColorRun(c, n))
  {
    if n > 0 {
      ColorRunOpaque(c, n - 1);
      var prefix := ColorRun(c, n - 1);
      forall k | 0 <= k < |ColorRun(c, n)| && k % 4 == 3
        ensures ColorRun(c, n)[k] == One
      {
        if k >= |prefix| {
          assert k == |prefix| + 3;
        }
      }
    }
  }

  lemma OpaqueConcat(a: seq<Number>, b: seq<Number>)
    requires |a| % 4 == 0 && Opaque(a) && Opaque(b)
    ensures Opaque(a + b)
  {
    forall k | 0 <= k < |a + b| && k % 4 == 3
      ensures (a + b)[k] == One
    {
      if k >= |a| {
        assert (k - |a|) % 4 == 3;
      }
    }
  }

  /**
   * Appending a part of whole vertices whose indices name its own vertices
   * keeps the mesh well formed: the offset moves the part's indices past the
   * vertices already present, and the part adds one opaque colour per vertex.
   */
  lemma AppendPartWellFormed(acc: Mesh, vs: seq<Number>, idx: seq<nat>, c: Rgb, n: nat)
    requires WellFormed(acc)
    requires |vs| == 3 * n
    requires forall k :: 0 <= k < |idx| ==> idx[k] < n
    ensures WellFormed(AppendPart(acc, vs, idx, c))
    ensures VertexCount(AppendPart(acc, vs, idx, c)) == VertexCount(acc) + n
    ensures |AppendPart(acc, vs, idx, c).indices| == |acc.indices| + |idx|
  {
    var r := AppendPart(acc, vs, idx, c);
    assert (|vs| + 2) / 3 == n;
    ColorRunOpaque(c, n);
    OpaqueConcat(acc.colors, ColorRun(c, n));
    forall k | 0 <= k < |r.indices|
      ensures r.indices[k] < VertexCount(r)
    {
      if k >= |acc.indices| {
        assert r.indices[k] == idx[k - |acc.indices|] + VertexCount(acc);
      }
    }
  }

  lemma MulAssoc(a: nat, b: nat, c: nat)
    ensures a * b * c == a * (b * c)
  {
  }

  /** One step of a count that grows by `k` exactly when the step is drawn. */
  lemma CountStep(total: nat, prevTotal: nat, base: nat, k: nat, d: nat, d2: nat, drawn: bool)
    requires prevTotal == base + k * d
    requires drawn ==> total == prevTotal + k && d2 == d + 1
    requires !drawn ==> total == prevTotal && d2 == d
    ensures total == base + k * d2
  {
  }

  lemma MulSucc(v: nat, d: nat)
    ensures v * d + v == v * (d + 1)
  {
  }

  // ---------------------------------------------------------------- atoms

  function Center(a: SdfParser.Atom): Vec3 {
    Vec3(a.x, a.y, a.z)
  }

  /** The sphere of one atom: radius and colour from the element table (`createSimpleGLB` uses 12 segments). */
  function AddAtom(m: Math, segments: nat, acc: Mesh, a: SdfParser.Atom): Mesh {
    var data := Lookup(a.element);
    AppendPart(acc, SphereVertices(m, Center(a), data.radius, segments), SphereIndices(segments), data.color)
  }

  function AtomsMesh(m: Math, segments: nat, atoms: seq<SdfParser.Atom>): Mesh {
    if atoms == [] then EmptyMesh else AddAtom(m, segments, AtomsMesh(m, segments, atoms[..|atoms| - 1]), atoms[|atoms| - 1])
  }

  // ---------------------------------------------------------------- bonds

  /** `atoms[ordinal - 1]`: `undefined` for NaN, for ordinals below 1 and past the last atom. */
  function AtomAt(atoms: seq<SdfParser.Atom>, ordinal: Option<int>): (r: Option<SdfParser.Atom>)
    ensures r.Some? <==> ordinal.Some? && 1 <= ordinal.value <= |atoms|
    ensures r.Some? ==> r.value == atoms[ordinal.value - 1]
  {
    if ordinal.Some? && 1 <= ordinal.value <= |atoms| then Some(atoms[ordinal.value - 1]) else None
  }

  /** A tube's two end points. */
  datatype Segment = Segment(start: Vec3, end: Vec3)

  /** `(a.x * k, a.y * k, a.z * k)`, the operand order of `nx * radius1`. */
  function Times(a: Vec3, k: Number): Vec3 {
    Vec3(Mul(a.x, k), Mul(a.y, k), Mul(a.z, k))
  }

  /** The two atom centres are a positive distance apart (`bondLength > 0`). */
  predicate Apart(m: Math, p1: Vec3, p2: Vec3) {
    Less(Zero, Length(m, Minus(p2, p1)))
  }

  /** A tube is long enough to draw (`adjustedLength > 0.05`). */
  predicate LongEnough(m: Math, s: Segment) {
    Less(MinGap, Length(m, Minus(s.end, s.start)))
  }

  /**
   * The tube drawn for a bond, if any: both atoms must exist, their distance
   * must be positive, and after pulling each end in to its sphere's surface
   * the remaining length must exceed 0.05.
   */
  function BondSegment(m: Math, atoms: seq<SdfParser.Atom>, bond: SdfParser.Bond): (r: Option<Segment>)
    ensures r.Some? ==> AtomAt(atoms, bond.atom1).Some? && AtomAt(atoms, bond.atom2).Some?
    ensures r.Some? ==> Apart(m, Center(AtomAt(atoms, bond.atom1).value), Center(AtomAt(atoms, bond.atom2).value))
    ensures r.Some? ==> LongEnough(m, r.value)
  {
    var a1 := AtomAt(atoms, bond.atom1);
    var a2 := AtomAt(atoms, bond.atom2);
    if a1.None? || a2.None? then None
    else
      var p1 := Center(a1.value);
      var p2 := Center(a2.value);
      if !Apart(m, p1, p2) then None
      else
        var d := Minus(p2, p1);
        var n := DivBy(d, Length(m, d));
        var seg := Segment(Plus(p1, Times(n, Lookup(a1.value.element).radius)),
                           Minus(p2, Times(n, Lookup(a2.value.element).radius)));
        if LongEnough(m, seg) then Some(seg) else None
  }

  function AddBond(m: Math, segments: nat, atoms: seq<SdfParser.Atom>, acc: Mesh, bond: SdfParser.Bond): Mesh {
    match BondSegment(m, atoms, bond)
    case None => acc
    case Some(s) =>
      AppendPart(acc, CylinderVertices(m, s.start, s.end, TubeRadius, segments),
                 CylinderIndices(m, s.start, s.end, segments), TubeColor)
  }

  function BondsMesh(m: Math, segments: nat, atoms: seq<SdfParser.Atom>, acc: Mesh, bonds: seq<SdfParser.Bond>): Mesh {
    if bonds == [] then acc
    else AddBond(m, segments, atoms, BondsMesh(m, segments, atoms, acc, bonds[..|bonds| - 1]), bonds[|bonds| - 1])
  }

  /** The merged mesh of a molecule: all atom spheres, then the tubes of the drawable bonds. */
  function SceneOf(m: Math, mol: SdfParser.Molecule): Mesh {
    BondsMesh(m, TubeSegments, mol.atoms, AtomsMesh(m, SphereSegments, mol.atoms), mol.bonds)
  }

  /** How many of `bonds` are drawn as tubes. */
  function Drawn(m: Math, atoms: seq<SdfParser.Atom>, bonds: seq<SdfParser.Bond>): (n: nat)
    ensures n <= |bonds|
  {
    if bonds == [] then 0
    else Drawn(m, atoms, bonds[..|bonds| - 1]) + (if BondSegment(m, atoms, bonds[|bonds| - 1]).Some? then 1 else 0)
  }

  /**
   * A drawn bond's tube is never cut off by `createCylinder`'s minimum length:
   * the remaining length exceeds 0.05, so it is not below 0.001.
   */
  lemma DrawnBondIsLongEnough(m: Math, atoms: seq<SdfParser.Atom>, bond: SdfParser.Bond)
    requires BondSegment(m, atoms, bond).Some?
    ensures var s := BondSegment(m, atoms, bond).value; !TooShort(m, s.start, s.end)
  {
  }

  /** A bond naming an atom that does not exist (a NaN, zero, negative or too large ordinal) adds nothing. */
  lemma UnresolvedBondAddsNothing(m: Math, segments: nat, atoms: seq<SdfParser.Atom>, acc: Mesh, bond: SdfParser.Bond)
    requires AtomAt(atoms, bond.atom1).None? || AtomAt(atoms, bond.atom2).None?
    ensures BondSegment(m, atoms, bond).None?
    ensures AddBond(m, segments, atoms, acc, bond) == acc
  {
  }

  /** Bonds that all name a missing atom leave the merged mesh as it is and draw no tube. */
  lemma {:induction false} UnresolvedBondsDrawNothing(m: Math, segments: nat, atoms: seq<SdfParser.Atom>, acc: Mesh, bonds: seq<SdfParser.Bond>)
    requires forall k :: 0 <= k < |bonds| ==> AtomAt(atoms, bonds[k].atom1).None? || AtomAt(atoms, bonds[k].atom2).None?
    ensures BondsMesh(m, segments, atoms, acc, bonds) == acc
    ensures Drawn(m, atoms, bonds) == 0
  {
    if bonds != [] {
      var front := bonds[..|bonds| - 1];
      assert forall k :: 0 <= k < |front| ==> front[k] == bonds[k];
      UnresolvedBondsDrawNothing(m, segments, atoms, acc, front);
      UnresolvedBondAddsNothing(m, segments, atoms, acc, bonds[|bonds| - 1]);
    }
  }

  /** One sphere adds `(segments + 1)^2` vertices and `6 segments^2` indices and keeps the mesh well formed. */
  lemma AddAtomShape(m: Math, segments: nat, acc: Mesh, a: SdfParser.Atom)
    requires WellFormed(acc)
    ensures var r := AddAtom(m, segments, acc, a);
      && WellFormed(r)
      && VertexCount(r) == VertexCount(acc) + (segments + 1) * (segments + 1)
      && |r.indices| == |acc.indices| + 6 * (segments * segments)
  {
    var data := Lookup(a.element);
    SphereSize(m, Center(a), data.radius, segments);
    MulAssoc(3, segments + 1, segments + 1);
    SphereIndicesInRange(segments);
    AppendPartWellFormed(acc, SphereVertices(m, Center(a), data.radius, segments), SphereIndices(segments), data.color,
                         (segments + 1) * (segments + 1));
  }

  /**
   * The spheres of `atoms`, each with `segments + 1` rings of `segments + 1`
   * vertices and `6 segments^2` indices, form a well-formed mesh.
   */
  lemma {:induction false} AtomsMeshShape(m: Math, segments: nat, atoms: seq<SdfParser.Atom>)
    ensures var mesh := AtomsMesh(m, segments, atoms);
      && WellFormed(mesh)
      && VertexCount(mesh) == (segments + 1) * (segments + 1) * |atoms|
      && |mesh.indices| == 6 * (segments * segments) * |atoms|
  {
    if atoms != [] {
      var n := |atoms|;
      AtomsMeshShape(m, segments, atoms[..n - 1]);
      AddAtomShape(m, segments, AtomsMesh(m, segments, atoms[..n - 1]), atoms[n - 1]);
      var v := (segments + 1) * (segments + 1);
      var q := 6 * (segments * segments);
      MulSucc(v, n - 1);
      MulSucc(q, n - 1);
    }
  }

  /** A drawn bond adds `2 (segments + 1)` vertices and `6 segments` indices and keeps the mesh well formed. */
  lemma AddBondShape(m: Math, segments: nat, atoms: seq<SdfParser.Atom>, acc: Mesh, bond: SdfParser.Bond)
    requires WellFormed(acc)
    ensures var r := AddBond(m, segments, atoms, acc, bond);
      && WellFormed(r)
      && (BondSegment(m, atoms, bond).None? ==> r == acc)
      && (BondSegment(m, atoms, bond).Some? ==>
            VertexCount(r) == VertexCount(acc) + 2 * (segments + 1) && |r.indices| == |acc.indices| + 6 * segments)
  {
    var seg := BondSegment(m, atoms, bond);
    if seg.Some? {
      var s := seg.value;
      DrawnBondIsLongEnough(m, atoms, bond);
      CylinderSize(m, s.start, s.end, TubeRadius, segments);
      CylinderIndicesInRange(m, s.start, s.end, segments);
      AppendPartWellFormed(acc, CylinderVertices(m, s.start, s.end, TubeRadius, segments),
                           CylinderIndices(m, s.start, s.end, segments), TubeColor, 2 * (segments + 1));
    }
  }

  /** Appending the bonds keeps the mesh well formed. */
  lemma {:induction false} BondsMeshWellFormed(m: Math, segments: nat, atoms: seq<SdfParser.Atom>, acc: Mesh, bonds: seq<SdfParser.Bond>)
    requires WellFormed(acc)
    ensures WellFormed(BondsMesh(m, segments, atoms, acc, bonds))
  {
    if bonds != [] {
      var prefix := bonds[..|bonds| - 1];
      BondsMeshWellFormed(m, segments, atoms, acc, prefix);
      AddBondShape(m, segments, atoms, BondsMesh(m, segments, atoms, acc, prefix), bonds[|bonds| - 1]);
    }
  }

  /** A drawn bond adds `segments + 1` rim pairs and two triangles per segment; an undrawn one nothing. */
  lemma AddBondCounts(m: Math, segments: nat, atoms: seq<SdfParser.Atom>, acc: Mesh, bond: SdfParser.Bond)
    ensures var r := AddBond(m, segments, atoms, acc, bond);
      && (BondSegment(m, atoms, bond).None? ==> r == acc)
      && (BondSegment(m, atoms, bond).Some? ==>
            |r.vertices| == |acc.vertices| + 6 * (segments + 1) && |r.indices| == |acc.indices| + 6 * segments)
  {
    var seg := BondSegment(m, atoms, bond);
    if seg.Some? {
      DrawnBondIsLongEnough(m, atoms, bond);
      CylinderSize(m, seg.value.start, seg.value.end, TubeRadius, segments);
    }
  }

  /** Each drawn bond adds `2 (segments + 1)` vertices and `6 segments` indices; undrawn bonds add nothing. */
  lemma {:induction false} BondsMeshCounts(m: Math, segments: nat, atoms: seq<SdfParser.Atom>, acc: Mesh, bonds: seq<SdfParser.Bond>)
    ensures |BondsMesh(m, segments, atoms, acc, bonds).vertices| == |acc.vertices| + 6 * (segments + 1) * Drawn(m, atoms, bonds)
    ensures |BondsMesh(m, segments, atoms, acc, bonds).indices| == |acc.indices| + 6 * segments * Drawn(m, atoms, bonds)
  {
    if bonds != [] {
      var prefix := bonds[..|bonds| - 1];
      BondsMeshCounts(m, segments, atoms, acc, prefix);
      var prev := BondsMesh(m, segments, atoms, acc, prefix);
      var next := BondsMesh(m, segments, atoms, acc, bonds);
      var drawn := BondSegment(m, atoms, bonds[|bonds| - 1]).Some?;
      AddBondCounts(m, segments, atoms, prev, bonds[|bonds| - 1]);
      CountStep(|next.vertices|, |prev.vertices|, |acc.vertices|, 6 * (segments + 1),
                Drawn(m, atoms, prefix), Drawn(m, atoms, bonds), drawn);
      CountStep(|next.indices|, |prev.indices|, |acc.indices|, 6 * segments,
                Drawn(m, atoms, prefix), Drawn(m, atoms, bonds), drawn);
    }
  }

  /**
   * The merged mesh is well formed, and its size follows from the molecule:
   * 169 vertices and 864 indices per atom (12 segments), 18 vertices and 48
   * indices per drawn bond (8 segments), four colour components per vertex.
   */
  lemma SceneShape(m: Math, mol: SdfParser.Molecule)
    ensures var mesh := SceneOf(m, mol);
      var d := Drawn(m, mol.atoms, mol.bonds);
      && WellFormed(mesh)
      && |mesh.vertices| == 507 * |mol.atoms| + 54 * d
      && |mesh.colors| == 676 * |mol.atoms| + 72 * d
      && |mesh.indices| == 864 * |mol.atoms| + 48 * d
  {
    var spheres := AtomsMesh(m, SphereSegments, mol.atoms);
    var mesh := SceneOf(m, mol);
    var d := Drawn(m, mol.atoms, mol.bonds);
    AtomsMeshShape(m, SphereSegments, mol.atoms);
    assert VertexCount(spheres) == 169 * |mol.atoms|;
    assert |spheres.vertices| == 507 * |mol.atoms|;
    BondsMeshWellFormed(m, TubeSegments, mol.atoms, spheres, mol.bonds);
    BondsMeshCounts(m, TubeSegments, mol.atoms, spheres, mol.bonds);
    assert |mesh.vertices| == 507 * |mol.atoms| + 54 * d;
    assert |mesh.indices| == 864 * |mol.atoms| + 48 * d;
  }

  lemma AtomsMeshSnoc(m: Math, segments: nat, atoms: seq<SdfParser.Atom>, k: nat)
    requires k < |atoms|
    ensures AtomsMesh(m, segments, atoms[..k + 1]) == AddAtom(m, segments, AtomsMesh(m, segments, atoms[..k]), atoms[k])
  {
    assert atoms[..k + 1][..k] == atoms[..k];
  }

  lemma BondsMeshSnoc(m: Math, segments: nat, atoms: seq<SdfParser.Atom>, acc: Mesh, bonds: seq<SdfParser.Bond>, j: nat)
    requires j < |bonds|
    ensures BondsMesh(m, segments, atoms, acc, bonds[..j + 1]) == AddBond(m, segments, atoms, BondsMesh(m, segments, atoms, acc, bonds[..j]), bonds[j])
  {
    assert bonds[..j + 1][..j] == bonds[..j];
  }

  /** One iteration of `atoms.forEach`. */
  method PushAtom(m: Math, segments: nat, acc: Mesh, a: SdfParser.Atom) returns (r: Mesh)
    ensures r == AddAtom(m, segments, acc, a)
  {
    var data := Lookup(a.element);
    var vertices, indices := CreateSphere(m, Center(a), data.radius, segments);
    r := AppendColored(acc, vertices, indices, data.color);
  }

  /** One iteration of `bonds.forEach`. */
  method PushBond(m: Math, segments: nat, atoms: seq<SdfParser.Atom>, acc: Mesh, bond: SdfParser.Bond) returns (r: Mesh)
    ensures r == AddBond(m, segments, atoms, acc, bond)
  {
    var seg := BondSegment(m, atoms, bond);
    if seg.None? {
      return acc;
    }
    var vertices, indices := CreateCylinder(m, seg.value.start, seg.value.end, TubeRadius, segments);
    r := AppendColored(acc, vertices, indices, TubeColor);
  }

  /** The `atoms.forEach` loop: one sphere per atom, in order. */
  method PushAtoms(m: Math, segments: nat, atoms: seq<SdfParser.Atom>) returns (mesh: Mesh)
    ensures mesh == AtomsMesh(m, segments, atoms)
  {
    mesh := EmptyMesh;
    var k := 0;
    while k < |atoms|
      invariant k <= |atoms|
      invariant mesh == AtomsMesh(m, segments, atoms[..k])
    {
      var next := PushAtom(m, segments, mesh, atoms[k]);
      AtomsMeshSnoc(m, segments, atoms, k);
      mesh, k := next, k + 1;
    }
    assert atoms[..k] == atoms;
  }

  /** The `bonds.forEach` loop: one tube per drawable bond, in order. */
  method PushBonds(m: Math, segments: nat, atoms: seq<SdfParser.Atom>, acc: Mesh, bonds: seq<SdfParser.Bond>) returns (mesh: Mesh)
    ensures mesh == BondsMesh(m, segments, atoms, acc, bonds)
  {
    mesh := acc;
    var j := 0;
    while j < |bonds|
      invariant j <= |bonds|
      invariant mesh == BondsMesh(m, segments, atoms, acc, bonds[..j])
    {
      BondsMeshSnoc(m, segments, atoms, acc, bonds, j);
      mesh := PushBond(m, segments, atoms, mesh, bonds[j]);
      j := j + 1;
    }
    assert bonds[..j] == bonds;
  }

  /** The two `forEach` loops of `createSimpleGLB`. */
  method BuildScene(m: Math, mol: SdfParser.Molecule) returns (mesh: Mesh)
    ensures mesh == SceneOf(m, mol)
  {
    var spheres := PushAtoms(m, SphereSegments, mol.atoms);
    mesh := PushBonds(m, TubeSegments, mol.atoms, spheres, mol.bonds);
  }
}
