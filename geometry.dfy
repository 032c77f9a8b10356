/**
 * The two mesh generators of `converter.ts`: a UV sphere per atom and an
 * open eight-sided tube per bond. Each returns a flat vertex list (x, y, z
 * per vertex) and a triangle index list that starts at vertex 0.
 */
module Geometry {
  import opened JsNumber

  /** A point or direction, one JavaScript number per axis. */
  datatype Vec3 = Vec3(x: Number, y: Number, z: Number)

  function Plus(a: Vec3, b: Vec3): Vec3 {
    Vec3(Add(a.x, b.x), Add(a.y, b.y), Add(a.z, b.z))
  }

  function Minus(a: Vec3, b: Vec3): Vec3 {
    Vec3(Sub(a.x, b.x), Sub(a.y, b.y), Sub(a.z, b.z))
  }

  function Scale(k: Number, a: Vec3): Vec3 {
    Vec3(Mul(k, a.x), Mul(k, a.y), Mul(k, a.z))
  }

  function DivBy(a: Vec3, k: Number): Vec3 {
    Vec3(Div(a.x, k), Div(a.y, k), Div(a.z, k))
  }

  /** `a.x * b.x + a.y * b.y + a.z * b.z`, added left to right. */
  function Dot(a: Vec3, b: Vec3): Number {
    Add(Add(Mul(a.x, b.x), Mul(a.y, b.y)), Mul(a.z, b.z))
  }

  function Cross(a: Vec3, b: Vec3): Vec3 {
    Vec3(Sub(Mul(a.y, b.z), Mul(a.z, b.y)),
         Sub(Mul(a.z, b.x), Mul(a.x, b.z)),
         Sub(Mul(a.x, b.y), Mul(a.y, b.x)))
  }

  /** `Math.sqrt(dx * dx + dy * dy + dz * dz)`. */
  function Length(m: Math, a: Vec3): Number {
    Sqrt(m, Dot(a, a))
  }

  function Coords(p: Vec3): (r: seq<Number>)
    ensures |r| == 3 && r[0] == p.x && r[1] == p.y && r[2] == p.z
  {
    [p.x, p.y, p.z]
  }

  /** `(k * 2 * Math.PI) / segments`, the angle of step `k` round a full turn. */
  function TurnAngle(m: Math, k: nat, segments: nat): Number {
    Div(Mul(Mul(FromInt(k), FromInt(2)), Pi(m)), FromInt(segments))
  }

  // ---------------------------------------------------------------- sphere

  /** Vertex (lat, lon) of `createSphere`: polar angle lat·π/segments, azimuth lon·2π/segments. */
  function SpherePoint(m: Math, c: Vec3, radius: Number, segments: nat, lat: nat, lon: nat): Vec3 {
    var theta := Div(Mul(FromInt(lat), Pi(m)), FromInt(segments));
    var sinTheta := Sin(m, theta);
    var cosTheta := Cos(m, theta);
    var phi := TurnAngle(m, lon, segments);
    var sinPhi := Sin(m, phi);
    var cosPhi := Cos(m, phi);
    Vec3(Add(c.x, Mul(Mul(radius, cosPhi), sinTheta)),
         Add(c.y, Mul(radius, cosTheta)),
         Add(c.z, Mul(Mul(radius, sinPhi), sinTheta)))
  }

  /** `createSphere`'s vertex formula as a function of (lat, lon). */
  function SphereAt(m: Math, c: Vec3, radius: Number, segments: nat): (nat, nat) -> Vec3 {
    (lat: nat, lon: nat) => SpherePoint(m, c, radius, segments, lat, lon)
  }

  /** Points (row, 0) .. (row, n - 1), flattened. */
  function GridRow(point: (nat, nat) -> Vec3, row: nat, n: nat): (r: seq<Number>)
    ensures |r| == 3 * n
  {
    if n == 0 then [] else GridRow(point, row, n - 1) + Coords(point(row, n - 1))
  }

  /** The first `k` rows of `cols` points each, row by row, flattened. */
  function GridRows(point: (nat, nat) -> Vec3, cols: nat, k: nat): seq<Number> {
    if k == 0 then [] else GridRows(point, cols, k - 1) + GridRow(point, k - 1, cols)
  }

  /**
   * The vertex loops of `createSphere`: for each row (latitude) and each column
   * (longitude), push the point's x, y and z.
   */
  method EmitGrid(point: (nat, nat) -> Vec3, rows: nat, cols: nat) returns (vertices: seq<Number>)
    ensures vertices == GridRows(point, cols, rows)
  {
    vertices := [];
    var row := 0;
    while row < rows
      invariant row <= rows
      invariant vertices == GridRows(point, cols, row)
    {
      var col := 0;
      while col < cols
        invariant col <= cols
        invariant vertices == GridRows(point, cols, row) + GridRow(point, row, col)
      {
        var p := point(row, col);
        vertices := vertices + [p.x, p.y, p.z];
        col := col + 1;
      }
      row := row + 1;
    }
  }

  lemma {:induction false} GridRowsLength(point: (nat, nat) -> Vec3, cols: nat, k: nat)
    ensures |GridRows(point, cols, k)| == 3 * cols * k
  {
    if k > 0 {
      GridRowsLength(point, cols, k - 1);
      assert 3 * cols * (k - 1) + 3 * cols == 3 * cols * k;
    }
  }

  /**
   * The two triangles of the quad whose top-left corner is vertex `first`;
   * `second` is the vertex below it, one ring of `segments + 1` further on.
   */
  function SphereQuad(segments: nat, first: nat): (r: seq<nat>)
    ensures |r| == 6
  {
    var second := first + segments + 1;
    [first, second, first + 1, second, second + 1, first + 1]
  }

  /**
   * Index `j` of `createSphere`: corner `j % 6` of quad `j / 6`, which is quad
   * `lon` of band `lat` and has top-left corner `lat * (segments + 1) + lon`.
   */
  function SphereIndexAt(segments: nat, j: nat): nat
    requires segments > 0
  {
    var quad := j / 6;
    SphereQuad(segments, (quad / segments) * (segments + 1) + quad % segments)[j % 6]
  }

  /** The first `n` indices `createSphere` pushes. */
  function SphereIndexPrefix(segments: nat, n: nat): (r: seq<nat>)
    requires segments > 0 || n == 0
    ensures |r| == n
  {
    seq(n, j requires 0 <= j < n => SphereIndexAt(segments, j))
  }

  /** The mesh `createSphere` returns: all rings, then all bands. */
  function SphereVertices(m: Math, c: Vec3, radius: Number, segments: nat): seq<Number> {
    GridRows(SphereAt(m, c, radius, segments), segments + 1, segments + 1)
  }

  /** All `segments * segments` quads, two triangles each. */
  function SphereIndices(segments: nat): seq<nat> {
    if segments == 0 then [] else SphereIndexPrefix(segments, 6 * (segments * segments))
  }

  /** `createSphere(centerX, centerY, centerZ, radius, segments)`. */
  method CreateSphere(m: Math, c: Vec3, radius: Number, segments: nat)
    returns (vertices: seq<Number>, indices: seq<nat>)
    ensures vertices == SphereVertices(m, c, radius, segments)
    ensures indices == SphereIndices(segments)
  {
    vertices := EmitGrid(SphereAt(m, c, radius, segments), segments + 1, segments + 1);

    indices := EmitBands(segments);
  }

  /** `n == q * d + r` with `0 <= r < d` fixes the quotient and the remainder. */
  lemma DivModUnique(n: nat, d: nat, q: nat, r: nat)
    requires 0 <= r < d && n == q * d + r
    ensures n / d == q && n % d == r
  {
    var q' := n / d;
    var r' := n % d;
    assert n == q' * d + r';
    if q' < q {
      MulMonotone(q' + 1, q, d);
    } else if q < q' {
      MulMonotone(q + 1, q', d);
    }
  }

  lemma MulMonotone(a: nat, b: nat, c: nat)
    requires a <= b
    ensures a * c <= b * c
  {
  }

  /** Quad `lon` of band `lat` is the six indices after the first `lat * segments + lon` quads. */
  lemma SphereIndexPrefixStep(segments: nat, lat: nat, lon: nat)
    requires lon < segments
    ensures var q := lat * segments + lon;
      SphereIndexPrefix(segments, 6 * q + 6) == SphereIndexPrefix(segments, 6 * q) + SphereQuad(segments, lat * (segments + 1) + lon)
  {
    var q := lat * segments + lon;
    DivModUnique(q, segments, lat, lon);
    var quad := SphereQuad(segments, lat * (segments + 1) + lon);
    forall c | 0 <= c < 6
      ensures SphereIndexAt(segments, 6 * q + c) == quad[c]
    {
      assert (6 * q + c) / 6 == q && (6 * q + c) % 6 == c;
    }
    assert SphereIndexPrefix(segments, 6 * q + 6) == SphereIndexPrefix(segments, 6 * q) + quad;
  }

  /** The index loops of `createSphere`: two triangles per quad, band by band. */
  method EmitBands(segments: nat) returns (indices: seq<nat>)
    ensures indices == SphereIndices(segments)
  {
    indices := [];
    if segments == 0 {
      return;
    }
    var lat := 0;
    while lat < segments
      invariant lat <= segments
      invariant indices == SphereIndexPrefix(segments, 6 * (lat * segments))
    {
      var lon := 0;
      while lon < segments
        invariant lon <= segments
        invariant indices == SphereIndexPrefix(segments, 6 * (lat * segments + lon))
      {
        var first := lat * (segments + 1) + lon;
        var second := first + segments + 1;
        SphereIndexPrefixStep(segments, lat, lon);
        indices := indices + [first, second, first + 1];
        indices := indices + [second, second + 1, first + 1];
        lon := lon + 1;
      }
      assert lat * segments + segments == (lat + 1) * segments;
      lat := lat + 1;
    }
  }

  /** `createSphere` makes `(segments + 1)²` vertices and two triangles per quad of a `segments × segments` grid. */
  lemma SphereSize(m: Math, c: Vec3, radius: Number, segments: nat)
    ensures |SphereVertices(m, c, radius, segments)| == 3 * (segments + 1) * (segments + 1)
    ensures |SphereIndices(segments)| == 6 * (segments * segments)
  {
    GridRowsLength(SphereAt(m, c, radius, segments), segments + 1, segments + 1);
  }

  /** Index `j` names one of the `(segments + 1)²` vertices: the far corner of the last quad is the last vertex but one. */
  lemma SphereIndexInRange(segments: nat, j: nat)
    requires segments > 0 && j < 6 * (segments * segments)
    ensures SphereIndexAt(segments, j) < (segments + 1) * (segments + 1)
  {
    var s := segments;
    var quad := j / 6;
    var lat := quad / s;
    var lon := quad % s;
    assert quad < s * s;
    assert quad == lat * s + lon;
    assert lat < s;
    assert lat * (s + 1) <= (s - 1) * (s + 1);
    assert (s - 1) * (s + 1) + (s - 1) + s + 2 < (s + 1) * (s + 1);
  }

  /** Every index of `createSphere` names one of its `(segments + 1)²` vertices. */
  lemma SphereIndicesInRange(segments: nat)
    ensures forall i :: 0 <= i < |SphereIndices(segments)| ==> SphereIndices(segments)[i] < (segments + 1) * (segments + 1)
  {
    if segments > 0 {
      forall i | 0 <= i < |SphereIndices(segments)|
        ensures SphereIndices(segments)[i] < (segments + 1) * (segments + 1)
      {
        SphereIndexInRange(segments, i);
      }
    }
  }

  // ---------------------------------------------------------------- cylinder

  /** The two unit directions spanning the tube's cross-section. */
  datatype Axes = Axes(right: Vec3, up: Vec3)

  /** The axis length below which `createCylinder` draws nothing. */
  const MinCylinderLength: Number := Finite(0.001)

  /**
   * The cross-section frame of `createCylinder`: the unit axis `dir`, a helper
   * `perp` (the y axis when `|dir.x| > 0.9`, else the x axis), `up = perp × dir`
   * normalised and `right = dir × up`.
   */
  function CylinderAxes(m: Math, a: Vec3, b: Vec3): Axes {
    var d := Minus(b, a);
    var length := Length(m, d);
    var dir := DivBy(d, length);
    var perp := if Less(Finite(0.9), Abs(dir.x)) then Vec3(Zero, One, Zero) else Vec3(One, Zero, Zero);
    var up := Cross(perp, dir);
    var normalizedUp := DivBy(up, Length(m, up));
    Axes(Cross(dir, normalizedUp), normalizedUp)
  }

  /** Offset of rim vertex `i` from the axis: `radius * (cos * right + sin * up)`. */
  function RimOffset(m: Math, ax: Axes, radius: Number, segments: nat, i: nat): Vec3 {
    var angle := TurnAngle(m, i, segments);
    Scale(radius, Plus(Scale(Cos(m, angle), ax.right), Scale(Sin(m, angle), ax.up)))
  }

  /**
   * `createCylinder`'s rim vertices as a grid of `segments + 1` rows and two
   * columns: (i, 0) lies at the bottom end `a`, (i, 1) at the top end `b`.
   */
  function CylinderAt(m: Math, a: Vec3, b: Vec3, ax: Axes, radius: Number, segments: nat): (nat, nat) -> Vec3 {
    (i: nat, end: nat) => Plus(if end == 0 then a else b, RimOffset(m, ax, radius, segments, i))
  }

  /**
   * The vertex loop of `createCylinder`: for i < n, push the bottom vertex
   * (i, 0) and then the top vertex (i, 1).
   */
  method EmitPairs(point: (nat, nat) -> Vec3, n: nat) returns (vertices: seq<Number>)
    ensures vertices == GridRows(point, 2, n)
  {
    vertices := [];
    var i := 0;
    while i < n
      invariant i <= n
      invariant vertices == GridRows(point, 2, i)
    {
      var bottom := point(i, 0);
      var top := point(i, 1);
      vertices := vertices + [bottom.x, bottom.y, bottom.z];
      vertices := vertices + [top.x, top.y, top.z];
      assert GridRow(point, i, 2) == Coords(bottom) + Coords(top);
      i := i + 1;
    }
  }

  /** The two side triangles between rim pair `i` and the next one. */
  function CylinderQuad(segments: nat, i: nat): (r: seq<nat>)
    ensures |r| == 6
  {
    var curr := i * 2;
    var next := ((i + 1) % (segments + 1)) * 2;
    [curr, curr + 1, next, curr + 1, next + 1, next]
  }

  /** The first `n` side indices: index `j` is corner `j % 6` of quad `j / 6`. */
  function CylinderSides(segments: nat, n: nat): (r: seq<nat>)
    ensures |r| == n
  {
    seq(n, j requires 0 <= j < n => CylinderQuad(segments, j / 6)[j % 6])
  }

  /** Quad `i` is the six indices after the first `i` quads. */
  lemma CylinderSidesStep(segments: nat, i: nat)
    ensures CylinderSides(segments, 6 * i + 6) == CylinderSides(segments, 6 * i) + CylinderQuad(segments, i)
  {
    forall c | 0 <= c < 6
      ensures CylinderSides(segments, 6 * i + 6)[6 * i + c] == CylinderQuad(segments, i)[c]
    {
      assert (6 * i + c) / 6 == i && (6 * i + c) % 6 == c;
    }
  }

  /** Whether `createCylinder` returns the empty mesh: `length < 0.001` (false for a NaN length). */
  predicate TooShort(m: Math, a: Vec3, b: Vec3) {
    Less(Length(m, Minus(b, a)), MinCylinderLength)
  }

  function CylinderVertices(m: Math, a: Vec3, b: Vec3, radius: Number, segments: nat): seq<Number> {
    if TooShort(m, a, b) then [] else GridRows(CylinderAt(m, a, b, CylinderAxes(m, a, b), radius, segments), 2, segments + 1)
  }

  function CylinderIndices(m: Math, a: Vec3, b: Vec3, segments: nat): seq<nat> {
    if TooShort(m, a, b) then [] else CylinderSides(segments, 6 * segments)
  }

  /** `createCylinder(x1, y1, z1, x2, y2, z2, radius, segments)`. */
  method CreateCylinder(m: Math, a: Vec3, b: Vec3, radius: Number, segments: nat)
    returns (vertices: seq<Number>, indices: seq<nat>)
    ensures vertices == CylinderVertices(m, a, b, radius, segments)
    ensures indices == CylinderIndices(m, a, b, segments)
    ensures TooShort(m, a, b) ==> vertices == [] && indices == []
    ensures !TooShort(m, a, b) ==> |vertices| == 6 * (segments + 1) && |indices| == 6 * segments
  {
    if TooShort(m, a, b) {
      return [], [];
    }
    var ax := CylinderAxes(m, a, b);
    vertices := EmitPairs(CylinderAt(m, a, b, ax, radius, segments), segments + 1);
    GridRowsLength(CylinderAt(m, a, b, ax, radius, segments), 2, segments + 1);
    indices := EmitSides(segments);
  }

  /** An empty tube below the minimum length, else `segments + 1` rim pairs and two triangles per segment. */
  lemma CylinderSize(m: Math, a: Vec3, b: Vec3, radius: Number, segments: nat)
    ensures TooShort(m, a, b) ==> CylinderVertices(m, a, b, radius, segments) == [] && CylinderIndices(m, a, b, segments) == []
    ensures !TooShort(m, a, b) ==>
      && |CylinderVertices(m, a, b, radius, segments)| == 6 * (segments + 1)
      && |CylinderIndices(m, a, b, segments)| == 6 * segments
  {
    if !TooShort(m, a, b) {
      GridRowsLength(CylinderAt(m, a, b, CylinderAxes(m, a, b), radius, segments), 2, segments + 1);
    }
  }

  /** The index loop of `createCylinder`: two side triangles per segment. */
  method EmitSides(segments: nat) returns (indices: seq<nat>)
    ensures indices == CylinderSides(segments, 6 * segments)
  {
    indices := [];
    var i := 0;
    while i < segments
      invariant i <= segments
      invariant indices == CylinderSides(segments, 6 * i)
    {
      CylinderSidesStep(segments, i);
      var curr := i * 2;
      var next := ((i + 1) % (segments + 1)) * 2;
      indices := indices + [curr, curr + 1, next];
      indices := indices + [curr + 1, next + 1, next];
      i := i + 1;
    }
  }

  /** Quad `i < segments` joins rim pair `i` to rim pair `i + 1`: the `% (segments + 1)` never wraps. */
  lemma CylinderQuadInRange(segments: nat, i: nat)
    requires i < segments
    ensures CylinderQuad(segments, i)[2] == 2 * (i + 1)
    ensures forall c :: 0 <= c < 6 ==> CylinderQuad(segments, i)[c] < 2 * (segments + 1)
  {
    assert (i + 1) % (segments + 1) == i + 1;
  }

  /**
   * Every index of `createCylinder` names one of its `2 (segments + 1)` vertices;
   * the `% (segments + 1)` never wraps, so quad i joins rim pair i to pair i + 1.
   */
  lemma CylinderIndicesInRange(m: Math, a: Vec3, b: Vec3, segments: nat)
    ensures var idx := CylinderIndices(m, a, b, segments);
      forall k :: 0 <= k < |idx| ==> idx[k] < 2 * (segments + 1)
    ensures forall i :: 0 <= i < segments ==> CylinderQuad(segments, i)[2] == 2 * (i + 1)
  {
    forall i | 0 <= i < segments
      ensures CylinderQuad(segments, i)[2] == 2 * (i + 1)
    {
      CylinderQuadInRange(segments, i);
    }
    var idx := CylinderIndices(m, a, b, segments);
    forall k | 0 <= k < |idx|
      ensures idx[k] < 2 * (segments + 1)
    {
      CylinderQuadInRange(segments, k / 6);
    }
  }
}
