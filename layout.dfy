/**
 * The numbers `createSimpleGLB` puts into its glTF JSON: the bounding box of
 * the merged positions, the node translation that centres the model, the
 * accessor counts, the index component type and the four buffer views laid
 * end to end in one buffer.
 */
module Layout {
  import opened JsNumber
  import opened Geometry

  /** `allVertices[k] ?? 0`: reading past the end gives `undefined`, replaced by 0. */
  function CoordAt(vs: seq<Number>, k: nat): Number {
    if k < |vs| then vs[k] else Zero
  }

  /** The point read by the bounding-box loop at `i = 3 * j`. */
  function Corner(vs: seq<Number>, j: nat): Vec3 {
    Vec3(CoordAt(vs, 3 * j), CoordAt(vs, 3 * j + 1), CoordAt(vs, 3 * j + 2))
  }

  datatype Box = Box(min: Vec3, max: Vec3)

  /** Before the loop: every minimum at `Number.MAX_VALUE`, every maximum at `-Number.MAX_VALUE`. */
  const StartBox: Box := Box(Vec3(MaxValue, MaxValue, MaxValue), Vec3(Neg(MaxValue), Neg(MaxValue), Neg(MaxValue)))

  /** One iteration: `Math.min` and `Math.max` per axis. */
  function Widen(b: Box, p: Vec3): Box {
    Box(Vec3(Min(b.min.x, p.x), Min(b.min.y, p.y), Min(b.min.z, p.z)),
        Vec3(Max(b.max.x, p.x), Max(b.max.y, p.y), Max(b.max.z, p.z)))
  }

  /** The box after the first `k` iterations. */
  function BoxUpTo(vs: seq<Number>, k: nat): Box {
    if k == 0 then StartBox else Widen(BoxUpTo(vs, k - 1), Corner(vs, k - 1))
  }

  /** `for (i = 0; i < allVertices.length; i += 3)` runs `ceil(|vs| / 3)` times. */
  function BoundsOf(vs: seq<Number>): Box {
    BoxUpTo(vs, (|vs| + 2) / 3)
  }

  /** The bounding-box loop of `createSimpleGLB`. */
  method BoundingBox(vs: seq<Number>) returns (box: Box)
    ensures box == BoundsOf(vs)
  {
    var minX, minY, minZ := MaxValue, MaxValue, MaxValue;
    var maxX, maxY, maxZ := Neg(MaxValue), Neg(MaxValue), Neg(MaxValue);
    var i := 0;
    while i < |vs|
      invariant i % 3 == 0 && i <= |vs| + 2
      invariant Box(Vec3(minX, minY, minZ), Vec3(maxX, maxY, maxZ)) == BoxUpTo(vs, i / 3)
    {
      minX := Min(minX, CoordAt(vs, i));
      maxX := Max(maxX, CoordAt(vs, i));
      minY := Min(minY, CoordAt(vs, i + 1));
      maxY := Max(maxY, CoordAt(vs, i + 1));
      minZ := Min(minZ, CoordAt(vs, i + 2));
      maxZ := Max(maxZ, CoordAt(vs, i + 2));
      i := i + 3;
    }
    box := Box(Vec3(minX, minY, minZ), Vec3(maxX, maxY, maxZ));
  }

  predicate NoNaN(p: Vec3) {
    !p.x.NaN? && !p.y.NaN? && !p.z.NaN?
  }

  /** `a <= b` on every axis. */
  predicate Below(a: Vec3, b: Vec3) {
    AtMost(a.x, b.x) && AtMost(a.y, b.y) && AtMost(a.z, b.z)
  }

  /**
   * Without NaN coordinates, every point read lies inside the box, and the box
   * is no larger than the starting extremes.
   */
  lemma {:induction false} BoxContains(vs: seq<Number>, k: nat)
    requires forall j :: 0 <= j < k ==> NoNaN(Corner(vs, j))
    ensures forall j :: 0 <= j < k ==> Below(BoxUpTo(vs, k).min, Corner(vs, j)) && Below(Corner(vs, j), BoxUpTo(vs, k).max)
    ensures Below(BoxUpTo(vs, k).min, StartBox.min) && Below(StartBox.max, BoxUpTo(vs, k).max)
  {
    if k > 0 {
      BoxContains(vs, k - 1);
      var b := BoxUpTo(vs, k - 1);
      var p := Corner(vs, k - 1);
      var r := BoxUpTo(vs, k);
      MinIsLower(b.min.x, p.x); MinIsLower(b.min.y, p.y); MinIsLower(b.min.z, p.z);
      MaxIsUpper(b.max.x, p.x); MaxIsUpper(b.max.y, p.y); MaxIsUpper(b.max.z, p.z);
      forall j | 0 <= j < k
        ensures Below(r.min, Corner(vs, j)) && Below(Corner(vs, j), r.max)
      {
        if j < k - 1 {
          var q := Corner(vs, j);
          AtMostTransitive(r.min.x, b.min.x, q.x); AtMostTransitive(r.min.y, b.min.y, q.y); AtMostTransitive(r.min.z, b.min.z, q.z);
          AtMostTransitive(q.x, b.max.x, r.max.x); AtMostTransitive(q.y, b.max.y, r.max.y); AtMostTransitive(q.z, b.max.z, r.max.z);
        }
      }
      var s := StartBox;
      AtMostTransitive(r.min.x, b.min.x, s.min.x); AtMostTransitive(r.min.y, b.min.y, s.min.y); AtMostTransitive(r.min.z, b.min.z, s.min.z);
      AtMostTransitive(s.max.x, b.max.x, r.max.x); AtMostTransitive(s.max.y, b.max.y, r.max.y); AtMostTransitive(s.max.z, b.max.z, r.max.z);
    }
  }

  /** Each minimum is a coordinate that was read, or still `Number.MAX_VALUE`. */
  lemma {:induction false} BoxMinAttained(vs: seq<Number>, k: nat)
    ensures var b := BoxUpTo(vs, k);
      && (b.min.x == MaxValue || b.min.x.NaN? || exists j :: 0 <= j < k && b.min.x == Corner(vs, j).x)
      && (b.min.y == MaxValue || b.min.y.NaN? || exists j :: 0 <= j < k && b.min.y == Corner(vs, j).y)
      && (b.min.z == MaxValue || b.min.z.NaN? || exists j :: 0 <= j < k && b.min.z == Corner(vs, j).z)
  {
    if k > 0 {
      BoxMinAttained(vs, k - 1);
    }
  }

  /** Each maximum is a coordinate that was read, or still `-Number.MAX_VALUE`. */
  lemma {:induction false} BoxMaxAttained(vs: seq<Number>, k: nat)
    ensures var b := BoxUpTo(vs, k);
      && (b.max.x == Neg(MaxValue) || b.max.x.NaN? || exists j :: 0 <= j < k && b.max.x == Corner(vs, j).x)
      && (b.max.y == Neg(MaxValue) || b.max.y.NaN? || exists j :: 0 <= j < k && b.max.y == Corner(vs, j).y)
      && (b.max.z == Neg(MaxValue) || b.max.z.NaN? || exists j :: 0 <= j < k && b.max.z == Corner(vs, j).z)
  {
    if k > 0 {
      BoxMaxAttained(vs, k - 1);
    }
  }

  /** A NaN coordinate makes that axis of the box NaN from then on (`Math.min` and `Math.max` propagate NaN). */
  lemma {:induction false} BoxNaN(vs: seq<Number>, k: nat, j: nat)
    requires j < k
    ensures Corner(vs, j).x.NaN? ==> BoxUpTo(vs, k).min.x.NaN? && BoxUpTo(vs, k).max.x.NaN?
    ensures Corner(vs, j).y.NaN? ==> BoxUpTo(vs, k).min.y.NaN? && BoxUpTo(vs, k).max.y.NaN?
    ensures Corner(vs, j).z.NaN? ==> BoxUpTo(vs, k).min.z.NaN? && BoxUpTo(vs, k).max.z.NaN?
  {
    if j < k - 1 {
      BoxNaN(vs, k - 1, j);
    }
  }

  /** `-(min + max) / 2` on one axis. */
  function CenterShift(lo: Number, hi: Number): Number {
    Div(Neg(Add(lo, hi)), FromInt(2))
  }

  /** The node translation. */
  function Translation(b: Box): Vec3 {
    Vec3(CenterShift(b.min.x, b.max.x), CenterShift(b.min.y, b.max.y), CenterShift(b.min.z, b.max.z))
  }

  /**
   * With finite extremes the translation moves the box's midpoint to the
   * origin: the shifted minimum is the negated shifted maximum.
   */
  lemma CenterShiftCentres(lo: Number, hi: Number)
    requires lo.Finite? && hi.Finite?
    ensures CenterShift(lo, hi).Finite?
    ensures Add(lo, CenterShift(lo, hi)) == Neg(Add(hi, CenterShift(lo, hi)))
  {
  }

  /** No positions: the starting extremes cancel and the translation is zero. */
  lemma EmptyBounds()
    ensures BoundsOf([]) == StartBox
    ensures Translation(StartBox) == Vec3(Zero, Zero, Zero)
  {
  }

  // ---------------------------------------------------------------- accessors and buffer views

  /** glTF component types and buffer-view targets used by the file. */
  const Float: nat := 5126
  const UnsignedShort: nat := 5123
  const UnsignedInt: nat := 5125
  const ArrayBuffer: nat := 34962
  const ElementArrayBuffer: nat := 34963

  /** `allIndices.length > 65535`: 32-bit indices, else 16-bit. */
  predicate WideIndices(indexCount: nat) {
    indexCount > 65535
  }

  function IndexWidth(indexCount: nat): (w: nat)
    ensures w == 4 || w == 2
  {
    if WideIndices(indexCount) then 4 else 2
  }

  function IndexComponentType(indexCount: nat): nat {
    if WideIndices(indexCount) then UnsignedInt else UnsignedShort
  }

  /** A buffer view of buffer 0. */
  datatype View = View(byteOffset: nat, byteLength: nat, target: nat)

  /**
   * The layout fields of the JSON: accessor counts (JavaScript divisions, so
   * reals), the index component type, the four buffer views (positions,
   * normals, colours, indices) and the buffer length.
   */
  datatype Description = Description(
    translation: Vec3, min: Vec3, max: Vec3,
    positionCount: real, normalCount: real, colorCount: real, indexCount: nat,
    indexComponentType: nat, views: seq<View>, bufferLength: nat)

  /** The description for `P` position numbers, `C` colour numbers and `I` indices. */
  function DescriptionOf(box: Box, p: nat, c: nat, i: nat): Description {
    var w := IndexWidth(i);
    Description(
      Translation(box), box.min, box.max,
      p as real / 3.0, p as real / 3.0, c as real / 4.0, i,
      IndexComponentType(i),
      [View(0, p * 4, ArrayBuffer),
       View(p * 4, p * 4, ArrayBuffer),
       View(p * 8, c * 4, ArrayBuffer),
       View(p * 8 + c * 4, i * w, ElementArrayBuffer)],
      p * 8 + c * 4 + i * w)
  }

  /**
   * The four views lie end to end from offset 0, in the order positions,
   * normals, colours, indices, and the buffer is exactly as long as they are
   * together. The index view's width and the accessor's component type are
   * both fixed by the index count alone.
   */
  lemma DescriptionLayout(box: Box, p: nat, c: nat, i: nat)
    ensures var d := DescriptionOf(box, p, c, i);
      && |d.views| == 4
      && d.views[0].byteOffset == 0
      && (forall k :: 0 <= k < 3 ==> d.views[k + 1].byteOffset == d.views[k].byteOffset + d.views[k].byteLength)
      && d.bufferLength == d.views[3].byteOffset + d.views[3].byteLength
      && d.views[0].byteLength == 4 * p && d.views[1].byteLength == 4 * p
      && d.views[2].byteLength == 4 * c && d.views[3].byteLength == i * IndexWidth(i)
      && (d.indexComponentType == UnsignedInt <==> i > 65535)
      && (d.indexComponentType == UnsignedShort <==> i <= 65535)
      && (IndexWidth(i) == 4 <==> i > 65535)
  {
  }
}
