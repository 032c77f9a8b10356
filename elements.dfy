/**
 * The element table of `converter.ts` (`atomData`): a sphere radius and a CPK
 * colour per element symbol, with the `DEFAULT` entry for every other symbol.
 */
module Elements {
  import opened JsNumber
  import opened JsString
  import SdfParser

  datatype Rgb = Rgb(r: Number, g: Number, b: Number)

  datatype ElementData = ElementData(radius: Number, color: Rgb)

  function Entry(radius: real, r: real, g: real, b: real): ElementData {
    ElementData(Finite(radius), Rgb(Finite(r), Finite(g), Finite(b)))
  }

  const DefaultKey: string := "DEFAULT"

  const AtomData: map<string, ElementData> := map[
    "H" := Entry(0.2, 1.0, 1.0, 1.0),
    "C" := Entry(0.4, 0.0, 0.0, 0.0),
    "N" := Entry(0.35, 0.0, 0.0, 1.0),
    "O" := Entry(0.35, 1.0, 0.0, 0.0),
    "P" := Entry(0.5, 1.0, 0.65, 0.0),
    "S" := Entry(0.45, 1.0, 1.0, 0.0),
    "F" := Entry(0.3, 0.0, 1.0, 0.0),
    "Cl" := Entry(0.5, 0.0, 1.0, 0.0),
    "Br" := Entry(0.55, 0.65, 0.16, 0.16),
    "I" := Entry(0.6, 0.58, 0.0, 0.58),
    "B" := Entry(0.4, 1.0, 0.71, 0.71),
    "Si" := Entry(0.5, 0.78, 0.78, 0.86),
    DefaultKey := Entry(0.3, 0.8, 0.8, 0.8)
  ]

  /** `atomData[element] || atomData['DEFAULT']`. */
  function Lookup(element: string): ElementData {
    if element in AtomData then AtomData[element] else AtomData[DefaultKey]
  }

  /**
   * Every symbol outside the table gets the `DEFAULT` entry: radius 0.3 and
   * light grey 0.8, 0.8, 0.8. Every radius the lookup yields is finite and
   * lies between 0.2 (hydrogen) and 0.6 (iodine).
   */
  lemma LookupSpec(element: string)
    ensures element !in AtomData ==> Lookup(element) == Entry(0.3, 0.8, 0.8, 0.8)
    ensures var r := Lookup(element).radius; r.Finite? && 0.2 <= r.v <= 0.6
    ensures Lookup(element) in AtomData.Values
  {
    assert DefaultKey in AtomData;
  }

  /**
   * The names a plain JavaScript object inherits from `Object.prototype`;
   * indexing `atomData` with one of them yields a function or an object
   * rather than `undefined`.
   */
  const InheritedKeys: set<string> := {
    "constructor", "hasOwnProperty", "isPrototypeOf", "propertyIsEnumerable",
    "toLocaleString", "toString", "valueOf", "__proto__", "__defineGetter__",
    "__defineSetter__", "__lookupGetter__", "__lookupSetter__"
  }

  /**
   * A symbol read by the molfile reader has at most three characters (columns
   * 31 to 33), so it is never an inherited key and the `?? 0.5`, `?? 0.3` and
   * `?? [0.8, 0.8, 0.8]` fallbacks after the lookup are never taken.
   */
  lemma ParsedSymbolIsOwnKeyOrDefault(line: string)
    ensures |SdfParser.AtomOfLine(line).element| <= 3
    ensures SdfParser.AtomOfLine(line).element !in InheritedKeys
  {
    var e := SdfParser.AtomOfLine(line).element;
    assert |e| <= 3;
    forall k | k in InheritedKeys
      ensures |k| > 3
    {
    }
  }
}
