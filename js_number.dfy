/**
 * JavaScript numbers as the model sees them.
 *
 * A double is an exact real, one of the two infinities, or NaN. Rounding to
 * 53 bits and the sign of zero are not modelled. The operations follow the
 * IEEE-754 special cases that JavaScript exposes (NaN propagates, x / 0 is an
 * infinity, Infinity - Infinity is NaN, every comparison with NaN is false).
 */
module JsNumber {

  datatype Number = Finite(v: real) | PosInf | NegInf | NaN

  /** `Number.MAX_VALUE`, the largest finite double, (2^53 - 1) * 2^971. */
  const MaxValue: Number := Finite(179769313486231570814527423731704356798070567525844996598917476803157260780028538760589558632766878171540458953514382464234321326889464182768467546703537516986049910576551282076245490090389328944075868508455133942304583236903222948165808559332123348274797826204144723168738177180919299881250404026184124858368.0)

  const Zero: Number := Finite(0.0)
  const One: Number := Finite(1.0)

  function FromInt(n: int): Number {
    Finite(n as real)
  }

  predicate IsPositive(a: Number) {
    a.PosInf? || (a.Finite? && a.v > 0.0)
  }

  predicate IsNegative(a: Number) {
    a.NegInf? || (a.Finite? && a.v < 0.0)
  }

  function Neg(a: Number): Number {
    match a
    case Finite(x) => Finite(-x)
    case PosInf => NegInf
    case NegInf => PosInf
    case NaN => NaN
  }

  /** The `+` operator. */
  function Add(a: Number, b: Number): Number {
    if a.NaN? || b.NaN? then NaN
    else if a.Finite? && b.Finite? then Finite(a.v + b.v)
    else if (a.PosInf? && b.NegInf?) || (a.NegInf? && b.PosInf?) then NaN
    else if a.PosInf? || b.PosInf? then PosInf
    else NegInf
  }

  /** The `-` operator. */
  function Sub(a: Number, b: Number): Number {
    Add(a, Neg(b))
  }

  /** The `*` operator. */
  function Mul(a: Number, b: Number): Number {
    if a.NaN? || b.NaN? then NaN
    else if a.Finite? && b.Finite? then Finite(a.v * b.v)
    else if a == Zero || b == Zero then NaN
    else if IsPositive(a) == IsPositive(b) then PosInf
    else NegInf
  }

  /** The `/` operator; a zero divisor counts as +0. */
  function Div(a: Number, b: Number): Number {
    if a.NaN? || b.NaN? then NaN
    else if a.Finite? && b.Finite? then
      if b.v != 0.0 then Finite(a.v / b.v)
      else if a.v == 0.0 then NaN
      else if a.v > 0.0 then PosInf
      else NegInf
    else if !a.Finite? && !b.Finite? then NaN
    else if a.Finite? then Zero
    else if IsPositive(a) == !IsNegative(b) then PosInf
    else NegInf
  }

  /** The `<` operator: false whenever either side is NaN. */
  predicate Less(a: Number, b: Number) {
    if a.NaN? || b.NaN? then false
    else if a.Finite? && b.Finite? then a.v < b.v
    else (a.NegInf? && !b.NegInf?) || (!a.PosInf? && b.PosInf?)
  }

  /** `<=` on numbers that are not NaN. */
  predicate AtMost(a: Number, b: Number) {
    !a.NaN? && !b.NaN? && !Less(b, a)
  }

  /** `Math.min` of two arguments. */
  function Min(a: Number, b: Number): Number {
    if a.NaN? || b.NaN? then NaN else if Less(b, a) then b else a
  }

  /** `Math.max` of two arguments. */
  function Max(a: Number, b: Number): Number {
    if a.NaN? || b.NaN? then NaN else if Less(a, b) then b else a
  }

  /** `Math.abs`. */
  function Abs(a: Number): Number {
    if IsNegative(a) then Neg(a) else a
  }

  /**
   * The transcendental functions the source calls on `Math`. They are foreign
   * code, so the model takes them as parameters and assumes nothing about
   * their values.
   */
  datatype Math = Math(pi: real, sin: real -> real, cos: real -> real, sqrt: real -> real)

  function Sin(m: Math, a: Number): Number {
    if a.Finite? then Finite(m.sin(a.v)) else NaN
  }

  function Cos(m: Math, a: Number): Number {
    if a.Finite? then Finite(m.cos(a.v)) else NaN
  }

  /** `Math.sqrt`: NaN below zero, exact at zero and at +Infinity. */
  function Sqrt(m: Math, a: Number): Number {
    match a
    case NaN => NaN
    case NegInf => NaN
    case PosInf => PosInf
    case Finite(x) => if x < 0.0 then NaN else if x == 0.0 then Zero else Finite(m.sqrt(x))
  }

  function Pi(m: Math): Number {
    Finite(m.pi)
  }

  lemma MinIsLower(a: Number, b: Number)
    requires !a.NaN? && !b.NaN?
    ensures AtMost(Min(a, b), a) && AtMost(Min(a, b), b)
    ensures Min(a, b) == a || Min(a, b) == b
  {
  }

  lemma MaxIsUpper(a: Number, b: Number)
    requires !a.NaN? && !b.NaN?
    ensures AtMost(a, Max(a, b)) && AtMost(b, Max(a, b))
    ensures Max(a, b) == a || Max(a, b) == b
  {
  }

  lemma AtMostTransitive(a: Number, b: Number, c: Number)
    requires AtMost(a, b) && AtMost(b, c)
    ensures AtMost(a, c)
  {
  }
}
