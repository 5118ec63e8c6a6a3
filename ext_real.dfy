/** The values a float64 computation can produce, over exact reals: a finite
    number, +inf, -inf or NaN, with the IEEE 754 rules for the special
    values. Rounding and the sign of zero are not modelled. */
module ExtReal {

  datatype Ext = Fin(v: real) | PosInf | NegInf | NaN

  predicate IsPos(a: Ext) { a == PosInf || (a.Fin? && a.v > 0.0) }

  predicate IsZero(a: Ext) { a.Fin? && a.v == 0.0 }

  function Neg(a: Ext): Ext
  {
    match a
    case Fin(x) => Fin(-x)
    case PosInf => NegInf
    case NegInf => PosInf
    case NaN => NaN
  }

  /** a + b; inf + (-inf) is NaN. */
  function Add(a: Ext, b: Ext): Ext
  {
    if a.NaN? || b.NaN? then NaN
    else if a.Fin? && b.Fin? then Fin(a.v + b.v)
    else if a.Fin? then b
    else if b.Fin? then a
    else if a == b then a
    else NaN
  }

  /** a - b, that is a + (-b); inf - inf is NaN. */
  function Sub(a: Ext, b: Ext): Ext
  {
    if a.NaN? || b.NaN? then NaN
    else if a.Fin? && b.Fin? then Fin(a.v - b.v)
    else if a.Fin? then (if b.PosInf? then NegInf else PosInf)
    else if b.Fin? then a
    else if a != b then a
    else NaN
  }

  /** a * b; inf * 0 is NaN, otherwise the sign rule. */
  function Mul(a: Ext, b: Ext): Ext
  {
    if a.NaN? || b.NaN? then NaN
    else if a.Fin? && b.Fin? then Fin(a.v * b.v)
    else if IsZero(a) || IsZero(b) then NaN
    else if IsPos(a) == IsPos(b) then PosInf
    else NegInf
  }

  /** a / b; x / 0 is +-inf for x != 0 and NaN for 0 / 0, inf / inf is NaN,
      a finite number over inf is 0. Zero is taken to be +0. */
  function Div(a: Ext, b: Ext): Ext
  {
    if a.NaN? || b.NaN? then NaN
    else if a.Fin? && b.Fin? then
      if b.v != 0.0 then Fin(a.v / b.v)
      else if a.v > 0.0 then PosInf
      else if a.v < 0.0 then NegInf
      else NaN
    else if !a.Fin? && !b.Fin? then NaN
    else if a.Fin? then Fin(0.0)
    else if IsPos(a) == (b.v >= 0.0) then PosInf
    else NegInf
  }

  /** a <= b as IEEE 754 compares: false whenever NaN is involved. */
  predicate Le(a: Ext, b: Ext)
  {
    !a.NaN? && !b.NaN? &&
    (a == NegInf || b == PosInf || (a.Fin? && b.Fin? && a.v <= b.v))
  }
}
