/** The numbers of features and of rules, with the arithmetic that the specification and both compilers use.

A float64 is modelled as NaN (missing), an infinity or a real: rounding and the sign of
zero are not represented. The operations follow section 6.1 (infinity arithmetic) and
section 7.2 (invalid operations) of IEEE 754-2008 on those four shapes. */
module Numbers {

  datatype Num = NaN | NegInf | Fin(v: real) | PosInf

  const ZERO := Fin(0.0)

  function FromInt(i: int): Num { Fin(i as real) }

  function Neg(a: Num): Num {
    match a
    case NaN => NaN
    case NegInf => PosInf
    case PosInf => NegInf
    case Fin(v) => Fin(0.0 - v)
  }

  function Add(a: Num, b: Num): Num {
    if a.NaN? || b.NaN? then NaN
    else if a.Fin? && b.Fin? then Fin(a.v + b.v)
    else if a.Fin? then b
    else if b.Fin? || a == b then a
    else NaN
  }

  function Sub(a: Num, b: Num): Num { Add(a, Neg(b)) }

  /** -1, 0 or 1; meaningful for numbers other than NaN. */
  function Sign(a: Num): int {
    match a
    case PosInf => 1
    case NegInf => -1
    case NaN => 0
    case Fin(v) => if v > 0.0 then 1 else if v < 0.0 then -1 else 0
  }

  function Infinity(sign: int): Num { if sign > 0 then PosInf else if sign < 0 then NegInf else NaN }

  function Mul(a: Num, b: Num): Num {
    if a.NaN? || b.NaN? then NaN
    else if a.Fin? && b.Fin? then Fin(a.v * b.v)
    else Infinity(Sign(a) * Sign(b))
  }

  /** Division of the rule language: dividing by zero is missing, not infinite. */
  function Div(a: Num, b: Num): Num {
    if a.NaN? || b.NaN? || b == ZERO then NaN
    else if a.Fin? && b.Fin? then Fin(a.v / b.v)
    else if a.Fin? then ZERO
    else if b.Fin? then Infinity(Sign(a) * Sign(b))
    else NaN
  }

  /** The order of numbers that are present: the two infinities bound the reals. */
  predicate Less(a: Num, b: Num) {
    match (a, b)
    case (NaN, _) => false
    case (_, NaN) => false
    case (Fin(x), Fin(y)) => x < y
    case (NegInf, y) => y != NegInf
    case (PosInf, _) => false
    case (Fin(_), y) => y == PosInf
  }

  /** Go's == on float64: a NaN equals nothing. */
  predicate Same(a: Num, b: Num) { !a.NaN? && a == b }

  /** Exactly one of the three relations holds between two present numbers. */
  lemma LessIsTotal(a: Num, b: Num)
    requires !a.NaN? && !b.NaN?
    ensures Less(a, b) || a == b || Less(b, a)
    ensures !(Less(a, b) && Less(b, a)) && !Less(a, a)
  {}
}
