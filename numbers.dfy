/**
 * JavaScript numbers as the calculator observes them: a finite value, NaN,
 * or one of the two infinities. Finite values are exact reals: rounding to the
 * nearest double, overflow to an infinity and the sign of zero are not modelled.
 */
module Numbers {

  datatype Num = Fin(r: real) | NaN | PosInf | NegInf

  /** The sign of a number that is not NaN: -1, 0 or 1 (NaN gets 0). */
  function Sign(n: Num): (s: int)
    ensures -1 <= s <= 1
    ensures n.PosInf? ==> s == 1
    ensures n.NegInf? ==> s == -1
    ensures n.Fin? ==> (s > 0 <==> n.r > 0.0) && (s < 0 <==> n.r < 0.0)
  {
    match n
    case Fin(x) => if x > 0.0 then 1 else if x < 0.0 then -1 else 0
    case PosInf => 1
    case NegInf => -1
    case NaN => 0
  }

  /** The infinity whose sign is `s` (positive when `s > 0`). */
  function Infinity(s: int): Num
  {
    if s > 0 then PosInf else NegInf
  }

  /** JavaScript `+` on two numbers. */
  function Add(a: Num, b: Num): (s: Num)
    ensures s.NaN? <==> a.NaN? || b.NaN? || (a.PosInf? && b.NegInf?) || (a.NegInf? && b.PosInf?)
    ensures a.Fin? && b.Fin? ==> s == Fin(a.r + b.r)
    ensures s.PosInf? <==> (a.PosInf? && !b.NaN? && !b.NegInf?) || (b.PosInf? && !a.NaN? && !a.NegInf?)
    ensures s.NegInf? <==> (a.NegInf? && !b.NaN? && !b.PosInf?) || (b.NegInf? && !a.NaN? && !a.PosInf?)
  {
    match (a, b)
    case (NaN, _) => NaN
    case (_, NaN) => NaN
    case (PosInf, NegInf) => NaN
    case (NegInf, PosInf) => NaN
    case (PosInf, _) => PosInf
    case (_, PosInf) => PosInf
    case (NegInf, _) => NegInf
    case (_, NegInf) => NegInf
    case (Fin(x), Fin(y)) => Fin(x + y)
  }

  /** JavaScript `*` on two numbers: zero times an infinity is NaN. */
  function Mul(a: Num, b: Num): (p: Num)
    ensures p.NaN? <==> a.NaN? || b.NaN? || (a == Fin(0.0) && !b.Fin?) || (b == Fin(0.0) && !a.Fin?)
    ensures a.Fin? && b.Fin? ==> p == Fin(a.r * b.r)
    ensures !p.NaN? && !(a.Fin? && b.Fin?) ==> !p.Fin?
    ensures !p.NaN? && !p.Fin? ==> Sign(p) == if Sign(a) == Sign(b) then 1 else -1
  {
    match (a, b)
    case (NaN, _) => NaN
    case (_, NaN) => NaN
    case (Fin(x), Fin(y)) => Fin(x * y)
    case _ =>
      if a == Fin(0.0) || b == Fin(0.0) then NaN
      else Infinity(if Sign(a) == Sign(b) then 1 else -1)
  }

  /** JavaScript `i <= n` for an integer `i`; every comparison with NaN is false. */
  predicate IntAtMost(i: int, n: Num)
  {
    match n
    case Fin(x) => i as real <= x
    case PosInf => true
    case NegInf => false
    case NaN => false
  }
}
