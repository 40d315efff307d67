/** Java `float` values as the decoder uses them.  A value is NaN, one of the
    two infinities, or a finite real; arithmetic follows IEEE 754 for the
    special values and is exact on finite ones (rounding to 24 bits of
    precision is not modelled).  Overflow to infinity and underflow to zero
    are modelled where a float is produced from text. */
module Floats {

  datatype Float = NaN | PosInf | NegInf | Fin(r: real)

  const Zero: Float := Fin(0.0)
  const One: Float := Fin(1.0)

  /** Integer.MAX_VALUE and Integer.MIN_VALUE. */
  const IntMax: int := 0x7FFF_FFFF
  const IntMin: int := -0x8000_0000

  /** Values at or above this magnitude round to infinity as a float:
      Float.MAX_VALUE plus half of its last unit, 2^128 - 2^103. */
  const OverflowBound: real := 340282356779733661637539395458142568448.0

  /** Values at or below this magnitude round to zero: half of the smallest
      subnormal float, 2^-150. */
  const UnderflowBound: real := 1.0 / 1427247692705959881058285969449495136382746624.0

  /** The sign of a non-NaN value: -1, 0 or 1. */
  function Sign(a: Float): int
  {
    match a
    case PosInf => 1
    case NegInf => -1
    case NaN => 0
    case Fin(x) => if x > 0.0 then 1 else if x < 0.0 then -1 else 0
  }

  function InfOfSign(s: int): Float
  {
    if s > 0 then PosInf else NegInf
  }

  function Neg(a: Float): (r: Float)
    ensures r.NaN? <==> a.NaN?
    ensures Sign(r) == -Sign(a)
  {
    match a
    case NaN => NaN
    case PosInf => NegInf
    case NegInf => PosInf
    case Fin(x) => Fin(-x)
  }

  function Add(a: Float, b: Float): (r: Float)
    ensures r.NaN? <==> a.NaN? || b.NaN? || (a.PosInf? && b.NegInf?) || (a.NegInf? && b.PosInf?)
    ensures a.Fin? && b.Fin? ==> r == Fin(a.r + b.r)
  {
    if a.NaN? || b.NaN? then NaN
    else if (a.PosInf? && b.NegInf?) || (a.NegInf? && b.PosInf?) then NaN
    else if a.PosInf? || b.PosInf? then PosInf
    else if a.NegInf? || b.NegInf? then NegInf
    else Fin(a.r + b.r)
  }

  function Sub(a: Float, b: Float): Float
  {
    Add(a, Neg(b))
  }

  function Mul(a: Float, b: Float): (r: Float)
    ensures a.Fin? && b.Fin? ==> r == Fin(a.r * b.r)
    ensures a.NaN? || b.NaN? ==> r.NaN?
  {
    if a.NaN? || b.NaN? then NaN
    else if a.Fin? && b.Fin? then Fin(a.r * b.r)
    else if Sign(a) * Sign(b) == 0 then NaN
    else InfOfSign(Sign(a) * Sign(b))
  }

  function Div(a: Float, b: Float): (r: Float)
    ensures a.Fin? && b.Fin? && b.r != 0.0 ==> r == Fin(a.r / b.r)
    ensures a.NaN? || b.NaN? ==> r.NaN?
  {
    if a.NaN? || b.NaN? then NaN
    else if !a.Fin? && !b.Fin? then NaN
    else if !a.Fin? then InfOfSign(Sign(a) * (if b.r < 0.0 then -1 else 1))
    else if !b.Fin? then Zero
    else if b.r == 0.0 then (if a.r == 0.0 then NaN else InfOfSign(Sign(a)))
    else Fin(a.r / b.r)
  }

  /** The float comparison `a < b`: false whenever either side is NaN. */
  predicate Lt(a: Float, b: Float)
  {
    match (a, b)
    case (NaN, _) => false
    case (_, NaN) => false
    case (NegInf, NegInf) => false
    case (NegInf, _) => true
    case (_, PosInf) => !a.PosInf?
    case (PosInf, _) => false
    case (_, NegInf) => false
    case (Fin(x), Fin(y)) => x < y
  }

  /** Math.abs(float). */
  function Abs(a: Float): (r: Float)
    ensures r.NaN? <==> a.NaN?
    ensures !a.NaN? ==> Le(Zero, r)
    ensures a.Fin? ==> r.Fin? && (r.r == a.r || r.r == -a.r)
  {
    match a
    case NaN => NaN
    case NegInf => PosInf
    case PosInf => PosInf
    case Fin(x) => if x < 0.0 then Fin(-x) else a
  }

  /** Math.min(float, float): NaN when either side is, otherwise the
      smaller (the sign of a zero is not modelled). */
  function Min(a: Float, b: Float): (r: Float)
    ensures r.NaN? <==> a.NaN? || b.NaN?
    ensures !r.NaN? ==> Le(r, a) && Le(r, b) && (r == a || r == b)
  {
    if a.NaN? || b.NaN? then NaN else if Lt(b, a) then b else a
  }

  /** The float comparison `a <= b`. */
  predicate Le(a: Float, b: Float)
  {
    Lt(a, b) || (a == b && !a.NaN?)
  }

  lemma LeTransitive(a: Float, b: Float, c: Float)
    requires Le(a, b) && Le(b, c)
    ensures Le(a, c)
  {
  }

  lemma LtTotalOnNumbers(a: Float, b: Float)
    requires !a.NaN? && !b.NaN?
    ensures Lt(a, b) || Le(b, a)
  {
  }

  /** 10^n. */
  function Pow10(n: nat): (p: real)
    ensures p >= 1.0
  {
    if n == 0 then 1.0 else 10.0 * Pow10(n - 1)
  }

  /** m * 10^e for an integer exponent of either sign. */
  function Scale10(m: real, e: int): real
  {
    if e >= 0 then m * Pow10(e) else m / Pow10(-e)
  }

  /** The narrowing of an exact value to a float, as far as modelled: values
      too large become an infinity, values too small become zero, the rest
      keep their exact value. */
  function ToFloat(x: real): (r: Float)
    ensures r.Fin? || r.PosInf? || r.NegInf?
    ensures x >= OverflowBound ==> r == PosInf
    ensures x <= -OverflowBound ==> r == NegInf
    ensures -UnderflowBound <= x <= UnderflowBound ==> r == Zero
    ensures -OverflowBound < x < OverflowBound ==> r.Fin?
  {
    if x >= OverflowBound then PosInf
    else if x <= -OverflowBound then NegInf
    else if -UnderflowBound <= x <= UnderflowBound then Zero
    else Fin(x)
  }

  /** ParserHelper.buildFloat: the float for mantissa `mant` and decimal
      exponent `exp`.  Zero when the exponent is below -125 or the mantissa
      is zero, an infinity of the mantissa's sign from exponent 128 up, the
      mantissa itself at exponent 0, and otherwise the scaled value, with a
      mantissa of 2^26 or more first rounded up by one. */
  function BuildFloat(mant: int, exp: int): (r: Float)
    ensures exp < -125 || mant == 0 ==> r == Zero
    ensures exp >= 128 && mant != 0 ==> r == (if mant > 0 then PosInf else NegInf)
    ensures exp == 0 ==> r == Fin(mant as real)
    ensures !r.NaN?
  {
    if exp < -125 || mant == 0 then Zero
    else if exp >= 128 then (if mant > 0 then PosInf else NegInf)
    else if exp == 0 then Fin(mant as real)
    else
      var m := if mant >= 0x400_0000 then mant + 1 else mant;
      ToFloat(Scale10(m as real, exp))
  }

  /** The (int) cast of a float: NaN gives 0, the value is truncated toward
      zero and saturates at the int range. */
  function JavaToInt(a: Float): (n: int)
    ensures IntMin <= n <= IntMax
    ensures a.Fin? && 0.0 <= a.r < (IntMax as real) ==> n == a.r.Floor
  {
    match a
    case NaN => 0
    case PosInf => IntMax
    case NegInf => IntMin
    case Fin(x) => Clamp(if x >= 0.0 then x.Floor else -((-x).Floor))
  }

  /** Math.round(float): floor(x + 1/2), NaN gives 0, saturating. */
  function JavaRound(a: Float): (n: int)
    ensures IntMin <= n <= IntMax
  {
    match a
    case NaN => 0
    case PosInf => IntMax
    case NegInf => IntMin
    case Fin(x) => Clamp((x + 0.5).Floor)
  }

  /** Math.ceil. */
  function Ceil(a: Float): (r: Float)
    ensures a.Fin? ==> r.Fin? && a.r <= r.r < a.r + 1.0
    ensures !a.Fin? ==> r == a
  {
    match a
    case Fin(x) => Fin((-((-x).Floor)) as real)
    case _ => a
  }

  function Clamp(n: int): (c: int)
    ensures IntMin <= c <= IntMax
    ensures IntMin <= n <= IntMax ==> c == n
  {
    if n < IntMin then IntMin else if n > IntMax then IntMax else n
  }

  /** An int widened to a float. */
  function IntToFloat(n: int): Float
  {
    Fin(n as real)
  }
}
