/**
 A JavaScript number, as far as the filter calculator needs one: not-a-number,
 a finite value, or one of the two infinities. Finite values are exact reals,
 so rounding, overflow to infinity and the sign of zero are not modelled; the
 operations below follow IEEE 754 in everything else (NaN propagation,
 comparisons that are false on NaN, infinity times zero, division by zero).
 */
module Numbers {

  datatype Number = NaN | Num(val: real) | PosInf | NegInf {

    /** JavaScript's isNaN on a value that is already a number */
    predicate IsNaN() {
      NaN?
    }

    predicate IsZero() {
      Num? && val == 0.0
    }

    predicate IsInfinite() {
      PosInf? || NegInf?
    }

    /** Strictly below zero; zero itself is treated as +0 */
    predicate IsNegative() {
      NegInf? || (Num? && val < 0.0)
    }
  }

  /** The infinity of the given sign */
  function Infinity(negative: bool): (r: Number)
    ensures r.IsInfinite() && r.IsNegative() == negative
  {
    if negative then NegInf else PosInf
  }

  /** JavaScript's `a < b` */
  predicate Less(a: Number, b: Number) {
    if a.NaN? || b.NaN? then false
    else if a.Num? && b.Num? then a.val < b.val
    else (a.NegInf? && !b.NegInf?) || (!a.PosInf? && b.PosInf?)
  }

  /** JavaScript's `a <= b`: false when either side is NaN */
  predicate LessEq(a: Number, b: Number) {
    !a.NaN? && !b.NaN? && !Less(b, a)
  }

  /** JavaScript's `a * b` */
  function Mul(a: Number, b: Number): (r: Number) {
    if a.NaN? || b.NaN? then NaN
    else if a.Num? && b.Num? then Num(a.val * b.val)
    // at least one side is infinite
    else if a.IsZero() || b.IsZero() then NaN
    else Infinity(a.IsNegative() != b.IsNegative())
  }

  /** JavaScript's `a / b`, with a zero divisor taken as +0 */
  function Div(a: Number, b: Number): (r: Number) {
    if a.NaN? || b.NaN? then NaN
    else if a.Num? && b.Num? then
      if b.val != 0.0 then Num(a.val / b.val)
      else if a.val == 0.0 then NaN
      else Infinity(a.val < 0.0)
    else if a.Num? then Num(0.0)
    else if b.Num? then Infinity(a.IsNegative() != b.IsNegative())
    else NaN
  }

  /** A real square root: the role Math.sqrt plays on non-negative finite values */
  type RealSqrt = real -> real

  /** The laws a square root obeys: on a non-negative argument it is
      non-negative, squares back to the argument, and is positive on a
      positive argument */
  ghost predicate IsSqrt(sqrt: RealSqrt) {
    forall x: real :: 0.0 <= x ==>
      && 0.0 <= sqrt(x)
      && sqrt(x) * sqrt(x) == x
      && (0.0 < x ==> 0.0 < sqrt(x))
  }

  /** The part of JavaScript's Math object the calculator uses: Math.PI and
      the real square root Math.sqrt rounds. Both are left abstract, bound
      only by the laws of MathLaws. */
  datatype MathLib = MathLib(pi: real, sqrt: RealSqrt)

  ghost predicate MathLaws(m: MathLib) {
    0.0 < m.pi && IsSqrt(m.sqrt)
  }

  /** Math.PI: the double nearest to pi, 884279719003555 / 2^48, exactly */
  const DoublePi: real := 884279719003555.0 / 281474976710656.0

  /** JavaScript's Math.sqrt */
  function Sqrt(m: MathLib, a: Number): (r: Number) {
    match a
    case NaN => NaN
    case Num(x) => if x < 0.0 then NaN else Num(m.sqrt(x))
    case PosInf => PosInf
    case NegInf => NaN
  }

  /** Of two non-negative reals, the one with the smaller square is smaller */
  lemma SquaresOrdered(a: real, b: real)
    requires 0.0 <= a && 0.0 <= b
    requires a * a < b * b
    ensures a < b
  {
    if b <= a {
      calc { b * b; <= b * a; <= a * a; }
    }
  }

  /** A square root is strictly increasing on the non-negative reals */
  lemma SqrtIncreasing(sqrt: RealSqrt, x: real, y: real)
    requires IsSqrt(sqrt)
    requires 0.0 <= x < y
    ensures sqrt(x) < sqrt(y)
  {
    SquaresOrdered(sqrt(x), sqrt(y));
  }

  /** A non-negative real whose square lies strictly between two squares lies
      strictly between their roots */
  lemma RootBetween(s: real, lo: real, hi: real)
    requires 0.0 <= s && 0.0 <= lo && 0.0 <= hi
    requires lo * lo < s * s < hi * hi
    ensures lo < s < hi
  {
    SquaresOrdered(lo, s);
    SquaresOrdered(s, hi);
  }

  /** A product of positive reals is positive */
  lemma PositiveProduct(a: real, b: real)
    requires 0.0 < a && 0.0 < b
    ensures 0.0 < a * b
  {
  }

  /** The reciprocal of a positive real is positive and undoes it */
  lemma ReciprocalPositive(d: real)
    requires 0.0 < d
    ensures 0.0 < 1.0 / d && (1.0 / d) * d == 1.0
  {
  }

  /** Scaling by a positive factor keeps a strict order */
  lemma ScalePreservesOrder(k: real, a: real, b: real)
    requires 0.0 < k && a < b
    ensures k * a < k * b
  {
    assert k * b - k * a == k * (b - a);
  }

  /** A square root lies between the bounds whose squares bracket its argument */
  lemma SqrtBetween(sqrt: RealSqrt, x: real, lo: real, hi: real)
    requires IsSqrt(sqrt)
    requires 0.0 <= lo && 0.0 <= hi
    requires lo * lo <= x <= hi * hi
    ensures lo <= sqrt(x) <= hi
  {
    var s := sqrt(x);
    assert 0.0 <= s && s * s == x;
    if s < lo {
      calc { s * s; <= s * lo; < lo * lo; }
      assert false;
    }
    if hi < s {
      calc { hi * hi; <= hi * s; < s * s; }
      assert false;
    }
  }

  /** The square root of zero is zero */
  lemma SqrtZero(sqrt: RealSqrt)
    requires IsSqrt(sqrt)
    ensures sqrt(0.0) == 0.0
  {
    SqrtBetween(sqrt, 0.0, 0.0, 0.0);
  }

  /** Taking the reciprocal reverses the order of positive reals */
  lemma ReciprocalDecreasing(a: real, b: real)
    requires 0.0 < a < b
    ensures 1.0 / b < 1.0 / a
  {
    assert (1.0 / b) * b == 1.0 == (1.0 / a) * a;
  }

  /** 1 / (k * s) falls as s grows, for a positive k */
  lemma ScaledReciprocalDecreasing(k: real, s1: real, s2: real)
    requires 0.0 < k && 0.0 < s1 < s2
    ensures 0.0 < k * s1 < k * s2
    ensures 1.0 / (k * s2) < 1.0 / (k * s1)
  {
    PositiveProduct(k, s1);
    ScalePreservesOrder(k, s1, s2);
    ReciprocalDecreasing(k * s1, k * s2);
  }

  /** Doubling undoes halving on every number, NaN and infinities included */
  lemma DoubleHalf(a: Number)
    ensures Mul(Num(2.0), Div(a, Num(2.0))) == a
  {
  }
}
