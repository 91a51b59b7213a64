/**
 The filter designer of the click handler in script.js: the validation of the
 cutoff frequency and the closed-form component values of a unity-gain
 Sallen-Key low-pass stage with a Butterworth response (C2 = C1 / 2 and equal
 resistors R1 = R2 = R).
 */
module Designer {
  import opened Numbers

  /** The one error the calculator reports */
  datatype Error = InvalidFrequency

  datatype Validation = Valid | Invalid(error: Error)

  /** A cutoff frequency is refused when it is NaN or not above zero; the
      first capacitor is never checked. */
  function Validate(fc: Number): (v: Validation)
    ensures v.Valid? <==> fc.PosInf? || (fc.Num? && fc.val > 0.0)
    ensures v.Invalid? ==> v.error == InvalidFrequency
  {
    if fc.IsNaN() || LessEq(fc, Num(0.0)) then Invalid(InvalidFrequency) else Valid
  }

  /** The values the handler computes: the second capacitor, the geometric
      mean of the two capacitors and the common resistor value */
  datatype Components = Components(c2: Number, rootC: Number, r: Number)

  /** Step 1 and step 2 of the calculation, in the handler's evaluation order */
  function Design(fc: Number, c1: Number, m: MathLib): (d: Components)
    requires Validate(fc).Valid?
    ensures Mul(Num(2.0), d.c2) == c1
  {
    var c2 := Div(c1, Num(2.0));
    DoubleHalf(c1);
    var rootC := Sqrt(m, Mul(c1, c2));
    var r := Div(Num(1.0), Mul(Mul(Mul(Num(2.0), Num(m.pi)), fc), rootC));
    Components(c2, rootC, r)
  }

  /** The design on a finite positive frequency and a finite non-zero first
      capacitor, with the JavaScript number operations worked out */
  lemma DesignOnFiniteValues(fc: real, c1: real, m: MathLib)
    requires MathLaws(m)
    requires 0.0 < fc && c1 != 0.0
    ensures var s := m.sqrt(c1 * (c1 / 2.0));
            && 0.0 < s && s * s == c1 * (c1 / 2.0)
            && 0.0 < 2.0 * m.pi * fc * s
            && Design(Num(fc), Num(c1), m)
               == Components(Num(c1 / 2.0), Num(s), Num(1.0 / (2.0 * m.pi * fc * s)))
  {
    PositiveProduct(2.0 * m.pi * fc, m.sqrt(c1 * (c1 / 2.0)));
    assert Div(Num(c1), Num(2.0)) == Num(c1 / 2.0);
    assert Mul(Num(c1), Num(c1 / 2.0)) == Num(c1 * (c1 / 2.0));
    assert Sqrt(m, Num(c1 * (c1 / 2.0))) == Num(m.sqrt(c1 * (c1 / 2.0)));
    assert Mul(Mul(Mul(Num(2.0), Num(m.pi)), Num(fc)), Num(m.sqrt(c1 * (c1 / 2.0))))
        == Num(2.0 * m.pi * fc * m.sqrt(c1 * (c1 / 2.0)));
  }

  /** For a finite positive frequency and a finite non-zero first capacitor
      the resistor is finite and positive and solves the cutoff equation
      R * 2 * pi * fc * sqrt(C1 * C2) = 1. A negative C1 is not refused: its
      product with C2 is positive, so it yields a positive resistor too. */
  lemma ResistorSolvesCutoffEquation(fc: real, c1: real, m: MathLib)
    requires MathLaws(m)
    requires 0.0 < fc && c1 != 0.0
    ensures var d := Design(Num(fc), Num(c1), m);
            && d.c2 == Num(c1 / 2.0)
            && d.rootC.Num? && 0.0 < d.rootC.val
            && d.rootC.val * d.rootC.val == c1 * d.c2.val
            && d.r.Num? && 0.0 < d.r.val
            && d.r.val * 2.0 * m.pi * fc * d.rootC.val == 1.0
  {
    DesignOnFiniteValues(fc, c1, m);
    var s := m.sqrt(c1 * (c1 / 2.0));
    var den := 2.0 * m.pi * fc * s;
    ReciprocalPositive(den);
    calc {
      (1.0 / den) * 2.0 * m.pi * fc * s;
      (1.0 / den) * den;
      1.0;
    }
  }

  /** The resistor of the closed-form design over the reals,
      1 / (2 pi fc sqrt(C1 * C1 / 2)): the value the JavaScript computation
      yields for a finite positive frequency and a finite non-zero C1 */
  function Resistor(fc: real, c1: real, m: MathLib): (r: real)
    requires MathLaws(m)
    requires 0.0 < fc && c1 != 0.0
    ensures 0.0 < r
    ensures Design(Num(fc), Num(c1), m).r == Num(r)
  {
    DesignOnFiniteValues(fc, c1, m);
    1.0 / (2.0 * m.pi * fc * m.sqrt(c1 * (c1 / 2.0)))
  }

  /** Holding C1 fixed, a higher cutoff frequency needs a smaller resistor */
  lemma ResistorDecreasesWithFrequency(f1: real, f2: real, c1: real, m: MathLib)
    requires MathLaws(m)
    requires 0.0 < f1 < f2 && 0.0 < c1
    ensures Resistor(f2, c1, m) < Resistor(f1, c1, m)
  {
    var s := m.sqrt(c1 * (c1 / 2.0));
    assert 0.0 < s;
    PositiveProduct(2.0 * m.pi, f1);
    ScalePreservesOrder(2.0 * m.pi, f1, f2);
    ScalePreservesOrder(s, 2.0 * m.pi * f1, 2.0 * m.pi * f2);
    PositiveProduct(2.0 * m.pi * f1, s);
    ReciprocalDecreasing(2.0 * m.pi * f1 * s, 2.0 * m.pi * f2 * s);
  }

  /** Holding the frequency fixed, a larger first capacitor needs a smaller resistor */
  lemma ResistorDecreasesWithCapacitance(fc: real, x1: real, x2: real, m: MathLib)
    requires MathLaws(m)
    requires 0.0 < fc && 0.0 < x1 < x2
    ensures Resistor(fc, x2, m) < Resistor(fc, x1, m)
  {
    var k, s1, s2 := 2.0 * m.pi * fc, m.sqrt(x1 * (x1 / 2.0)), m.sqrt(x2 * (x2 / 2.0));
    assert Resistor(fc, x1, m) == 1.0 / (k * s1);
    assert Resistor(fc, x2, m) == 1.0 / (k * s2);
    GeometricMeanIncreasing(m.sqrt, x1, x2);
    PositiveProduct(2.0 * m.pi, fc);
    ScaledReciprocalDecreasing(k, s1, s2);
  }

  /** sqrt(C1 * C1 / 2) grows with a positive C1 */
  lemma GeometricMeanIncreasing(sqrt: RealSqrt, x1: real, x2: real)
    requires IsSqrt(sqrt)
    requires 0.0 < x1 < x2
    ensures 0.0 < sqrt(x1 * (x1 / 2.0)) < sqrt(x2 * (x2 / 2.0))
  {
    ScalePreservesOrder(x1 / 2.0, x1, x2);
    ScalePreservesOrder(x2, x1 / 2.0, x2 / 2.0);
    calc {
      x1 * (x1 / 2.0);
    ==
      (x1 / 2.0) * x1;
    <
      (x1 / 2.0) * x2;
    ==
      x2 * (x1 / 2.0);
    <
      x2 * (x2 / 2.0);
    }
    SqrtIncreasing(sqrt, x1 * (x1 / 2.0), x2 * (x2 / 2.0));
  }

  /** Bounds on the geometric mean give bounds on the resistor */
  lemma ResistorBetween(fc: real, c1: real, m: MathLib, lo: real, hi: real)
    requires MathLaws(m)
    requires 0.0 < fc && c1 != 0.0
    requires 0.0 < lo < hi && lo * lo < c1 * (c1 / 2.0) < hi * hi
    ensures 1.0 / (2.0 * m.pi * fc * hi) < Resistor(fc, c1, m) < 1.0 / (2.0 * m.pi * fc * lo)
  {
    var s := m.sqrt(c1 * (c1 / 2.0));
    RootBetween(s, lo, hi);
    var k := 2.0 * m.pi * fc;
    PositiveProduct(2.0 * m.pi, fc);
    ScaledReciprocalDecreasing(k, lo, s);
    ScaledReciprocalDecreasing(k, s, hi);
  }

  /** Only the magnitude of C1 matters: a negative C1 gives the same geometric
      mean and resistor as its absolute value */
  lemma ResistorIgnoresCapacitorSign(fc: Number, c1: real, m: MathLib)
    requires Validate(fc).Valid?
    ensures Design(fc, Num(-c1), m).rootC == Design(fc, Num(c1), m).rootC
    ensures Design(fc, Num(-c1), m).r == Design(fc, Num(c1), m).r
  {
    assert (-c1) * ((-c1) / 2.0) == c1 * (c1 / 2.0);
    assert Mul(Num(-c1), Div(Num(-c1), Num(2.0))) == Mul(Num(c1), Div(Num(c1), Num(2.0)));
  }

  /** The squared quality factor of a unity-gain Sallen-Key low-pass stage,
      R1 R2 C1 C2 / (C2 (R1 + R2))^2 */
  function QualitySquared(r1: real, r2: real, c1: real, c2: real): real
    requires c2 * (r1 + r2) != 0.0
  {
    var m := c2 * (r1 + r2);
    assert m * m != 0.0 by {
      if m < 0.0 {
        assert m * m == (-m) * (-m);
      }
    }
    (r1 * r2 * c1 * c2) / (m * m)
  }

  /** The squared natural angular frequency of the same stage, 1 / (R1 R2 C1 C2) */
  function NaturalFrequencySquared(r1: real, r2: real, c1: real, c2: real): real
    requires r1 * r2 * c1 * c2 != 0.0
  {
    1.0 / (r1 * r2 * c1 * c2)
  }

  /** The designed stage is the one intended: with R1 = R2 = R it has the
      Butterworth quality factor (Q^2 = 1/2) and its natural angular frequency
      is 2 * pi * fc. */
  lemma DesignIsButterworth(fc: real, c1: real, m: MathLib)
    requires MathLaws(m)
    requires 0.0 < fc && c1 != 0.0
    ensures var d := Design(Num(fc), Num(c1), m);
            && d.r.Num? && d.c2.Num? && d.c2.val * (d.r.val + d.r.val) != 0.0
            && d.r.val * d.r.val * c1 * d.c2.val != 0.0
            && QualitySquared(d.r.val, d.r.val, c1, d.c2.val) == 1.0 / 2.0
            && NaturalFrequencySquared(d.r.val, d.r.val, c1, d.c2.val)
               == (2.0 * m.pi * fc) * (2.0 * m.pi * fc)
  {
    ResistorSolvesCutoffEquation(fc, c1, m);
    var d := Design(Num(fc), Num(c1), m);
    var r, c2, s := d.r.val, d.c2.val, d.rootC.val;
    assert c1 == 2.0 * c2;
    assert r * r * c1 * c2 != 0.0 by {
      assert r * r > 0.0;
      assert c1 * c2 == s * s > 0.0;
      assert r * r * c1 * c2 == (r * r) * (c1 * c2);
    }
    calc {
      QualitySquared(r, r, c1, c2);
      (r * r * c1 * c2) / ((c2 * (r + r)) * (c2 * (r + r)));
      { assert (c2 * (r + r)) * (c2 * (r + r)) == 4.0 * (r * r) * (c2 * c2);
        assert r * r * c1 * c2 == 2.0 * (r * r) * (c2 * c2); }
      (2.0 * (r * r) * (c2 * c2)) / (4.0 * (r * r) * (c2 * c2));
      1.0 / 2.0;
    }
    var w := 2.0 * m.pi * fc;
    assert (r * s) * w == 1.0 by {
      assert r * 2.0 * m.pi * fc * s == (r * s) * w;
    }
    calc {
      r * r * c1 * c2;
      (r * s) * (r * s);
    }
    assert ((r * s) * (r * s)) * (w * w) == 1.0 by {
      assert ((r * s) * (r * s)) * (w * w) == ((r * s) * w) * ((r * s) * w);
    }
  }

  /** A zero first capacitor makes the geometric mean zero; the division by
      it gives an infinite resistor, or NaN when fc is also infinite */
  lemma ZeroCapacitorGivesNoFiniteResistor(fc: Number, m: MathLib)
    requires MathLaws(m)
    requires Validate(fc).Valid?
    ensures Design(fc, Num(0.0), m).c2 == Num(0.0)
    ensures Design(fc, Num(0.0), m).rootC == Num(0.0)
    ensures fc.Num? ==> Design(fc, Num(0.0), m).r == PosInf
    ensures fc.PosInf? ==> Design(fc, Num(0.0), m).r == NaN
  {
    SqrtZero(m.sqrt);
    assert Div(Num(0.0), Num(2.0)) == Num(0.0);
    assert Mul(Num(0.0), Num(0.0)) == Num(0.0);
    assert Sqrt(m, Num(0.0)) == Num(0.0);
    var twoPi := Mul(Num(2.0), Num(m.pi));
    assert twoPi == Num(2.0 * m.pi) && 0.0 < 2.0 * m.pi;
    if fc.Num? {
      assert Mul(Mul(twoPi, fc), Num(0.0)) == Num(0.0);
      assert Div(Num(1.0), Num(0.0)) == PosInf;
    } else {
      assert Mul(twoPi, fc) == PosInf;
      assert Mul(PosInf, Num(0.0)) == NaN;
    }
  }

  /** A first capacitor that did not parse makes every computed value NaN */
  lemma NaNCapacitorPropagates(fc: Number, m: MathLib)
    requires Validate(fc).Valid?
    ensures Design(fc, NaN, m) == Components(NaN, NaN, NaN)
  {
  }

  /** An infinite frequency or first capacitor drives a finite non-zero
      resistor to zero */
  lemma InfiniteInputGivesZeroResistor(fc: Number, c1: Number, m: MathLib)
    requires MathLaws(m)
    requires Validate(fc).Valid?
    requires c1.IsInfinite() || (fc.PosInf? && c1.Num? && c1.val != 0.0)
    ensures Design(fc, c1, m).r == Num(0.0)
  {
    var twoPi := Mul(Num(2.0), Num(m.pi));
    assert twoPi == Num(2.0 * m.pi) && 0.0 < 2.0 * m.pi;
    if c1.IsInfinite() {
      assert Div(c1, Num(2.0)) == c1;
      assert Mul(c1, c1) == PosInf;
      assert Sqrt(m, PosInf) == PosInf;
      assert Mul(twoPi, fc).PosInf? || (Mul(twoPi, fc).Num? && 0.0 < Mul(twoPi, fc).val);
      assert Mul(Mul(twoPi, fc), PosInf) == PosInf;
    } else {
      var x := c1.val;
      assert Mul(c1, Div(c1, Num(2.0))) == Num(x * (x / 2.0));
      assert 0.0 < m.sqrt(x * (x / 2.0));
      assert Mul(twoPi, fc) == PosInf;
      assert Mul(PosInf, Num(m.sqrt(x * (x / 2.0)))) == PosInf;
    }
    assert Div(Num(1.0), PosInf) == Num(0.0);
  }
}
