/**
 The click handler of script.js with its DOM plumbing lifted off: it takes the
 two numbers parseFloat produced from the input fields and either refuses the
 frequency or shows the computed values, of which the final component list
 (step 4 of the explanation) shows R, C1 and C2 through formatRes and formatCap.
 */
module Calculator {
  import opened Numbers
  import opened Designer
  import opened Format

  /** Step 4 of the explanation: R1 = R2, C1 and C2, as displayed */
  datatype ComponentList = ComponentList(resistor: Formatted, c1: Formatted, c2: Formatted)

  /** A refusal carries no computed value: the handler returns before the math */
  datatype Outcome = Rejected(error: Error) | Shown(design: Components, list: ComponentList)

  function Calculate(fc: Number, c1: Number, m: MathLib): (o: Outcome)
    ensures o.Rejected? <==> !(fc.PosInf? || (fc.Num? && 0.0 < fc.val))
    ensures o.Rejected? ==> o.error == InvalidFrequency
  {
    match Validate(fc)
    case Invalid(e) => Rejected(e)
    case Valid =>
      var d := Design(fc, c1, m);
      Shown(d, ComponentList(FormatRes(d.r), FormatCap(c1), FormatCap(d.c2)))
  }

  /** A valid frequency always leads to the computation, and the component
      list shows R, C1 and C2 through the same two formatters */
  lemma ShownComponents(fc: Number, c1: Number, m: MathLib)
    requires Validate(fc).Valid?
    ensures var d := Design(fc, c1, m);
            Calculate(fc, c1, m)
              == Shown(d, ComponentList(FormatRes(d.r), FormatCap(c1), FormatCap(d.c2)))
  {
  }

  /** Every value on the component list denotes the value computed for it,
      the second capacitor is half the first, and each entry's unit and digit
      count are fixed by where its value lies against 1000 ohms or 1e-6 F */
  lemma ShownValuesDenoteDesign(fc: Number, c1: Number, m: MathLib)
    ensures var o := Calculate(fc, c1, m);
            o.Shown? ==>
              && Mul(Num(2.0), o.design.c2) == c1
              && Denoted(o.list.resistor) == o.design.r
              && Denoted(o.list.c1) == c1
              && Denoted(o.list.c2) == o.design.c2
              && (o.list.resistor.unit == Kiloohm <==>
                        o.design.r.PosInf? || (o.design.r.Num? && KiloThreshold <= o.design.r.val))
              && o.list.resistor.digits == (if o.list.resistor.unit == Kiloohm then 3 else 2)
              && (o.list.c1.unit == Nanofarad <==>
                        c1.NegInf? || (c1.Num? && c1.val < MicroThreshold))
              && o.list.c1.digits == (if o.list.c1.unit == Nanofarad then 1 else 2)
              && (o.list.c2.unit == Nanofarad <==>
                        o.design.c2.NegInf? || (o.design.c2.Num? && o.design.c2.val < MicroThreshold))
              && o.list.c2.digits == (if o.list.c2.unit == Nanofarad then 1 else 2)
  {
    var o := Calculate(fc, c1, m);
    if o.Shown? {
      FormatResUnitChoice(o.design.r);
      FormatCapUnitChoice(c1);
      FormatCapUnitChoice(o.design.c2);
    }
  }

  /** Whether the design is shown never depends on the first capacitor */
  lemma ValidationIgnoresCapacitor(fc: Number, c1: Number, c1': Number, m: MathLib)
    ensures Calculate(fc, c1, m).Shown? <==> Calculate(fc, c1', m).Shown?
  {
  }

  /** Zero, negative and unparsable frequencies are refused; an infinite one
      is accepted */
  lemma FrequencyExamples(c1: Number, m: MathLib)
    ensures Calculate(Num(0.0), c1, m) == Rejected(InvalidFrequency)
    ensures Calculate(Num(-5.0), c1, m) == Rejected(InvalidFrequency)
    ensures Calculate(NaN, c1, m) == Rejected(InvalidFrequency)
    ensures Calculate(NegInf, c1, m) == Rejected(InvalidFrequency)
    ensures Calculate(PosInf, c1, m).Shown?
  {
  }

  /** A zero first capacitor makes the resistor infinite, shown as
      "Infinity" kilo-ohms */
  lemma ZeroCapacitorDisplay(fc: real, m: MathLib)
    requires MathLaws(m)
    requires 0.0 < fc
    ensures var o := Calculate(Num(fc), Num(0.0), m);
            o.Shown? && o.list.resistor == Formatted(PosInf, 3, Kiloohm)
  {
    ShownComponents(Num(fc), Num(0.0), m);
    ZeroResistorDisplay(fc, m);
  }

  /** formatRes of the resistor a zero first capacitor yields */
  lemma ZeroResistorDisplay(fc: real, m: MathLib)
    requires MathLaws(m)
    requires 0.0 < fc
    ensures FormatRes(Design(Num(fc), Num(0.0), m).r) == Formatted(PosInf, 3, Kiloohm)
  {
    ZeroCapacitorGivesNoFiniteResistor(Num(fc), m);
    FormatNonFinite(Design(Num(fc), Num(0.0), m).r);
  }

  /** An unparsable first capacitor is shown as NaN ohms for the resistor and
      NaN microfarads for the second capacitor */
  lemma NaNCapacitorDisplay(fc: Number, m: MathLib)
    requires Validate(fc).Valid?
    ensures var o := Calculate(fc, NaN, m);
            && o.Shown?
            && o.list.resistor == Formatted(NaN, 2, Ohm)
            && o.list.c2 == Formatted(NaN, 2, Microfarad)
  {
    NaNCapacitorPropagates(fc, m);
    FormatNonFinite(NaN);
  }

  /** 1 kHz with C1 = 100 nF: C2 is 50.0 nF and R is shown in kilo-ohms
      with three digits, its scaled value lying where that rounding gives
      2.251 */
  lemma ExampleOneKilohertz(m: MathLib)
    requires MathLaws(m) && m.pi == DoublePi
    ensures var o := Calculate(Num(1000.0), Num(0.0000001), m);
            && o.Shown?
            && o.design.c2 == Num(0.00000005)
            && o.list.c1 == Formatted(Num(100.0), 1, Nanofarad)
            && o.list.c2 == Formatted(Num(50.0), 1, Nanofarad)
            && o.list.resistor.unit == Kiloohm && o.list.resistor.digits == 3
            && o.list.resistor.scaled.Num?
            && 2.2505 <= o.list.resistor.scaled.val < 2.2515
  {
    var r := Resistor(1000.0, 0.0000001, m);
    OneKilohertzResistor(m);
    FormatResUnitChoice(Num(r));
    ShownComponents(Num(1000.0), Num(0.0000001), m);
  }

  /** The resistor of the 1 kHz, 100 nF design, bracketed through bounds on
      the geometric mean sqrt(1e-7 * 5e-8) */
  lemma OneKilohertzResistor(m: MathLib)
    requires MathLaws(m) && m.pi == DoublePi
    ensures 2250.5 <= Resistor(1000.0, 0.0000001, m) < 2251.5
  {
    var lo, hi := 0.000000070705, 0.000000070715;
    ResistorBetween(1000.0, 0.0000001, m, lo, hi);
    assert 2250.5 <= 1.0 / (2.0 * DoublePi * 1000.0 * hi);
    assert 1.0 / (2.0 * DoublePi * 1000.0 * lo) < 2251.5;
  }

  /** 500 Hz with C1 = 1 uF: C2 = 0.5 uF lies below 1e-6 F and is shown as
      500.0 nF, and R is shown in ohms with two digits, its value lying where
      that rounding gives 450.16 */
  lemma ExampleFiveHundredHertz(m: MathLib)
    requires MathLaws(m) && m.pi == DoublePi
    ensures var o := Calculate(Num(500.0), Num(0.000001), m);
            && o.Shown?
            && o.design.c2 == Num(0.0000005)
            && o.list.c1 == Formatted(Num(1.0), 2, Microfarad)
            && o.list.c2 == Formatted(Num(500.0), 1, Nanofarad)
            && o.list.resistor.unit == Ohm && o.list.resistor.digits == 2
            && o.list.resistor.scaled.Num?
            && 450.155 <= o.list.resistor.scaled.val < 450.165
  {
    var r := Resistor(500.0, 0.000001, m);
    FiveHundredHertzResistor(m);
    FormatResUnitChoice(Num(r));
    ShownComponents(Num(500.0), Num(0.000001), m);
  }

  /** The resistor of the 500 Hz, 1 uF design, bracketed through bounds on
      the geometric mean sqrt(1e-6 * 5e-7) */
  lemma FiveHundredHertzResistor(m: MathLib)
    requires MathLaws(m) && m.pi == DoublePi
    ensures 450.155 <= Resistor(500.0, 0.000001, m) < 450.165
  {
    var lo, hi := 0.000000707105, 0.000000707108;
    ResistorBetween(500.0, 0.000001, m, lo, hi);
    assert 450.155 <= 1.0 / (2.0 * DoublePi * 500.0 * hi);
    assert 1.0 / (2.0 * DoublePi * 500.0 * lo) < 450.165;
  }
}
