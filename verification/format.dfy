/**
 The two display helpers of script.js, formatCap and formatRes. A formatted
 value is kept as the scaled number, the count of fraction digits handed to
 toFixed and the unit suffix; the digit string toFixed renders is not modelled.
 */
module Format {
  import opened Numbers

  datatype Unit = Nanofarad | Microfarad | Ohm | Kiloohm

  /** The size of one display unit in farads or ohms */
  function UnitSize(u: Unit): (size: real) {
    match u
    case Nanofarad => 0.000000001
    case Microfarad => 0.000001
    case Ohm => 1.0
    case Kiloohm => 1000.0
  }

  datatype Formatted = Formatted(scaled: Number, digits: nat, unit: Unit)

  /** The quantity a formatted value denotes, back in farads or ohms */
  function Denoted(f: Formatted): (v: Number) {
    Mul(f.scaled, Num(UnitSize(f.unit)))
  }

  /** The smallest capacitance shown in microfarads: 1e-6 F */
  const MicroThreshold: real := 0.000001

  /** The smallest resistance shown in kilo-ohms */
  const KiloThreshold: real := 1000.0

  /** formatCap: nanofarads with one digit below 1e-6 F, otherwise
      microfarads with two digits. The shown value always denotes the input,
      and its magnitude stays within the unit's range. */
  function FormatCap(v: Number): (f: Formatted)
    ensures Denoted(f) == v
    ensures f.unit == Nanofarad || f.unit == Microfarad
    ensures f.unit == Nanofarad ==>
              f.digits == 1 && (v.Num? && 0.0 < v.val ==> f.scaled.Num? && 0.0 < f.scaled.val < 1000.0)
    ensures f.unit == Microfarad ==>
              f.digits == 2 && (f.scaled.NaN? || LessEq(Num(1.0), f.scaled))
  {
    if Less(v, Num(MicroThreshold)) then Formatted(Mul(v, Num(1000000000.0)), 1, Nanofarad)
    else Formatted(Mul(v, Num(1000000.0)), 2, Microfarad)
  }

  /** formatRes: kilo-ohms with three digits from 1000 ohms on, otherwise
      ohms with two digits. The shown value always denotes the input, and
      its magnitude stays within the unit's range. */
  function FormatRes(v: Number): (f: Formatted)
    ensures Denoted(f) == v
    ensures f.unit == Ohm || f.unit == Kiloohm
    ensures f.unit == Kiloohm ==> f.digits == 3 && LessEq(Num(1.0), f.scaled)
    ensures f.unit == Ohm ==> f.digits == 2 && !LessEq(Num(KiloThreshold), f.scaled)
  {
    if LessEq(Num(KiloThreshold), v) then Formatted(Div(v, Num(1000.0)), 3, Kiloohm)
    else Formatted(v, 2, Ohm)
  }

  /** formatCap picks nanofarads exactly for the values below 1e-6 F: negative
      ones and minus infinity included, NaN and plus infinity excluded */
  lemma FormatCapUnitChoice(v: Number)
    ensures FormatCap(v).unit == Nanofarad <==> v.NegInf? || (v.Num? && v.val < MicroThreshold)
    ensures FormatCap(v).unit == Nanofarad ==> FormatCap(v).scaled == Mul(v, Num(1000000000.0))
    ensures FormatCap(v).unit == Microfarad ==> FormatCap(v).scaled == Mul(v, Num(1000000.0))
  {
  }

  /** formatRes picks kilo-ohms exactly from 1000 ohms on, plus infinity
      included and NaN excluded */
  lemma FormatResUnitChoice(v: Number)
    ensures FormatRes(v).unit == Kiloohm <==> v.PosInf? || (v.Num? && KiloThreshold <= v.val)
    ensures FormatRes(v).unit == Kiloohm ==> FormatRes(v).scaled == Div(v, Num(1000.0))
    ensures FormatRes(v).unit == Ohm ==> FormatRes(v).scaled == v
  {
  }

  /** The capacitance boundary is inclusive on the larger unit: 1e-6 F is
      shown as 1.00 microfarad */
  lemma FormatCapBoundary()
    ensures FormatCap(Num(MicroThreshold)) == Formatted(Num(1.0), 2, Microfarad)
  {
    assert !Less(Num(MicroThreshold), Num(MicroThreshold));
  }

  /** The resistance boundary is inclusive on the larger unit: 1000 ohms is
      shown as 1.000 kilo-ohm */
  lemma FormatResBoundary()
    ensures FormatRes(Num(KiloThreshold)) == Formatted(Num(1.0), 3, Kiloohm)
  {
  }

  /** A value that is not finite is shown unscaled, in the unit of the
      branch it falls in, for toFixed to render as "NaN" or "Infinity" */
  lemma FormatNonFinite(v: Number)
    requires !v.Num?
    ensures FormatCap(v) == if v.NegInf? then Formatted(v, 1, Nanofarad) else Formatted(v, 2, Microfarad)
    ensures FormatRes(v) == if v.PosInf? then Formatted(v, 3, Kiloohm) else Formatted(v, 2, Ohm)
  {
  }
}
