# Sallen-Key Butterworth low-pass calculator, modelled in Dafny

This project models the core of a small browser tool. It designs a second-order,
unity-gain Sallen-Key low-pass filter with a Butterworth response. The tool takes
two numbers: a cutoff frequency fc in hertz and a first capacitor C1 in farads.
It refuses the frequency when that is NaN or not above zero. Otherwise it
computes:

- the second capacitor, C2 = C1 / 2;
- the geometric mean of the capacitors, sqrt(C1 * C2);
- the common value R of the two equal resistors, R = 1 / (2 pi fc sqrt(C1 C2)).

It shows R through `formatRes` (ohms or kilo-ohms) and both capacitors through
`formatCap` (nanofarads or microfarads).

The model has four modules:

- `Numbers`: JavaScript numbers as NaN, an exact finite real or one of the two
  infinities. It also defines JavaScript's `<`, `<=`, `*` and `/` on them, and
  `Math.sqrt`. `Math.PI` and the real square root are carried in a `MathLib`
  record and bound only by laws: pi is positive, and the square root is
  non-negative, squares back, and is positive on positive arguments. The
  worked examples additionally fix pi to the exact double value of `Math.PI`.
- `Designer`: the frequency validation and the closed-form design. The
  circuit's quality factor and natural frequency are given as independent
  definitions, which show that the design is the Butterworth one.
- `Format`: `formatCap` and `formatRes`. A formatted value is the scaled
  number, the fraction digits passed to `toFixed` and the unit. `Denoted`
  maps it back to farads or ohms.
- `Calculator`: the click handler without the DOM. It either refuses the
  frequency or shows the design and the final component list.

## Model

| member | source | states |
|---|---|---|
| Designer.Validate | script.js:30-34 | A frequency is accepted exactly when it is +Infinity or a finite value above zero, so NaN, zero, negatives and -Infinity are refused. The only error is the invalid-frequency one. |
| Designer.Design | script.js:39-48 | Only an accepted frequency reaches the math. For every C1, NaN and infinities included, twice the computed C2 is C1. |
| Designer.ResistorSolvesCutoffEquation | script.js:42-48 | For a finite fc > 0 and a finite non-zero C1: C2 = C1/2, sqrt(C1 C2) is positive and squares to C1 C2, and R is finite, positive and satisfies R * 2 pi fc sqrt(C1 C2) = 1. A negative C1 is included. |
| Designer.Resistor | script.js:45-48 | The closed-form real R = 1/(2 pi fc sqrt(C1 * C1/2)) is positive and equals what the JavaScript number operations compute. |
| Designer.ResistorDecreasesWithFrequency | script.js:45-48 | For a fixed C1 > 0, a strictly higher cutoff frequency gives a strictly smaller resistor. |
| Designer.ResistorDecreasesWithCapacitance | script.js:42-48 | For a fixed frequency, a strictly larger positive C1 gives a strictly smaller resistor. |
| Designer.ResistorIgnoresCapacitorSign | script.js:42-48 | For every accepted frequency, C1 and -C1 give the same geometric mean and the same resistor: the source never checks the sign of C1. |
| Designer.DesignIsButterworth | script.js:39-48 | With R1 = R2 = R and the computed C2, the independently defined quality factor of a unity-gain Sallen-Key stage satisfies Q^2 = 1/2. Its natural angular frequency is 2 pi fc. |
| Designer.ZeroCapacitorGivesNoFiniteResistor | script.js:42-48 | When C1 = 0, C2 and the geometric mean are 0. R is +Infinity for a finite fc and NaN for fc = +Infinity. |
| Designer.NaNCapacitorPropagates | script.js:28-48 | An unparsable C1 makes C2, the geometric mean and R all NaN. Nothing stops the computation. |
| Designer.InfiniteInputGivesZeroResistor | script.js:42-48 | An infinite C1, or fc = +Infinity with a finite non-zero C1, gives R = 0. |
| Format.FormatCap | script.js:12-15 | The shown value always denotes the input. Nanofarads come with 1 digit and, for a positive input, a scaled value in (0, 1000). Microfarads come with 2 digits and a scaled value that is at least 1 or NaN. |
| Format.FormatCapUnitChoice | script.js:12-15 | Nanofarads are chosen exactly for -Infinity and finite values below 1e-6 F; NaN and +Infinity go to microfarads. The scale factor is 1e9 or 1e6 accordingly. |
| Format.FormatCapBoundary | script.js:13-14 | 1e-6 F itself is shown as 1 microfarad with 2 digits. |
| Format.FormatRes | script.js:18-21 | The shown value always denotes the input. Kilo-ohms come with 3 digits and a scaled value of at least 1. Ohms come with 2 digits and a value that is not at least 1000. |
| Format.FormatResUnitChoice | script.js:18-21 | Kilo-ohms are chosen exactly for +Infinity and finite values of at least 1000 ohm; NaN goes to ohms. Kilo-ohms divide by 1000, and ohms are unscaled. |
| Format.FormatResBoundary | script.js:19 | 1000 ohms itself is shown as 1 kilo-ohm with 3 digits. |
| Format.FormatNonFinite | script.js:12-21 | NaN and the infinities are shown unscaled, in the unit of the branch the comparison sends them to. |
| Calculator.Calculate | script.js:24-48 | The handler refuses exactly the frequencies that are NaN or not above zero, with the invalid-frequency error, and then computes nothing. |
| Calculator.ShownValuesDenoteDesign | script.js:92-94 | On every shown result, twice C2 is C1, and each listed value denotes the computed R, C1 and C2. R is listed in kilo-ohms with 3 digits exactly when it is +Infinity or at least 1000 ohm, otherwise in ohms with 2 digits. Each capacitor is listed in nanofarads with 1 digit exactly when it is -Infinity or below 1e-6 F, otherwise in microfarads with 2 digits. |
| Calculator.ValidationIgnoresCapacitor | script.js:27-34 | Whether a result is shown never depends on C1. |
| Calculator.FrequencyExamples | script.js:31-34 | Frequencies 0, -5, NaN and -Infinity are refused. +Infinity is accepted. |
| Calculator.ZeroCapacitorDisplay | script.js:18-92 | For a finite fc > 0 and C1 = 0, the resistor is listed as Infinity kilo-ohms with 3 digits. |
| Calculator.NaNCapacitorDisplay | script.js:92-94 | For an unparsable C1, the resistor is listed as NaN ohms and C2 as NaN microfarads. |
| Calculator.ExampleOneKilohertz | script.js:12-48 | For fc = 1000 Hz and C1 = 100 nF, C2 = 50 nF, and the list shows 100.0 nF and 50.0 nF. R is listed in kilo-ohms with 3 digits, as a value in [2.2505, 2.2515). |
| Calculator.ExampleFiveHundredHertz | script.js:12-48 | For fc = 500 Hz and C1 = 1 uF, C2 = 0.5 uF is listed as 500.0 nF and C1 as 1.00 uF. R is listed in ohms with 2 digits, as a value in [450.155, 450.165). |

## Left out

- The DOM is not modelled: element lookup, event wiring, the error paragraph and the `innerHTML` assignment (script.js:1-7, 24, 32, 100 onward). A refusal is modelled as the `Rejected` outcome.
- The explanation text of steps 1 to 3 (script.js:52-85) is not modelled. That includes the echo of fc and the `toExponential(2)` rendering of the geometric mean. Only the final component list of step 4 is modelled.
- `parseFloat` is not modelled. Its result is the input: any `Number`, NaN and the infinities included.
- `toFixed` is not modelled: its digit string and its rounding. A formatted value keeps the scaled number and the digit count instead. The examples bound the scaled value to the interval that rounds to the shown digits.
- IEEE 754 rounding, overflow, underflow and the sign of zero are not modelled. Finite values are exact reals, and a zero divisor is taken as +0.
- `Math.PI` and `Math.sqrt` are abstract: a positive pi and a real square root obeying `IsSqrt`. The examples fix pi to the exact double 884279719003555 / 2^48. The rounding `Math.sqrt` adds is not modelled.
- app.py is not part of this model. It serves the page, and its `/calculate` route is a placeholder that computes nothing: it parses its form fields, logs a line and re-renders the page, or returns an error string when parsing fails.

## Behaviour of the code worth noting

- C1 is never validated. C1 times C2 is C1^2/2, so the square root is real for a negative C1 too, and C1 and -C1 give the same resistor (`Designer.ResistorIgnoresCapacitorSign`). A finite negative C1 with a finite fc yields a positive, finite R (`Designer.ResistorSolvesCutoffEquation`). C1 = -Infinity gives R = 0, like +Infinity (`Designer.InfiniteInputGivesZeroResistor`).
- fc = +Infinity passes the `isNaN(fc) || fc <= 0` test. It gives R = 0 for a finite non-zero C1, and NaN when C1 = 0.
- For a finite fc, C1 = 0 gives R = +Infinity, which is shown as "Infinity kΩ". With fc = +Infinity it gives NaN, shown as "NaN Ω".
- Kilo-ohms are shown with three fraction digits, so the 1 kHz / 100 nF resistor reads 2.251 kΩ.
- In the 500 Hz / 1 uF example, C2 = 5e-7 F is below the 1e-6 F threshold and is shown as 500.0 nF. The resistor, about 450.16 ohm, is shown with two fraction digits.
