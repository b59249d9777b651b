/** Timer/Counter 1 of the ATmega as `setClockOC1A` programs it: a square
    wave on the OC1A pin at a requested frequency.

    The counter runs from the 16 MHz system clock without prescaler in
    clear-timer-on-compare mode and toggles OC1A on every match with OCR1A, so
    the pin runs at 16 MHz / (2 (1 + OCR1A)). The compare value is computed
    in the driver's 32-bit unsigned arithmetic and stored in the 16-bit OCR1A.
 */
module Timer1 {
  import opened Spi

  const SYSTEM_CLOCK_HZ: nat := 16000000

  /** The two control bytes after `setClockOC1A`. */
  const TCCR1A_FINAL: bv8 := 0x40
  const TCCR1B_FINAL: bv8 := 0x09

  /** C's `!x` on integers: 1 for 0, 0 otherwise. */
  function LogicalNot(x: bv8): bv8
  {
    if x == 0 then 1 else 0
  }

  /** `uint16_t((16000000 / (2 * clkFrq)) - 1)` with `clkFrq` a `uint32_t`:
      the product and the subtraction wrap modulo 2^32, and the cast keeps
      the low 16 bits. A zero divisor is undefined in C and is excluded. */
  function Ocr(clkFrq: Word): (ocr: nat)
    requires (2 * clkFrq) % 0x1_0000_0000 != 0
    ensures ocr < 0x10000
  {
    var divisor := (2 * clkFrq) % 0x1_0000_0000;
    ((SYSTEM_CLOCK_HZ / divisor - 1) % 0x1_0000_0000) % 0x10000
  }

  /** The frequency in Hz that OC1A toggles at for a compare value. */
  function ProducedHz(ocr: nat): real
  {
    SYSTEM_CLOCK_HZ as real / (2.0 * (1 + ocr) as real)
  }

  /** Bits 1:0 of TCCR1A and bits 4:3 of TCCR1B, as WGM13:10. */
  function WaveformMode(tccr1a: bv8, tccr1b: bv8): nat
  {
    (((tccr1b >> 3) & 3) << 2 | (tccr1a & 3)) as nat
  }

  /** COM1A1:0, bits 7:6 of TCCR1A: 1 toggles OC1A on compare match. */
  function CompareOutputModeA(tccr1a: bv8): nat
  {
    ((tccr1a >> 6) & 3) as nat
  }

  /** CS12:10, bits 2:0 of TCCR1B: 1 is the system clock without prescaler. */
  function ClockSelect(tccr1b: bv8): nat
  {
    (tccr1b & 7) as nat
  }

  /** The final control bytes select CTC mode with TOP = OCR1A (WGM 4),
      toggle OC1A on a match, and count the undivided system clock. */
  lemma FinalConfiguration()
    ensures WaveformMode(TCCR1A_FINAL, TCCR1B_FINAL) == 4
    ensures CompareOutputModeA(TCCR1A_FINAL) == 1
    ensures ClockSelect(TCCR1B_FINAL) == 1
  {
  }

  /** In the supported band the compare value is 16000000 / (2 f) - 1,
      between 0 and 1599, so neither the subtraction nor the 16-bit store
      wraps. */
  lemma {:induction false} OcrInBand(f: Word)
    requires 5000 <= f <= 8000000
    ensures (2 * f) % 0x1_0000_0000 != 0
    ensures Ocr(f) == SYSTEM_CLOCK_HZ / (2 * f) - 1
    ensures 0 <= Ocr(f) <= 1599
  {
    var d := 2 * f;
    var q := SYSTEM_CLOCK_HZ / d;
    QuotientBounds(SYSTEM_CLOCK_HZ, d);
    if q > 1600 {
      MulMonotoneNat(1601, q, d);
      assert false;
    }
    if q < 1 {
      assert false;
    }
    assert Ocr(f) == ((q - 1) % 0x1_0000_0000) % 0x10000;
  }

  /** Rounding never undershoots: for any 1 <= f <= 8000000 the produced
      frequency is at least f, also where the 16-bit store truncates. */
  lemma {:induction false} NeverUndershoots(f: Word)
    requires 1 <= f <= 8000000
    ensures (2 * f) % 0x1_0000_0000 != 0
    ensures ProducedHz(Ocr(f)) >= f as real
  {
    var d := 2 * f;
    var q := SYSTEM_CLOCK_HZ / d;
    QuotientBounds(SYSTEM_CLOCK_HZ, d);
    if q < 1 {
      assert false;
    }
    assert d % 0x1_0000_0000 == d;
    assert (q - 1) % 0x1_0000_0000 == q - 1;
    var ocr := Ocr(f);
    assert ocr == (q - 1) % 0x10000;
    ModNoLarger(q - 1, 0x10000);
    var t := 1 + ocr;
    MulMonotoneNat(t, q, d);
    var product := t * d;
    assert product <= SYSTEM_CLOCK_HZ;
    ProductAsReal(f, t);
    assert product as real <= SYSTEM_CLOCK_HZ as real;
    RealQuotientAtLeast(SYSTEM_CLOCK_HZ as real, 2.0 * t as real, f as real);
  }

  /** A frequency in the band whose half-period divides the system clock
      (every frequency that divides 8 MHz) is produced exactly. */
  lemma {:induction false} ExactForDivisors(f: Word)
    requires 5000 <= f <= 8000000 && SYSTEM_CLOCK_HZ % (2 * f) == 0
    ensures (2 * f) % 0x1_0000_0000 != 0
    ensures ProducedHz(Ocr(f)) == f as real
  {
    OcrInBand(f);
    var t := SYSTEM_CLOCK_HZ / (2 * f);
    assert t * (2 * f) == SYSTEM_CLOCK_HZ;
    assert 1 + Ocr(f) == t;
    ProductAsReal(f, t);
    RealQuotientExact(SYSTEM_CLOCK_HZ as real, 2.0 * t as real, f as real);
  }

  lemma QuotientBounds(p: nat, d: nat)
    requires d > 0
    ensures (p / d) * d <= p < (p / d + 1) * d
  {
  }

  lemma ModNoLarger(x: nat, m: nat)
    requires m > 0
    ensures x % m <= x
  {
  }

  lemma MulMonotoneNat(a: nat, b: nat, c: nat)
    requires a <= b
    ensures a * c <= b * c
  {
  }

  lemma ProductAsReal(f: nat, t: nat)
    ensures (t * (2 * f)) as real == f as real * (2.0 * t as real)
  {
  }

  lemma RealQuotientAtLeast(p: real, k: real, f: real)
    requires k > 0.0 && f * k <= p
    ensures p / k >= f
  {
    assert (p / k) * k == p;
  }

  lemma RealQuotientExact(p: real, k: real, f: real)
    requires k > 0.0 && f * k == p
    ensures p / k == f
  {
  }

  /** The Timer/Counter 1 registers and the direction of the OC1A pin. */
  class Timer {
    var tccr1a: bv8
    var tccr1b: bv8
    var ocr1a: nat
    var oc1aIsOutput: bool

    constructor ()
      ensures tccr1a == 0 && tccr1b == 0 && ocr1a == 0 && !oc1aIsOutput
    {
      tccr1a, tccr1b, ocr1a, oc1aIsOutput := 0, 0, 0, false;
    }

    /** `setClockOC1A`: make OC1A an output, reset both control bytes, set
        toggle-on-match, CTC mode and no prescaler bit by bit, and store the
        compare value. `TCCR1B &= !(1 << 4)` is a logical NOT and ANDs with
        0; after the reset that clears nothing further. */
    method SetClockOC1A(clkFrq: Word)
      requires (2 * clkFrq) % 0x1_0000_0000 != 0
      modifies this
      ensures tccr1a == TCCR1A_FINAL && tccr1b == TCCR1B_FINAL
      ensures ocr1a == Ocr(clkFrq) && oc1aIsOutput
    {
      oc1aIsOutput := true;
      tccr1a := 0;
      tccr1b := 0;
      tccr1a := tccr1a | (1 << 6);
      tccr1b := tccr1b & LogicalNot(1 << 4);
      tccr1b := tccr1b | (1 << 3);
      tccr1b := tccr1b | 1;
      var divisor := (2 * clkFrq) % 0x1_0000_0000;
      ocr1a := ((SYSTEM_CLOCK_HZ / divisor - 1) % 0x1_0000_0000) % 0x10000;
    }
  }
}
