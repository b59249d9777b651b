/** The group of four cascaded TSL1401CCS linear photodiode arrays, driven
    through one serial-input pin, one analog-output pin and one clock pin.

    The only operation with behaviour is starting the array clock: it must be
    generated on the ATmega's OC1A pin (pin 9) and lie in the arrays' 5 kHz to
    8 MHz band; then Timer/Counter 1 is programmed and the frequency recorded.
 */
module Tsl1401ccs {
  import opened Tables
  import Timer1
  import opened Spi

  /** The OC1A pin of the ATmega on the Nano. */
  const OC1A_PIN: Byte := 9

  /** The clock frequency aliases, in Hz. */
  const OC1A_5KHZ: Word := 5000
  const OC1A_10KHZ: Word := 10000
  const OC1A_50KHZ: Word := 50000
  const OC1A_100KHZ: Word := 100000
  const OC1A_250KHZ: Word := 250000
  const OC1A_500KHZ: Word := 500000
  const OC1A_1MHZ: Word := 1000000
  const OC1A_2MHZ: Word := 2000000
  const OC1A_4MHZ: Word := 4000000
  const OC1A_8MHZ: Word := 8000000

  /** The band the arrays accept, inclusive at both ends. */
  const TSL1401CCS_CLK_MIN: Word := OC1A_5KHZ
  const TSL1401CCS_CLK_MAX: Word := OC1A_8MHZ

  const ALIASES: seq<Word> :=
    [OC1A_5KHZ, OC1A_10KHZ, OC1A_50KHZ, OC1A_100KHZ, OC1A_250KHZ,
     OC1A_500KHZ, OC1A_1MHZ, OC1A_2MHZ, OC1A_4MHZ, OC1A_8MHZ]

  /** The aliases as reals, for the ordering predicates of `Tables`. */
  function AliasesHz(): (hz: seq<real>)
    ensures |hz| == |ALIASES|
    ensures forall k :: 0 <= k < |hz| ==> hz[k] == ALIASES[k] as real
  {
    [5000.0, 10000.0, 50000.0, 100000.0, 250000.0, 500000.0, 1000000.0, 2000000.0, 4000000.0, 8000000.0]
  }

  /** The aliases increase strictly from the lower bound to the upper bound,
      and the timer produces each of them exactly. */
  lemma AliasesWithinBand()
    ensures StrictlyIncreasing(AliasesHz())
    ensures ALIASES[0] == TSL1401CCS_CLK_MIN && ALIASES[|ALIASES| - 1] == TSL1401CCS_CLK_MAX
    ensures forall k :: 0 <= k < |ALIASES| ==> TSL1401CCS_CLK_MIN <= ALIASES[k] <= TSL1401CCS_CLK_MAX
    ensures forall k :: 0 <= k < |ALIASES| ==>
              (2 * ALIASES[k]) % 0x1_0000_0000 != 0 && Timer1.ProducedHz(Timer1.Ocr(ALIASES[k])) == ALIASES[k] as real
  {
    StepsUpIsStrict(AliasesHz());
    forall k | 0 <= k < |ALIASES|
      ensures (2 * ALIASES[k]) % 0x1_0000_0000 != 0 && Timer1.ProducedHz(Timer1.Ocr(ALIASES[k])) == ALIASES[k] as real
    {
      Timer1.ExactForDivisors(ALIASES[k]);
    }
  }

  /** The request `startClockOC1A` accepts. */
  predicate Accepted(clockPin: Byte, clockFreq: Word)
  {
    clockPin == OC1A_PIN && TSL1401CCS_CLK_MIN <= clockFreq <= TSL1401CCS_CLK_MAX
  }

  /** An accepted request never divides by zero in the timer setup, and its
      compare value fits the 16-bit register unchanged. */
  lemma AcceptedIsSafe(clockPin: Byte, clockFreq: Word)
    requires Accepted(clockPin, clockFreq)
    ensures (2 * clockFreq) % 0x1_0000_0000 != 0
    ensures Timer1.Ocr(clockFreq) == Timer1.SYSTEM_CLOCK_HZ / (2 * clockFreq) - 1 <= 1599
    ensures Timer1.ProducedHz(Timer1.Ocr(clockFreq)) >= clockFreq as real
  {
    Timer1.OcrInBand(clockFreq);
    Timer1.NeverUndershoots(clockFreq);
  }

  class LpaGroup {
    var analogOut: Byte
    var serialIn: Byte
    var clockPin: Byte
    var clockFrequency: Word

    /** Records the three pins; the clock frequency is left unset. */
    constructor (si: Byte, clk: Byte, ao: Byte)
      ensures serialIn == si && clockPin == clk && analogOut == ao
    {
      serialIn := si;
      clockPin := clk;
      analogOut := ao;
    }

    /** `startClockOC1A`: 1 for a clock pin other than OC1A or a frequency
        outside the band, with nothing changed; otherwise program the timer
        for the frequency, record it, and return 0. */
    method StartClockOC1A(timer: Timer1.Timer, clockFreq: Word) returns (status: Byte)
      modifies this`clockFrequency, timer
      ensures status == 0 <==> Accepted(clockPin, clockFreq)
      ensures status != 0 ==> status == 1
      ensures status != 0 ==> clockFrequency == old(clockFrequency) && unchanged(timer)
      ensures status == 0 ==>
                clockFrequency == clockFreq
                && timer.tccr1a == Timer1.TCCR1A_FINAL && timer.tccr1b == Timer1.TCCR1B_FINAL
                && timer.ocr1a == Timer1.Ocr(clockFreq) && timer.oc1aIsOutput
    {
      if clockPin != OC1A_PIN {
        return 1;
      }
      // The source combines the two tests with a bitwise `|` on their truth values.
      if clockFreq < TSL1401CCS_CLK_MIN || clockFreq > TSL1401CCS_CLK_MAX {
        return 1;
      }
      timer.SetClockOC1A(clockFreq);
      clockFrequency := clockFreq;
      return 0;
    }
  }
}
