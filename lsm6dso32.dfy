/** The single-class LSM6DSO32 accelerometer driver: an identity check, a z
    axis read in m/s^2, a validated configuration of range and output data
    rate, and a noise measurement.

    Unlike the two-child driver in `ImuChild`, this one validates its inputs:
    `SetupAccelerometer` encodes the range in g and the rate in Hz into the
    CTRL1_XL byte and touches neither the device nor its own fields unless
    both are supported. The gravity constant the driver multiplies by is
    defined outside this model and is a parameter here.
 */
module Lsm6dso32 {
  import opened Spi
  import opened LittleEndian
  import opened Noise
  import ImuChild

  datatype Option<T> = None | Some(value: T)

  /** WHO_AM_I and the value it must hold. */
  const WHO_AM_I_REG: Byte := 0x0f
  const WHO_AM_I_EXPECT: Byte := 0x6C

  /** CTRL1_XL, which holds the range (bits 3:2) and the output data rate (bits 7:4). */
  const CTRL1_XL: Byte := 0x10

  /** OUTZ_L_A, the low byte of the z axis; the high byte follows. */
  const OUTZ_L_A: Byte := 0x2C

  /** Readings the noise measurement is dimensioned for, and the rejection band in m/s^2. */
  const NUM_READINGS: nat := 50
  const THRESHOLD: real := 0.3

  /* ---------- CTRL1_XL encoding ---------- */

  /** The bits 3:2 code of a range in g; `None` for a range the device does not offer. */
  function RangeBits(range: Byte): (c: Option<nat>)
    ensures c.Some? <==> range in {4, 8, 16, 32}
    ensures c.Some? ==> c.value < 4
  {
    match range
    case 4 => Some(0)
    case 8 => Some(2)
    case 16 => Some(3)
    case 32 => Some(1)
    case _ => None
  }

  /** The range in g that a bits 3:2 code selects. */
  function RangeOfBits(c: nat): nat
  {
    match c
    case 0 => 4
    case 1 => 32
    case 2 => 8
    case 3 => 16
    case _ => 0
  }

  /** Decoding the bits gives the range back, and distinct ranges get distinct bits. */
  lemma RangeBitsRoundTrip(range: Byte, other: Byte)
    ensures RangeBits(range).Some? ==> RangeOfBits(RangeBits(range).value) == range
    ensures RangeBits(range).Some? && RangeBits(range) == RangeBits(other) ==> range == other
  {
  }

  /** The other generation's range code is the same field one bit further
      right: with c << 1 == bits << 2, its accelerometer table maps c back to
      the range these bits encode. */
  lemma RangeEncodingsAgree(range: Byte)
    requires RangeBits(range).Some?
    ensures ImuChild.AccelerometerRange(2 * RangeBits(range).value) == range
  {
  }

  /** `uint16_t s = outputFrequency`: truncation toward zero. */
  function Truncate16(f: real): (s: nat)
    requires -1.0 < f < 65536.0
    ensures s < 0x10000
    ensures f >= 0.0 ==> s as real <= f < s as real + 1.0
    ensures f < 0.0 ==> s == 0
  {
    if f < 0.0 then 0 else f.Floor
  }

  /** The switch value: the truncated rate, with 12.5 Hz mapped to 12. */
  function FrequencySwitch(f: real): (s: nat)
    requires -1.0 < f < 65536.0
    ensures s < 0x10000
    ensures f >= 0.0 ==> s as real <= f < s as real + 1.0
  {
    if f == 12.5 then 12 else Truncate16(f)
  }

  /** The bits 7:4 code of a switch value; `None` for a rate the device does not offer. */
  function FrequencyBits(s: nat): (c: Option<nat>)
    ensures c.Some? <==> s in {0, 12, 26, 52, 104, 208, 416, 833, 1660, 3330, 6660}
    ensures c.Some? ==> c.value <= 10
  {
    match s
    case 0 => Some(0)
    case 12 => Some(1)
    case 26 => Some(2)
    case 52 => Some(3)
    case 104 => Some(4)
    case 208 => Some(5)
    case 416 => Some(6)
    case 833 => Some(7)
    case 1660 => Some(8)
    case 3330 => Some(9)
    case 6660 => Some(10)
    case _ => None
  }

  /** The code chosen for a requested rate selects, in the other generation's
      table, a rate within 1 Hz of the request: the truncation lets through
      fractional requests such as 26.5 Hz, and the 12.5 Hz entry absorbs any
      request from 12 up to 13 Hz. */
  lemma {:induction false} FrequencyBitsNearRequest(f: real)
    requires -1.0 < f < 65536.0 && FrequencyBits(FrequencySwitch(f)).Some?
    ensures var hz := ImuChild.Frequency(FrequencyBits(FrequencySwitch(f)).value);
            hz - 1.0 < f < hz + 1.0
    ensures f >= 0.0 && FrequencySwitch(f) != 12 ==> ImuChild.Frequency(FrequencyBits(FrequencySwitch(f)).value) <= f
  {
    var s := FrequencySwitch(f);
    if f < 0.0 {
      assert s == 0;
    }
  }

  /** The CTRL1_XL byte `(rangeCode << 2) | (freqCode << 4)`. */
  function Ctrl1Xl(rangeCode: nat, freqCode: nat): (r: Byte)
    requires rangeCode < 4 && freqCode < 16
    ensures r % 4 == 0 && (r / 4) % 4 == rangeCode && r / 16 == freqCode
  {
    ((rangeCode as bv8 << 2) | (freqCode as bv8 << 4)) as int
  }

  /** Both inputs supported: the only case in which anything is written or recorded. */
  predicate Supported(outputFrequency: real, range: Byte)
    requires -1.0 < outputFrequency < 65536.0
  {
    RangeBits(range).Some? && FrequencyBits(FrequencySwitch(outputFrequency)).Some?
  }

  /** The z axis acceleration in m/s^2 carried by read burst `t`. */
  function AccelerationAt(bus: Bus, t: nat, device: Byte, range: Byte, gravity: real): real
  {
    ImuChild.SampleAt(bus, t, device, OUTZ_L_A, ImuChild.Resolution(range)) * gravity
  }

  /** The accelerations of read bursts `t0` to `t0 + n - 1`, in order. */
  function Accelerations(bus: Bus, t0: nat, n: nat, device: Byte, range: Byte, gravity: real): (xs: seq<real>)
    ensures |xs| == n
  {
    if n == 0 then [] else Accelerations(bus, t0, n - 1, device, range, gravity) + [AccelerationAt(bus, t0 + n - 1, device, range, gravity)]
  }

  lemma AccelerationsStep(bus: Bus, t0: nat, n: nat, device: Byte, range: Byte, gravity: real)
    ensures Accelerations(bus, t0, n + 1, device, range, gravity)
         == Accelerations(bus, t0, n, device, range, gravity) + [AccelerationAt(bus, t0 + n, device, range, gravity)]
  {
  }

  /** The acceleration is the two bytes' two's-complement value, LSB first,
      as a fraction of the 16-bit full scale, times the range in g, times g. */
  lemma AccelerationIsScaledRaw(bus: Bus, t: nat, device: Byte, range: Byte, gravity: real)
    ensures var lo, hi := bus.respond(t, device, OUTZ_L_A, 0), bus.respond(t, device, OUTZ_L_A, 1);
            AccelerationAt(bus, t, device, range, gravity)
            == Signed([lo, hi]) as real * range as real / 32768.0 * gravity
  {
    var lo, hi := bus.respond(t, device, OUTZ_L_A, 0), bus.respond(t, device, OUTZ_L_A, 1);
    var raw := S16(lo, hi);
    S16IsSigned(lo, hi);
    var m := ImuChild.Measured(raw, ImuChild.Resolution(range));
    ImuChild.MeasuredFraction(raw, range);
    Rescaled(m, raw, Signed([lo, hi]), range as real, gravity);
  }

  /** A measurement equal to the fraction of full scale of `a` scales to the
      same acceleration as that of any `b` equal to `a`. */
  lemma Rescaled(m: real, a: int, b: int, r: real, g: real)
    requires m == a as real * r / 32768.0 && a == b
    ensures m * g == b as real * r / 32768.0 * g
  {
  }

  /** The noise loop's state after the read bursts `t0` onwards that gave
      `xs`: one read of OUTZ per burst, `kept` readings kept, and the mean and
      scatter of those kept. */
  ghost predicate Collecting(bus: Bus, t0: nat, log0: seq<Transfer>, device: Byte, range: Byte, gravity: real,
                             xs: seq<real>, kept: int, mean: real, sum: real)
    reads bus
  {
    && bus.bursts == t0 + |xs|
    && bus.log == log0 + ImuChild.Repeat(Read(device, OUTZ_L_A, 2, false), |xs|)
    && xs == Accelerations(bus, t0, |xs|, device, range, gravity)
    && kept == |Kept(xs, gravity, THRESHOLD)|
    && Moments(mean, sum) == Welford(Kept(xs, gravity, THRESHOLD))
  }

  /** One more read burst, logged, whose acceleration is `x`, extends the
      loop's state by `x`. */
  lemma CollectingStep(bus: Bus, t0: nat, log0: seq<Transfer>, device: Byte, range: Byte, gravity: real,
                       xs: seq<real>, x: real, kept: int, mean: real, sum: real)
    requires bus.bursts == t0 + |xs| + 1
    requires bus.log == log0 + ImuChild.Repeat(Read(device, OUTZ_L_A, 2, false), |xs|) + [Read(device, OUTZ_L_A, 2, false)]
    requires xs == Accelerations(bus, t0, |xs|, device, range, gravity)
    requires x == AccelerationAt(bus, t0 + |xs|, device, range, gravity)
    requires kept == |Kept(xs + [x], gravity, THRESHOLD)| && Moments(mean, sum) == Welford(Kept(xs + [x], gravity, THRESHOLD))
    ensures Collecting(bus, t0, log0, device, range, gravity, xs + [x], kept, mean, sum)
  {
    var tr := Read(device, OUTZ_L_A, 2, false);
    AccelerationsStep(bus, t0, |xs|, device, range, gravity);
    AppendTwice(log0, ImuChild.Repeat(tr, |xs|), [tr]);
  }

  /** None of the first `n` readings from burst `t0` on ended the loop:
      before each of them, fewer than `accepted` readings had been kept. */
  ghost predicate ShortBefore(bus: Bus, t0: nat, n: nat, device: Byte, range: Byte, gravity: real, accepted: nat)
  {
    n == 0
    || (ShortBefore(bus, t0, n - 1, device, range, gravity, accepted)
        && |Kept(Accelerations(bus, t0, n - 1, device, range, gravity), gravity, THRESHOLD)| < accepted)
  }

  lemma {:induction false} ShortBeforeAll(bus: Bus, t0: nat, n: nat, device: Byte, range: Byte, gravity: real, accepted: nat)
    requires ShortBefore(bus, t0, n, device, range, gravity, accepted)
    ensures forall j :: 0 <= j < n ==> |Kept(Accelerations(bus, t0, j, device, range, gravity), gravity, THRESHOLD)| < accepted
  {
    if n > 0 {
      ShortBeforeAll(bus, t0, n - 1, device, range, gravity, accepted);
      forall j | 0 <= j < n
        ensures |Kept(Accelerations(bus, t0, j, device, range, gravity), gravity, THRESHOLD)| < accepted
      {
        if j < n - 1 {
        }
      }
    }
  }

  /** What the loop's state says once the loop has ended. */
  lemma CollectedEnds(bus: Bus, t0: nat, log0: seq<Transfer>, device: Byte, range: Byte, gravity: real,
                      xs: seq<real>, kept: int, mean: real, sum: real, accepted: nat, budget: nat)
    requires Collecting(bus, t0, log0, device, range, gravity, xs, kept, mean, sum)
    requires ShortBefore(bus, t0, |xs|, device, range, gravity, accepted)
    requires kept <= accepted && |xs| <= budget && (kept == accepted || |xs| == budget)
    ensures bus.bursts == t0 + |xs| && bus.log == log0 + ImuChild.Repeat(Read(device, OUTZ_L_A, 2, false), |xs|)
    ensures var k := Kept(Accelerations(bus, t0, |xs|, device, range, gravity), gravity, THRESHOLD);
            |k| <= accepted && (|k| == accepted || |xs| == budget) && Moments(mean, sum) == Welford(k)
    ensures forall j :: 0 <= j < |xs| ==> |Kept(Accelerations(bus, t0, j, device, range, gravity), gravity, THRESHOLD)| < accepted
  {
    ShortBeforeAll(bus, t0, |xs|, device, range, gravity, accepted);
  }

  class Imu {
    const slaveSelect: Byte
    var accelerometerOutputFrequency: real
    var accelerometerMeasurementRange: Byte

    /** Stores the chip-select pin only; the two settings start undefined. */
    constructor (cs: Byte)
      ensures slaveSelect == cs
    {
      slaveSelect := cs;
    }

    /** `isAlive`: true exactly when WHO_AM_I reads 0b01101100. */
    method IsAlive(bus: Bus) returns (successCode: bool)
      modifies bus
      ensures successCode <==> bus.respond(old(bus.bursts), slaveSelect, WHO_AM_I_REG, 0) == WHO_AM_I_EXPECT
      ensures bus.bursts == old(bus.bursts) + 1
      ensures bus.log == old(bus.log) + [Read(slaveSelect, WHO_AM_I_REG, 1, false)]
    {
      successCode := false;
      var whoAmI := new Byte[1];
      bus.ReadSpi(slaveSelect, WHO_AM_I_REG, 1, whoAmI);
      bus.BurstByte(old(bus.bursts), slaveSelect, WHO_AM_I_REG, 1, 0);
      if whoAmI[0] == WHO_AM_I_EXPECT {
        successCode := true;
      }
    }

    /** `readAccelerationZ`: two bytes from OUTZ_L_A (LSB first) as a signed
        16-bit value, scaled by the resolution of the recorded range and by g. */
    method ReadAccelerationZ(bus: Bus, gravity: real) returns (accelerationZ: real)
      modifies bus
      ensures accelerationZ == AccelerationAt(bus, old(bus.bursts), slaveSelect, accelerometerMeasurementRange, gravity)
      ensures bus.bursts == old(bus.bursts) + 1
      ensures bus.log == old(bus.log) + [Read(slaveSelect, OUTZ_L_A, 2, false)]
    {
      var accelResolution := ImuChild.Resolution(accelerometerMeasurementRange);
      var rawAccelZ := new Byte[2];
      ghost var t := bus.bursts;
      bus.ReadSpi(slaveSelect, OUTZ_L_A, 2, rawAccelZ);
      bus.BurstByte(t, slaveSelect, OUTZ_L_A, 2, 0);
      bus.BurstByte(t, slaveSelect, OUTZ_L_A, 2, 1);
      var rawAccelConcat := S16(rawAccelZ[0], rawAccelZ[1]);
      accelerationZ := ImuChild.Measured(rawAccelConcat, accelResolution) * gravity;
    }

    /** `setupAccelerometer`: encode the range and the rate, and only when
        both are supported write the byte to CTRL1_XL and record the inputs.
        The result is the error flag. */
    method SetupAccelerometer(bus: Bus, outputFrequency: real, range: Byte) returns (errFlag: bool)
      requires -1.0 < outputFrequency < 65536.0
      modifies bus`log, this`accelerometerOutputFrequency, this`accelerometerMeasurementRange
      ensures errFlag <==> !Supported(outputFrequency, range)
      ensures errFlag ==>
                bus.log == old(bus.log)
                && accelerometerOutputFrequency == old(accelerometerOutputFrequency)
                && accelerometerMeasurementRange == old(accelerometerMeasurementRange)
      ensures !errFlag ==>
                bus.log == old(bus.log)
                  + [Write(slaveSelect, CTRL1_XL,
                           Ctrl1Xl(RangeBits(range).value, FrequencyBits(FrequencySwitch(outputFrequency)).value))]
                && accelerometerOutputFrequency == outputFrequency
                && accelerometerMeasurementRange == range
    {
      var data: bv8 := 0;
      errFlag := false;
      var rangeCode := RangeBits(range);
      if rangeCode.Some? {
        data := data | (rangeCode.value as bv8 << 2);
      } else {
        errFlag := true;
      }

      var outputFrequencySwitch := Truncate16(outputFrequency);
      if outputFrequency == 12.5 {
        outputFrequencySwitch := 12;
      }
      var frequencyCode := FrequencyBits(outputFrequencySwitch);
      if frequencyCode.Some? {
        data := data | (frequencyCode.value as bv8 << 4);
      } else {
        errFlag := true;
      }

      if !errFlag {
        bus.WriteSpi(slaveSelect, CTRL1_XL, data as int);
        accelerometerOutputFrequency := outputFrequency;
        accelerometerMeasurementRange := range;
      }
    }

    /** One pass of the noise loop: read z, then keep or reject the reading. */
    method NextAccelerationZ(bus: Bus, gravity: real, ghost t0: nat, ghost log0: seq<Transfer>, ghost range: Byte,
                             ghost xs: seq<real>, i: nat, mean: real, sum: real, prevMean: real)
      returns (accZ: real, i': nat, mean': real, sum': real, prevMean': real)
      requires range == accelerometerMeasurementRange
      requires Collecting(bus, t0, log0, slaveSelect, range, gravity, xs, i - 1, mean, sum) && 1 <= i && prevMean == mean
      modifies bus
      ensures Collecting(bus, t0, log0, slaveSelect, range, gravity, xs + [accZ], i', mean', sum') && prevMean' == mean'
    {
      accZ := ReadAccelerationZ(bus, gravity);
      i', mean', sum', prevMean' := ImuChild.Consider(accZ, gravity, THRESHOLD, i, mean, sum, prevMean, xs);
      CollectingStep(bus, t0, log0, slaveSelect, range, gravity, xs, accZ, i', mean', sum');
    }

    /** The Welford loop of `measureAccelerometerNoiseZ`, ending once
        `accepted` readings are kept: a reading more than 0.3 m/s^2 from g is
        rejected and does not advance the index. The source has no other way
        out of the loop; the model also stops after `budget` readings. `mean`
        and `sum` are the mean and the scatter of the kept readings, and no
        reading is taken once `accepted` readings are kept. */
    method CollectAccelerationZ(bus: Bus, gravity: real, accepted: nat, budget: nat)
      returns (mean: real, sum: real, ghost n: nat)
      modifies bus
      ensures n <= budget && bus.bursts == old(bus.bursts) + n
      ensures bus.log == old(bus.log) + ImuChild.Repeat(Read(slaveSelect, OUTZ_L_A, 2, false), n)
      ensures var kept := Kept(Accelerations(bus, old(bus.bursts), n, slaveSelect, accelerometerMeasurementRange, gravity), gravity, THRESHOLD);
              |kept| <= accepted && Moments(mean, sum) == Welford(kept)
      ensures |Kept(Accelerations(bus, old(bus.bursts), n, slaveSelect, accelerometerMeasurementRange, gravity), gravity, THRESHOLD)|
                == accepted || n == budget
      ensures forall j :: 0 <= j < n ==>
                |Kept(Accelerations(bus, old(bus.bursts), j, slaveSelect, accelerometerMeasurementRange, gravity), gravity, THRESHOLD)| < accepted
    {
      ghost var t0, log0 := bus.bursts, bus.log;
      ghost var range := accelerometerMeasurementRange;
      ghost var xs: seq<real> := [];
      var m, sm, prevMean := 0.0, 0.0, 0.0;
      var i: nat := 1;
      var calls: nat := 0;
      while i < accepted + 1 && calls < budget
        invariant 1 <= i <= accepted + 1 && calls == |xs| <= budget
        invariant Collecting(bus, t0, log0, slaveSelect, range, gravity, xs, i - 1, m, sm) && prevMean == m
        invariant ShortBefore(bus, t0, calls, slaveSelect, range, gravity, accepted)
        decreases budget - calls
      {
        var accZ;
        accZ, i, m, sm, prevMean := NextAccelerationZ(bus, gravity, t0, log0, range, xs, i, m, sm, prevMean);
        xs := xs + [accZ];
        calls := calls + 1;
        i := i + 1;  // the `for` increment; the pass already applied `i -= 1` to a rejected reading
      }
      mean, sum, n := m, sm, calls;
      CollectedEnds(bus, t0, log0, slaveSelect, range, gravity, xs, i - 1, mean, sum, accepted, budget);
    }

    /** `measureAccelerometerNoiseZ` as written: the index runs from 1 while
        below 50, so the loop ends once 49 readings are kept, yet the scatter
        is divided by 50. The square root is not part of this model: the
        result is the square of the returned standard deviation. */
    method MeasureAccelerometerNoiseZ(bus: Bus, gravity: real, budget: nat) returns (variance: real, ghost n: nat)
      modifies bus
      ensures n <= budget && bus.bursts == old(bus.bursts) + n
      ensures bus.log == old(bus.log) + ImuChild.Repeat(Read(slaveSelect, OUTZ_L_A, 2, false), n)
      ensures var kept := Kept(Accelerations(bus, old(bus.bursts), n, slaveSelect, accelerometerMeasurementRange, gravity), gravity, THRESHOLD);
              |kept| <= NUM_READINGS - 1 && variance == Scatter(kept) / NUM_READINGS as real
      ensures |Kept(Accelerations(bus, old(bus.bursts), n, slaveSelect, accelerometerMeasurementRange, gravity), gravity, THRESHOLD)|
                == NUM_READINGS - 1 || n == budget
      ensures forall j :: 0 <= j < n ==>
                |Kept(Accelerations(bus, old(bus.bursts), j, slaveSelect, accelerometerMeasurementRange, gravity), gravity, THRESHOLD)| < NUM_READINGS - 1
    {
      var mean, sum;
      mean, sum, n := CollectAccelerationZ(bus, gravity, NUM_READINGS - 1, budget);
      WelfordIsMeanAndScatter(Kept(Accelerations(bus, old(bus.bursts), n, slaveSelect, accelerometerMeasurementRange, gravity), gravity, THRESHOLD));
      variance := sum / NUM_READINGS as real;
    }

    /** `measureAccelerometerNoiseZ` keeping all 50 readings it divides by: a
        run that is not cut short returns the population variance of 50 kept
        readings. */
    method MeasureAccelerometerNoiseZCorrected(bus: Bus, gravity: real, budget: nat) returns (variance: real, ghost n: nat)
      modifies bus
      ensures n <= budget && bus.bursts == old(bus.bursts) + n
      ensures bus.log == old(bus.log) + ImuChild.Repeat(Read(slaveSelect, OUTZ_L_A, 2, false), n)
      ensures var kept := Kept(Accelerations(bus, old(bus.bursts), n, slaveSelect, accelerometerMeasurementRange, gravity), gravity, THRESHOLD);
              |kept| <= NUM_READINGS && variance == Scatter(kept) / NUM_READINGS as real
      ensures var kept := Kept(Accelerations(bus, old(bus.bursts), n, slaveSelect, accelerometerMeasurementRange, gravity), gravity, THRESHOLD);
              |kept| == NUM_READINGS || n == budget
      ensures var kept := Kept(Accelerations(bus, old(bus.bursts), n, slaveSelect, accelerometerMeasurementRange, gravity), gravity, THRESHOLD);
              |kept| == NUM_READINGS ==> variance == ImuChild.PopulationVariance(kept)
      ensures forall j :: 0 <= j < n ==>
                |Kept(Accelerations(bus, old(bus.bursts), j, slaveSelect, accelerometerMeasurementRange, gravity), gravity, THRESHOLD)| < NUM_READINGS
    {
      var mean, sum;
      mean, sum, n := CollectAccelerationZ(bus, gravity, NUM_READINGS, budget);
      WelfordIsMeanAndScatter(Kept(Accelerations(bus, old(bus.bursts), n, slaveSelect, accelerometerMeasurementRange, gravity), gravity, THRESHOLD));
      variance := sum / NUM_READINGS as real;
    }
  }
}
