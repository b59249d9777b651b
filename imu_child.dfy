/** The LSM6DSO32 inertial unit driver built from two children, an
    accelerometer and a gyroscope, that share one chip-select pin and differ
    only in their register addresses and range tables.

    `Child` holds one child's addresses, device kind and recorded settings;
    `Imu` holds the operations that address the whole chip. Register addresses
    whose values are defined outside this model (the control registers of the
    two children, CTRL3_C, WHO_AM_I and its expected value) are parameters.
 */
module ImuChild {
  import opened Spi
  import opened LittleEndian
  import opened Tables
  import opened Noise

  /** Register addresses the driver uses but whose values live outside this model. */
  datatype ImuRegisters = ImuRegisters(accCtrl: Byte, gyrCtrl: Byte, ctrl3C: Byte, whoAmI: Byte, whoAmIValue: Byte)

  /** Device kinds recorded in `devType`. */
  const ACCELEROMETER: Byte := 0
  const GYROSCOPE: Byte := 1

  /** The output data rate in Hz of each frequency code 0..10, in code order. */
  const FREQ_HZ: seq<real> :=
    [0.0, 12.5, 26.0, 52.0, 104.0, 208.0, 416.0, 833.0, 1660.0, 3330.0, 6660.0]

  /** The number of readings the noise measurement is dimensioned for, and its timeout in ms. */
  const NUM_READINGS: nat := 50
  const NOISE_TIMEOUT_MS: nat := 10000

  /** `restart`'s command byte `1 || 1 << 7`, a logical OR: the value 1. */
  const RESTART_AS_WRITTEN: Byte := LogicalOr(1, 1 * 0x80)

  /** The command the comment describes: bit 7 (reboot memory) and bit 0 (software reset). */
  const RESTART_INTENDED: Byte := BitOr(1, 0x80)

  /* ---------- control byte ---------- */

  /** `uint8_t((range << 1) | (frequency << 4))`. Shifting within eight bits
      drops the same high bits the final `uint8_t` store drops. */
  function ControlByte(frequency: Byte, range: Byte): (r: Byte)
    ensures range < 8 && frequency < 16 ==>
              r % 2 == 0 && (r / 2) % 8 == range && r / 16 == frequency
  {
    ((range as bv8 << 1) | (frequency as bv8 << 4)) as int
  }

  /** The recorded output frequency: the table entry for codes 0..10, 0 otherwise. */
  function Frequency(code: Byte): (hz: real)
    ensures hz >= 0.0
    ensures hz > 0.0 <==> 1 <= code <= 10
  {
    if code < |FREQ_HZ| then FREQ_HZ[code] else 0.0
  }

  /** Higher frequency codes select strictly higher rates. */
  lemma FrequencyIncreasing()
    ensures StrictlyIncreasing(FREQ_HZ)
    ensures forall a: Byte, b: Byte :: a < b < |FREQ_HZ| ==> Frequency(a) < Frequency(b)
  {
    StepsUpIsStrict(FREQ_HZ);
  }

  /** The accelerometer range in g for a range code; 0 for a code outside the table. */
  function AccelerometerRange(code: Byte): (g: nat)
    ensures g != 0 <==> code in {0, 2, 4, 6}
    ensures g in {0, 4, 8, 16, 32}
  {
    match code
    case 0 => 4
    case 2 => 32
    case 4 => 8
    case 6 => 16
    case _ => 0
  }

  /** The gyroscope range in degrees per second for a range code; 0 for a code outside the table. */
  function GyroscopeRange(code: Byte): (dps: nat)
    ensures dps != 0 <==> code in {0, 1, 2, 4, 6}
    ensures dps in {0, 125, 250, 500, 1000, 2000}
  {
    match code
    case 0 => 250
    case 1 => 125
    case 2 => 500
    case 4 => 1000
    case 6 => 2000
    case _ => 0
  }

  /** Distinct valid codes give distinct ranges, so a recorded range names its code. */
  lemma RangeTablesInjective(a: Byte, b: Byte)
    requires a != b
    ensures AccelerometerRange(a) != 0 ==> AccelerometerRange(a) != AccelerometerRange(b)
    ensures GyroscopeRange(a) != 0 ==> GyroscopeRange(a) != GyroscopeRange(b)
  {
  }

  /** The range `init` records: from the child's own table, or unchanged for an unknown kind. */
  function RecordedRange(devType: Byte, code: Byte, previous: nat): nat
  {
    if devType == ACCELEROMETER then AccelerometerRange(code)
    else if devType == GYROSCOPE then GyroscopeRange(code)
    else previous
  }

  /** Milli-units per bit: the full span of the range over the 2^16 raw values. */
  function Resolution(range: nat): (r: real)
    ensures r * 32768.0 == range as real * 1000.0
  {
    (range as real * 2.0 * 1000.0) / 65536.0
  }

  /** `(float(raw) / 1000) * resolution`, in exact arithmetic. */
  function Measured(raw: int, resolution: real): real
  {
    (raw as real / 1000.0) * resolution
  }

  /** A raw value scaled by the resolution of its range is its fraction of
      the 16-bit full scale, in units of the range. */
  lemma MeasuredFraction(raw: int, range: nat)
    ensures Measured(raw, Resolution(range)) == raw as real * range as real / 32768.0
  {
    assert Measured(raw, Resolution(range)) == raw as real * range as real / 32768.0;
  }

  /** Scaled by the resolution of its range, a raw value spans exactly
      [-range, range): the most negative raw value is the bottom of the range. */
  lemma FullScale(raw: int, range: nat)
    requires -0x8000 <= raw < 0x8000
    ensures Measured(raw, Resolution(range)) == raw as real * range as real / 32768.0
    ensures -(range as real) <= Measured(raw, Resolution(range)) <= range as real
    ensures Measured(-0x8000, Resolution(range)) == -(range as real)
  {
    MeasuredFraction(raw, range);
    MeasuredFraction(-0x8000, range);
    FractionWithinRange(raw as real, range as real);
  }

  /** A fraction of the 16-bit full scale lies within the range. */
  lemma FractionWithinRange(x: real, r: real)
    requires -32768.0 <= x < 32768.0 && r >= 0.0
    ensures -r <= x * r / 32768.0 <= r
  {
    if x >= 0.0 {
      RealMulMonotone(r, x, 32768.0);
    } else {
      RealMulMonotone(r, -x, 32768.0);
    }
  }

  lemma RealMulMonotone(p: real, a: real, b: real)
    requires p >= 0.0 && 0.0 <= a <= b
    ensures a * p <= b * p
  {
    var d := b - a;
    assert b * p == a * p + d * p;
  }

  /** The value of the sample carried by read burst `t` from `register`. */
  function SampleAt(bus: Bus, t: nat, device: Byte, register: Byte, resolution: real): real
  {
    Measured(S16(bus.respond(t, device, register, 0), bus.respond(t, device, register, 1)), resolution)
  }

  /** The values of read bursts `t0` to `t0 + n - 1`, in order. */
  function Samples(bus: Bus, t0: nat, n: nat, device: Byte, register: Byte, resolution: real): (xs: seq<real>)
    ensures |xs| == n
  {
    if n == 0 then [] else Samples(bus, t0, n - 1, device, register, resolution) + [SampleAt(bus, t0 + n - 1, device, register, resolution)]
  }

  lemma SamplesStep(bus: Bus, t0: nat, n: nat, device: Byte, register: Byte, resolution: real)
    ensures Samples(bus, t0, n + 1, device, register, resolution)
         == Samples(bus, t0, n, device, register, resolution) + [SampleAt(bus, t0 + n, device, register, resolution)]
  {
  }

  /** The body of a noise loop after the reading `x`: a reading further than
      `threshold` from `target` is rejected and steps the index back, any
      other is fed to Welford's update. Over the readings `xs` so far, the
      index stays one past the number kept, and the pair stays the mean and
      scatter of the kept readings. */
  method Consider(x: real, target: real, threshold: real, i: nat, mean: real, sum: real, prevMean: real,
                  ghost xs: seq<real>)
    returns (i': nat, mean': real, sum': real, prevMean': real)
    requires i == |Kept(xs, target, threshold)| + 1
    requires Moments(mean, sum) == Welford(Kept(xs, target, threshold)) && prevMean == mean
    ensures i' == |Kept(xs + [x], target, threshold)|
    ensures Moments(mean', sum') == Welford(Kept(xs + [x], target, threshold)) && prevMean' == mean'
  {
    ghost var kept := Kept(xs, target, threshold);
    KeptAppend(xs, x, target, threshold);
    i', mean', sum', prevMean' := i, mean, sum, prevMean;
    if Abs(target - x) > threshold {
      assert kept + [] == kept;
      i' := i' - 1;
    } else {
      WelfordAppend(kept, x);
      mean' := NextMean(mean', x, i');
      sum' := NextSum(sum', x, mean', prevMean');
      prevMean' := mean';
    }
  }

  /** The noise loop's state after the read bursts `t0` onwards that gave
      `xs`: one two-byte read of `register` per burst, `kept` readings within
      `threshold` of 1 g, and the mean and scatter of those kept. */
  ghost predicate Collecting(bus: Bus, t0: nat, log0: seq<Transfer>, device: Byte, register: Byte, resolution: real,
                             threshold: real, xs: seq<real>, kept: int, mean: real, sum: real)
    reads bus
  {
    && bus.bursts == t0 + |xs|
    && bus.log == log0 + Repeat(Read(device, register, 2, false), |xs|)
    && xs == Samples(bus, t0, |xs|, device, register, resolution)
    && kept == |Kept(xs, 1.0, threshold)|
    && Moments(mean, sum) == Welford(Kept(xs, 1.0, threshold))
  }

  /** The whole state of `measureNoiseZ`'s loop after the readings `xs`:
      what `Collecting` says, no reading taken after `accepted` were kept or
      after a timeout, and `timedOut` telling whether the last one timed out. */
  ghost predicate NoiseLoop(bus: Bus, clock: seq<Word>, t0: nat, log0: seq<Transfer>, device: Byte, register: Byte,
                            resolution: real, threshold: real, accepted: nat, xs: seq<real>, kept: int, mean: real,
                            sum: real, timedOut: bool)
    reads bus
  {
    && |xs| < |clock|
    && Collecting(bus, t0, log0, device, register, resolution, threshold, xs, kept, mean, sum)
    && ShortBefore(bus, t0, |xs|, device, register, resolution, threshold, accepted)
    && OnTimeBefore(clock, |xs|)
    && timedOut == (|xs| > 0 && TimedOut(clock, |xs|))
  }

  /** One more read burst, logged, whose value is `x`, extends the loop's
      state by `x`. */
  lemma CollectingStep(bus: Bus, t0: nat, log0: seq<Transfer>, device: Byte, register: Byte, resolution: real,
                       threshold: real, xs: seq<real>, x: real, kept: int, mean: real, sum: real)
    requires bus.bursts == t0 + |xs| + 1
    requires bus.log == log0 + Repeat(Read(device, register, 2, false), |xs|) + [Read(device, register, 2, false)]
    requires xs == Samples(bus, t0, |xs|, device, register, resolution)
    requires x == SampleAt(bus, t0 + |xs|, device, register, resolution)
    requires kept == |Kept(xs + [x], 1.0, threshold)| && Moments(mean, sum) == Welford(Kept(xs + [x], 1.0, threshold))
    ensures Collecting(bus, t0, log0, device, register, resolution, threshold, xs + [x], kept, mean, sum)
  {
    var tr := Read(device, register, 2, false);
    SamplesStep(bus, t0, |xs|, device, register, resolution);
    AppendTwice(log0, Repeat(tr, |xs|), [tr]);
  }

  /** What the loop's state says once the loop has ended. */
  lemma CollectedEnds(bus: Bus, t0: nat, log0: seq<Transfer>, device: Byte, register: Byte, resolution: real,
                      threshold: real, xs: seq<real>, kept: int, mean: real, sum: real, accepted: nat)
    requires Collecting(bus, t0, log0, device, register, resolution, threshold, xs, kept, mean, sum)
    requires ShortBefore(bus, t0, |xs|, device, register, resolution, threshold, accepted)
    requires kept <= accepted
    ensures bus.bursts == t0 + |xs| && bus.log == log0 + Repeat(Read(device, register, 2, false), |xs|)
    ensures var k := Kept(Samples(bus, t0, |xs|, device, register, resolution), 1.0, threshold);
            |k| == kept && Moments(mean, sum) == Welford(k)
    ensures forall j :: 0 <= j < |xs| ==> |Kept(Samples(bus, t0, j, device, register, resolution), 1.0, threshold)| < accepted
  {
    ShortBeforeAll(bus, t0, |xs|, device, register, resolution, threshold, accepted);
  }

  /** None of the first `n` readings from burst `t0` on ended the loop:
      before each of them, fewer than `accepted` readings had been kept. */
  ghost predicate ShortBefore(bus: Bus, t0: nat, n: nat, device: Byte, register: Byte, resolution: real,
                              threshold: real, accepted: nat)
  {
    n == 0
    || (ShortBefore(bus, t0, n - 1, device, register, resolution, threshold, accepted)
        && |Kept(Samples(bus, t0, n - 1, device, register, resolution), 1.0, threshold)| < accepted)
  }

  lemma {:induction false} ShortBeforeAll(bus: Bus, t0: nat, n: nat, device: Byte, register: Byte, resolution: real,
                                          threshold: real, accepted: nat)
    requires ShortBefore(bus, t0, n, device, register, resolution, threshold, accepted)
    ensures forall j :: 0 <= j < n ==> |Kept(Samples(bus, t0, j, device, register, resolution), 1.0, threshold)| < accepted
  {
    if n > 0 {
      ShortBeforeAll(bus, t0, n - 1, device, register, resolution, threshold, accepted);
      forall j | 0 <= j < n
        ensures |Kept(Samples(bus, t0, j, device, register, resolution), 1.0, threshold)| < accepted
      {
        if j < n - 1 {
        }
      }
    }
  }

  /** `n` copies of the transfer `tr`. */
  function Repeat(tr: Transfer, n: nat): (s: seq<Transfer>)
    ensures |s| == n
  {
    if n == 0 then [] else Repeat(tr, n - 1) + [tr]
  }

  /** `(millis() - startTime) > 10000` in 32-bit unsigned arithmetic, for the
      clock reading `clock[k]` against the start reading `clock[0]`. */
  predicate TimedOut(clock: seq<Word>, k: nat)
    requires k < |clock|
  {
    Elapsed(clock[0], clock[k]) > NOISE_TIMEOUT_MS
  }

  /** None of the clock readings 1 to `n - 1` timed out. */
  ghost predicate OnTimeBefore(clock: seq<Word>, n: nat)
    requires n <= |clock|
  {
    n <= 1 || (OnTimeBefore(clock, n - 1) && !TimedOut(clock, n - 1))
  }

  /** A loop that did not break saw no timeout at any earlier clock reading. */
  lemma {:induction false} OnTimeBeforeAll(clock: seq<Word>, n: nat)
    requires n <= |clock| && OnTimeBefore(clock, n)
    ensures forall j :: 0 < j < n ==> !TimedOut(clock, j)
  {
    if n > 1 {
      OnTimeBeforeAll(clock, n - 1);
    }
  }

  /** `now - start` in 32-bit unsigned arithmetic: correct across one wrap of the clock. */
  function Elapsed(start: Word, now: Word): Word
  {
    (now - start) % 0x1_0000_0000
  }

  /** The unsigned difference is the true elapsed time as long as the clock
      has wrapped at most once since `start`. */
  lemma ElapsedAcrossWrap(start: Word, now: Word)
    ensures start <= now ==> Elapsed(start, now) == now - start
    ensures now < start ==> Elapsed(start, now) == now - start + 0x1_0000_0000
  {
  }

  /** C's `a || b` on integers: 1 when either is non-zero. */
  function LogicalOr(a: int, b: int): Byte
  {
    if a != 0 || b != 0 then 1 else 0
  }

  /** C's `a | b` on bytes. */
  function BitOr(a: Byte, b: Byte): Byte
  {
    (a as bv8 | b as bv8) as int
  }

  /** The restart command as written sets bit 0 only; the intended one sets bits 7 and 0. */
  lemma RestartCommand()
    ensures RESTART_AS_WRITTEN == 1 && RESTART_AS_WRITTEN < 0x80
    ensures RESTART_INTENDED == 0x81 && RESTART_INTENDED >= 0x80 && RESTART_INTENDED % 2 == 1
    ensures RESTART_AS_WRITTEN != RESTART_INTENDED
  {
    assert (1 as bv8 | 0x80 as bv8) == 0x81;
  }

  /** The global log record; `readX/Y/Z` fill its accelerometer fields. */
  class LogFileLine {
    var accelerometerX: real
    var accelerometerY: real
    var accelerometerZ: real

    constructor ()
      ensures accelerometerX == 0.0 && accelerometerY == 0.0 && accelerometerZ == 0.0
    {
      accelerometerX := 0.0;
      accelerometerY := 0.0;
      accelerometerZ := 0.0;
    }
  }

  /** The operations that address the whole chip. */
  class Imu {
    const slaveSelect: Byte
    const registers: ImuRegisters

    constructor (cs: Byte, registers: ImuRegisters)
      ensures slaveSelect == cs && this.registers == registers
    {
      slaveSelect := cs;
      this.registers := registers;
    }

    /** `isAlive`: true exactly when WHO_AM_I reads the expected value. */
    method IsAlive(bus: Bus) returns (alive: bool)
      modifies bus
      ensures alive <==> bus.respond(old(bus.bursts), slaveSelect, registers.whoAmI, 0) == registers.whoAmIValue
      ensures bus.bursts == old(bus.bursts) + 1
      ensures bus.log == old(bus.log) + [Read(slaveSelect, registers.whoAmI, 1, false)]
    {
      alive := false;
      var whoAmI := new Byte[1];
      bus.ReadSpi(slaveSelect, registers.whoAmI, 1, whoAmI);
      assert whoAmI[0] == bus.Burst(old(bus.bursts), slaveSelect, registers.whoAmI, 1)[0];
      if whoAmI[0] == registers.whoAmIValue {
        alive := true;
      }
    }

    /** `restart` as written: the byte 1 goes to CTRL3_C. */
    method Restart(bus: Bus)
      modifies bus`log
      ensures bus.log == old(bus.log) + [Write(slaveSelect, registers.ctrl3C, RESTART_AS_WRITTEN)]
    {
      var dataToWrite := LogicalOr(1, 1 * 0x80);
      bus.WriteSpi(slaveSelect, registers.ctrl3C, dataToWrite);
    }

    /** `restart` with the bitwise OR its comment describes: 0x81 goes to CTRL3_C. */
    method RestartCorrected(bus: Bus)
      modifies bus`log
      ensures bus.log == old(bus.log) + [Write(slaveSelect, registers.ctrl3C, RESTART_INTENDED)]
    {
      var dataToWrite := BitOr(1, 0x80);
      bus.WriteSpi(slaveSelect, registers.ctrl3C, dataToWrite);
    }
  }

  /** One child: an accelerometer or a gyroscope. */
  class Child {
    const slaveSelect: Byte
    const registers: ImuRegisters
    const logFileLine: LogFileLine
    var xAddress: Byte
    var yAddress: Byte
    var zAddress: Byte
    var ctrlAddress: Byte
    var devType: Byte
    var outputFrequency: real
    var measurementRange: nat
    var resolution: real

    constructor (cs: Byte, registers: ImuRegisters, logFileLine: LogFileLine)
      ensures slaveSelect == cs && this.registers == registers && this.logFileLine == logFileLine
    {
      slaveSelect := cs;
      this.registers := registers;
      this.logFileLine := logFileLine;
    }

    /** `addressSet`: the y and z data registers follow x at steps of two
        (in 8-bit arithmetic); the control register decides the device kind,
        and an unrecognised control register leaves the kind as it was. */
    method AddressSet(xAdd: Byte, ctrlAdd: Byte)
      modifies this`xAddress, this`yAddress, this`zAddress, this`ctrlAddress, this`devType
      ensures xAddress == xAdd && ctrlAddress == ctrlAdd
      ensures (yAddress - xAddress) % 0x100 == 2 && (zAddress - xAddress) % 0x100 == 4
      ensures devType == (if ctrlAdd == registers.accCtrl then ACCELEROMETER
                          else if ctrlAdd == registers.gyrCtrl then GYROSCOPE
                          else old(devType))
    {
      xAddress := xAdd;
      yAddress := (xAdd + 2) % 0x100;
      zAddress := (xAdd + 4) % 0x100;
      ctrlAddress := ctrlAdd;
      if ctrlAddress == registers.accCtrl {
        devType := ACCELEROMETER;
      } else if ctrlAddress == registers.gyrCtrl {
        devType := GYROSCOPE;
      }
    }

    /** `init`: pack the codes into the control byte without validating them,
        record the decoded frequency and range, write the byte, recompute the resolution. */
    method Init(bus: Bus, frequency: Byte, range: Byte)
      modifies this`outputFrequency, this`measurementRange, this`resolution, bus`log
      ensures outputFrequency == Frequency(frequency)
      ensures measurementRange == RecordedRange(devType, range, old(measurementRange))
      ensures resolution == Resolution(measurementRange)
      ensures bus.log == old(bus.log) + [Write(slaveSelect, ctrlAddress, ControlByte(frequency, range))]
    {
      var dataToWrite := ControlByte(frequency, range);
      outputFrequency := Frequency(frequency);
      if devType == ACCELEROMETER {
        measurementRange := AccelerometerRange(range);
      } else if devType == GYROSCOPE {
        measurementRange := GyroscopeRange(range);
      }
      bus.WriteSpi(slaveSelect, ctrlAddress, dataToWrite);
      resolution := Resolution(measurementRange);
    }

    /** `readValue`: two bytes from `address` (LSB first), as a signed 16-bit value, scaled. */
    method ReadValue(bus: Bus, address: Byte) returns (measuredValue: real)
      modifies bus
      ensures measuredValue == SampleAt(bus, old(bus.bursts), slaveSelect, address, resolution)
      ensures bus.bursts == old(bus.bursts) + 1
      ensures bus.log == old(bus.log) + [Read(slaveSelect, address, 2, false)]
    {
      var rawValue := new Byte[2];
      ghost var t := bus.bursts;
      bus.ReadSpi(slaveSelect, address, 2, rawValue);
      bus.BurstByte(t, slaveSelect, address, 2, 0);
      bus.BurstByte(t, slaveSelect, address, 2, 1);
      var rawValueConcat := S16(rawValue[0], rawValue[1]);
      measuredValue := Measured(rawValueConcat, resolution);
    }

    /** `readX`: read the x axis and store it in the log record's accelerometer X field. */
    method ReadX(bus: Bus) returns (xValue: real)
      modifies bus, logFileLine`accelerometerX
      ensures xValue == SampleAt(bus, old(bus.bursts), slaveSelect, xAddress, resolution)
      ensures logFileLine.accelerometerX == xValue
      ensures bus.bursts == old(bus.bursts) + 1
      ensures bus.log == old(bus.log) + [Read(slaveSelect, xAddress, 2, false)]
    {
      xValue := ReadValue(bus, xAddress);
      logFileLine.accelerometerX := xValue;
    }

    /** `readY`: read the y axis and store it in the log record's accelerometer Y field. */
    method ReadY(bus: Bus) returns (yValue: real)
      modifies bus, logFileLine`accelerometerY
      ensures yValue == SampleAt(bus, old(bus.bursts), slaveSelect, yAddress, resolution)
      ensures logFileLine.accelerometerY == yValue
      ensures bus.bursts == old(bus.bursts) + 1
      ensures bus.log == old(bus.log) + [Read(slaveSelect, yAddress, 2, false)]
    {
      yValue := ReadValue(bus, yAddress);
      logFileLine.accelerometerY := yValue;
    }

    /** `readZ`: read the z axis and store it in the log record's accelerometer Z field. */
    method ReadZ(bus: Bus) returns (zValue: real)
      modifies bus, logFileLine`accelerometerZ
      ensures zValue == SampleAt(bus, old(bus.bursts), slaveSelect, zAddress, resolution)
      ensures logFileLine.accelerometerZ == zValue
      ensures bus.bursts == old(bus.bursts) + 1
      ensures bus.log == old(bus.log) + [Read(slaveSelect, zAddress, 2, false)]
    {
      zValue := ReadValue(bus, zAddress);
      logFileLine.accelerometerZ := zValue;
    }

    /** One pass of the noise loop up to the clock check: read z, then keep
        or reject the reading. */
    method NextNoiseZ(bus: Bus, threshold: real, ghost t0: nat, ghost log0: seq<Transfer>, ghost register: Byte,
                      ghost res: real, ghost xs: seq<real>, i: nat, mean: real, sum: real, prevMean: real)
      returns (accZ: real, i': nat, mean': real, sum': real, prevMean': real)
      requires register == zAddress && res == resolution
      requires Collecting(bus, t0, log0, slaveSelect, register, res, threshold, xs, i - 1, mean, sum)
      requires 1 <= i && prevMean == mean
      modifies bus, logFileLine`accelerometerZ
      ensures Collecting(bus, t0, log0, slaveSelect, register, res, threshold, xs + [accZ], i', mean', sum')
      ensures prevMean' == mean' && logFileLine.accelerometerZ == accZ
    {
      accZ := ReadZ(bus);
      i', mean', sum', prevMean' := Consider(accZ, 1.0, threshold, i, mean, sum, prevMean, xs);
      CollectingStep(bus, t0, log0, slaveSelect, register, res, threshold, xs, accZ, i', mean', sum');
    }

    /** The Welford loop of `measureNoiseZ`, ending once `accepted` readings
        are kept. Readings within `threshold` of 1 g are kept; a rejected one
        does not advance the index. `clock[0]` is the clock reading taken
        before the loop and `clock[k]` the one taken after the k-th reading;
        the loop also ends when more than 10000 ms have passed, and the model
        stops when the clock readings run out. `mean` and `sum` are the mean
        and the scatter of the kept readings, and no reading is taken once
        `accepted` readings are kept. */
    method CollectNoiseZ(bus: Bus, clock: seq<Word>, threshold: real, accepted: nat)
      returns (mean: real, sum: real, ghost n: nat)
      requires 0 < accepted < 0x100 && |clock| > 0
      modifies bus, logFileLine`accelerometerZ
      ensures n < |clock| && bus.bursts == old(bus.bursts) + n
      ensures bus.log == old(bus.log) + Repeat(Read(slaveSelect, zAddress, 2, false), n)
      ensures var kept := Kept(Samples(bus, old(bus.bursts), n, slaveSelect, zAddress, resolution), 1.0, threshold);
              |kept| <= accepted && Moments(mean, sum) == Welford(kept)
      ensures |Kept(Samples(bus, old(bus.bursts), n, slaveSelect, zAddress, resolution), 1.0, threshold)| == accepted
              || TimedOut(clock, n) || n == |clock| - 1
      ensures forall j :: 0 < j < n ==> !TimedOut(clock, j)
      ensures forall j :: 0 <= j < n ==>
                |Kept(Samples(bus, old(bus.bursts), j, slaveSelect, zAddress, resolution), 1.0, threshold)| < accepted
      ensures n > 0 ==> logFileLine.accelerometerZ == Samples(bus, old(bus.bursts), n, slaveSelect, zAddress, resolution)[n - 1]
    {
      ghost var t0, log0 := bus.bursts, bus.log;
      ghost var register, res := zAddress, resolution;
      ghost var xs: seq<real> := [];
      mean, sum := 0.0, 0.0;
      var prevMean := 0.0;
      var startTime := clock[0];
      var i: nat := 1;
      var calls: nat := 0;
      var timedOut := false;
      while i < accepted + 1 && calls < |clock| - 1 && !timedOut
        invariant calls == |xs| && 1 <= i <= accepted + 1 && prevMean == mean
        invariant NoiseLoop(bus, clock, t0, log0, slaveSelect, register, res, threshold, accepted, xs, i - 1, mean, sum, timedOut)
        invariant calls > 0 ==> logFileLine.accelerometerZ == xs[calls - 1]
        decreases |clock| - calls
      {
        var accZ;
        accZ, i, mean, sum, prevMean, timedOut :=
          NoisePass(bus, clock, threshold, accepted, t0, log0, register, res, xs, startTime, calls, i, mean, sum, prevMean, timedOut);
        xs := xs + [accZ];
        calls := calls + 1;
        i := i + 1;  // the `for` increment; the pass already applied `i -= 1` to a rejected reading
      }
      n := calls;
      CollectedEnds(bus, t0, log0, slaveSelect, register, res, threshold, xs, i - 1, mean, sum, accepted);
      OnTimeBeforeAll(clock, n);
    }

    /** One whole pass of the noise loop: the reading, then the timeout control. */
    method NoisePass(bus: Bus, clock: seq<Word>, threshold: real, accepted: nat, ghost t0: nat, ghost log0: seq<Transfer>,
                     ghost register: Byte, ghost res: real, ghost xs: seq<real>, startTime: Word, calls: nat,
                     i: nat, mean: real, sum: real, prevMean: real, timedOut: bool)
      returns (accZ: real, i': nat, mean': real, sum': real, prevMean': real, timedOut': bool)
      requires calls == |xs| < |clock| - 1 && 1 <= i < accepted + 1 && !timedOut && prevMean == mean
      requires register == zAddress && res == resolution && startTime == clock[0]
      requires NoiseLoop(bus, clock, t0, log0, slaveSelect, register, res, threshold, accepted, xs, i - 1, mean, sum, timedOut)
      modifies bus, logFileLine`accelerometerZ
      ensures NoiseLoop(bus, clock, t0, log0, slaveSelect, register, res, threshold, accepted, xs + [accZ], i', mean', sum', timedOut')
      ensures i' <= accepted && prevMean' == mean' && logFileLine.accelerometerZ == accZ
    {
      accZ, i', mean', sum', prevMean' := NextNoiseZ(bus, threshold, t0, log0, register, res, xs, i, mean, sum, prevMean);
      timedOut' := CheckTimeout(clock, startTime, calls + 1);
    }

    /** The timeout control at the end of a pass: `(millis() - startTime) > 10000`
        for the clock reading `clock[k]`. */
    method CheckTimeout(clock: seq<Word>, startTime: Word, k: nat) returns (timedOut: bool)
      requires 0 < k < |clock| && startTime == clock[0]
      ensures timedOut == TimedOut(clock, k)
    {
      timedOut := false;
      if Elapsed(startTime, clock[k]) > NOISE_TIMEOUT_MS {
        timedOut := true;
      }
    }

    /** `measureNoiseZ` as written: the index runs from 1 while below 50, so
        at most 49 readings are kept, yet the scatter is divided by 50. The
        square root is not part of this model: the result is the square of the
        returned standard deviation. */
    method MeasureNoiseZ(bus: Bus, clock: seq<Word>, gravity: real)
      returns (variance: real, ghost n: nat)
      requires gravity > 0.0 && |clock| > 0
      modifies bus, logFileLine`accelerometerZ
      ensures n < |clock| && bus.bursts == old(bus.bursts) + n
      ensures bus.log == old(bus.log) + Repeat(Read(slaveSelect, zAddress, 2, false), n)
      ensures var kept := Kept(Samples(bus, old(bus.bursts), n, slaveSelect, zAddress, resolution), 1.0, 0.3 / gravity);
              |kept| <= NUM_READINGS - 1 && variance == Scatter(kept) / NUM_READINGS as real
      ensures |Kept(Samples(bus, old(bus.bursts), n, slaveSelect, zAddress, resolution), 1.0, 0.3 / gravity)| == NUM_READINGS - 1
              || TimedOut(clock, n) || n == |clock| - 1
      ensures forall j :: 0 < j < n ==> !TimedOut(clock, j)
      ensures forall j :: 0 <= j < n ==>
                |Kept(Samples(bus, old(bus.bursts), j, slaveSelect, zAddress, resolution), 1.0, 0.3 / gravity)| < NUM_READINGS - 1
      ensures n > 0 ==> logFileLine.accelerometerZ == Samples(bus, old(bus.bursts), n, slaveSelect, zAddress, resolution)[n - 1]
    {
      var threshold := 0.3 / gravity;
      var mean, sum;
      mean, sum, n := CollectNoiseZ(bus, clock, threshold, NUM_READINGS - 1);
      WelfordIsMeanAndScatter(Kept(Samples(bus, old(bus.bursts), n, slaveSelect, zAddress, resolution), 1.0, threshold));
      variance := sum / NUM_READINGS as real;
    }

    /** `measureNoiseZ` keeping all 50 readings it divides by: a run that is
        not cut short returns the population variance of 50 kept readings. */
    method MeasureNoiseZCorrected(bus: Bus, clock: seq<Word>, gravity: real)
      returns (variance: real, ghost n: nat)
      requires gravity > 0.0 && |clock| > 0
      modifies bus, logFileLine`accelerometerZ
      ensures n < |clock| && bus.bursts == old(bus.bursts) + n
      ensures bus.log == old(bus.log) + Repeat(Read(slaveSelect, zAddress, 2, false), n)
      ensures var kept := Kept(Samples(bus, old(bus.bursts), n, slaveSelect, zAddress, resolution), 1.0, 0.3 / gravity);
              |kept| <= NUM_READINGS && variance == Scatter(kept) / NUM_READINGS as real
      ensures var kept := Kept(Samples(bus, old(bus.bursts), n, slaveSelect, zAddress, resolution), 1.0, 0.3 / gravity);
              |kept| == NUM_READINGS || TimedOut(clock, n) || n == |clock| - 1
      ensures forall j :: 0 < j < n ==> !TimedOut(clock, j)
      ensures forall j :: 0 <= j < n ==>
                |Kept(Samples(bus, old(bus.bursts), j, slaveSelect, zAddress, resolution), 1.0, 0.3 / gravity)| < NUM_READINGS
      ensures n > 0 ==> logFileLine.accelerometerZ == Samples(bus, old(bus.bursts), n, slaveSelect, zAddress, resolution)[n - 1]
      ensures var kept := Kept(Samples(bus, old(bus.bursts), n, slaveSelect, zAddress, resolution), 1.0, 0.3 / gravity);
              |kept| == NUM_READINGS ==> variance == PopulationVariance(kept)
    {
      var threshold := 0.3 / gravity;
      var mean, sum;
      mean, sum, n := CollectNoiseZ(bus, clock, threshold, NUM_READINGS);
      WelfordIsMeanAndScatter(Kept(Samples(bus, old(bus.bursts), n, slaveSelect, zAddress, resolution), 1.0, threshold));
      variance := sum / NUM_READINGS as real;
    }
  }

  /** The population variance: the scatter over the number of readings. */
  function PopulationVariance(xs: seq<real>): real
  {
    if xs == [] then 0.0 else Scatter(xs) / |xs| as real
  }

  /** With 49 kept readings, dividing by 50 understates the population
      variance whenever the readings are not all equal (and only then). */
  lemma NoiseDivisorUnderstates(xs: seq<real>)
    requires |xs| == NUM_READINGS - 1
    ensures Scatter(xs) / NUM_READINGS as real <= PopulationVariance(xs)
    ensures Scatter(xs) > 0.0 ==> Scatter(xs) / NUM_READINGS as real < PopulationVariance(xs)
    ensures Varies(xs) <==> Scatter(xs) / NUM_READINGS as real < PopulationVariance(xs)
  {
    ScatterNonNegative(xs);
    ScatterPositiveExactly(xs);
  }
}
