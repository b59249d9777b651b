/** The BMP388 barometric altimeter driver: configuration-word unpacking,
    output-rate and oversampling tables, the packed oversampling byte,
    24-bit sample reads and the 14 factory calibration parameters.
 */
module Bmp388 {
  import opened Spi
  import opened LittleEndian
  import opened Tables

  const ODR_REG: Byte := 0x1D
  const CHIP_ID_REG: Byte := 0x00
  const CHIP_ID_VAL: Byte := 0x50

  /** Soft-reset command and the PWR_CTRL value that enables both sensors in normal mode. */
  const SOFT_RESET_CMD: Byte := 0xB6
  const PWR_NORMAL_PRESS_TEMP: Byte := 0x33

  /* Output data rate codes (bits 23:16 of the configuration word). */
  const ALT_ODR_200: Byte := 0
  const ALT_ODR_100: Byte := 1
  const ALT_ODR_50: Byte := 2
  const ALT_ODR_25: Byte := 3
  const ALT_ODR_12p5: Byte := 4
  const ALT_ODR_6p25: Byte := 5
  const ALT_ODR_3p1: Byte := 6
  const ALT_ODR_0p78: Byte := 7
  const ALT_ODR_0p39: Byte := 8
  const ALT_ODR_0p2: Byte := 9
  const ALT_ODR_0p1: Byte := 10
  const ALT_ODR_0p05: Byte := 11
  const ALT_ODR_0P02: Byte := 12
  const ALT_ODR_0p01: Byte := 13

  /** The output data rate in Hz of each code, in code order. */
  const ODR_HZ: seq<real> :=
    [200.0, 100.0, 50.0, 25.0, 12.5, 6.25, 3.1, 0.78, 0.39, 0.2, 0.1, 0.05, 0.02, 0.01]

  /** The oversampling factor of each code, in code order. */
  const OVERSAMPLING: seq<nat> := [1, 2, 4, 8, 16, 32]

  /** Register addresses the driver uses but whose values live outside this model. */
  datatype Registers = Registers(osr: Byte, cmd: Byte, pwrCtrl: Byte, nvm: CalParam -> Byte)

  /** The three configuration codes carried by a configuration word. */
  datatype Settings = Settings(frequency: Byte, pressure: Byte, temperature: Byte)

  /** How a caller lays the codes out in a configuration word: bits 23:16, 15:8 and 7:0. */
  function ConfigWord(s: Settings): Word
  {
    s.frequency * 0x1_0000 + s.pressure * 0x100 + s.temperature
  }

  /** `(w >> 16) & 255`, `(w >> 8) & 255` and `w & 255`: bits 31:24 are ignored. */
  function Unpack(w: Word): Settings
  {
    Settings((w / 0x1_0000) % 0x100, (w / 0x100) % 0x100, w % 0x100)
  }

  /** Unpacking keeps exactly the low 24 bits of the word. */
  lemma UnpackDropsTopByte(w: Word)
    ensures ConfigWord(Unpack(w)) == w % 0x100_0000
  {
    var t, q := w % 0x100, w / 0x100;
    var p, r := q % 0x100, q / 0x100;
    assert r == w / 0x1_0000;
    var f, top := r % 0x100, r / 0x100;
    assert w == top * 0x100_0000 + (f * 0x1_0000 + p * 0x100 + t);
  }

  lemma {:induction false} UnpackConfigWord(s: Settings)
    ensures Unpack(ConfigWord(s)) == s
  {
    var w := ConfigWord(s);
    assert w / 0x1_0000 == s.frequency;
    assert w / 0x100 == s.frequency * 0x100 + s.pressure;
  }

  /** The stored output frequency; 0 marks a code outside the table. */
  function OutputFrequency(code: Byte): (hz: real)
    ensures hz >= 0.0
    ensures hz > 0.0 <==> code < |ODR_HZ|
  {
    if code < |ODR_HZ| then ODR_HZ[code] else 0.0
  }

  /** The output data rate falls strictly as the code rises. */
  lemma OutputFrequencyDecreasing()
    ensures StrictlyDecreasing(ODR_HZ)
    ensures forall a: Byte, b: Byte :: a < b < |ODR_HZ| ==> OutputFrequency(a) > OutputFrequency(b)
  {
    StepsDownIsStrict(ODR_HZ);
  }

  /** The rate aliases are the consecutive codes 0..13 and name the table entries they index. */
  lemma OdrAliases()
    ensures [ALT_ODR_200, ALT_ODR_100, ALT_ODR_50, ALT_ODR_25, ALT_ODR_12p5, ALT_ODR_6p25, ALT_ODR_3p1,
             ALT_ODR_0p78, ALT_ODR_0p39, ALT_ODR_0p2, ALT_ODR_0p1, ALT_ODR_0p05, ALT_ODR_0P02, ALT_ODR_0p01]
            == seq(14, k => k)
    ensures OutputFrequency(ALT_ODR_200) == 200.0 && OutputFrequency(ALT_ODR_12p5) == 12.5
    ensures OutputFrequency(ALT_ODR_3p1) == 3.1 && OutputFrequency(ALT_ODR_0p01) == 0.01
  {
  }

  function Pow2(n: nat): (r: nat)
    ensures r >= 1
  {
    if n == 0 then 1 else 2 * Pow2(n - 1)
  }

  /** The stored oversampling factor: 2^code for codes 0..5, and 0 for any other code. */
  function Oversampling(code: Byte): (r: nat)
    ensures code < 6 ==> r == Pow2(code)
    ensures code >= 6 ==> r == 0
  {
    if code < |OVERSAMPLING| then OVERSAMPLING[code] else 0
  }

  /** `uint8_t((temperature << 3) | pressure)`: bits 5:3 and 2:0 give the two codes back. */
  function OsrByte(temperature: Byte, pressure: Byte): (r: Byte)
    ensures temperature < 8 && pressure < 8 ==>
              r % 8 == pressure && (r / 8) % 8 == temperature && r < 0x40
  {
    ((temperature as bv8 << 3) | pressure as bv8) as int
  }

  /* ---------- calibration parameters ---------- */

  datatype CalParam = T1 | T2 | T3 | P1 | P2 | P3 | P4 | P5 | P6 | P7 | P8 | P9 | P10 | P11

  /** The order the driver reads them in; the first three fill the temperature
      array, the other eleven the pressure array. */
  const CAL_ORDER: seq<CalParam> := [T1, T2, T3, P1, P2, P3, P4, P5, P6, P7, P8, P9, P10, P11]

  /** Bytes per parameter. */
  function Width(p: CalParam): nat
  {
    match p
    case T1 | T2 | P1 | P2 | P5 | P6 | P9 => 2
    case _ => 1
  }

  /** Whether the parameter is a two's-complement value. */
  predicate IsSigned(p: CalParam)
  {
    !(p == T1 || p == T2 || p == P5 || p == P6)
  }

  /** The binary exponent each raw value is divided by. */
  function Exponent(p: CalParam): int
  {
    match p
    case T1 => -8  case T2 => 30  case T3 => 48
    case P1 => 20  case P2 => 29  case P3 => 32  case P4 => 37  case P5 => -3
    case P6 => 6   case P7 => 8   case P8 => 15  case P9 => 48  case P10 => 48
    case P11 => 65
  }

  /** The amount subtracted before scaling (2^14 for P1 and P2). */
  function Offset(p: CalParam): int
  {
    if p == P1 || p == P2 then 0x4000 else 0
  }

  /** The generic little-endian decode the descriptor table calls for. */
  function DecodeRaw(bytes: seq<Byte>, signed: bool): int
    requires |bytes| > 0
  {
    if signed then Signed(bytes) else Unsigned(bytes)
  }

  /** The per-parameter cast the driver applies to the scratch bytes `lo`
      (`rawValue[0]`) and `hi` (`rawValue[1]`): `uint16_t`, `int16_t` or `int8_t`. */
  function RawParam(p: CalParam, lo: Byte, hi: Byte): int
  {
    match p
    case T1 | T2 | P5 | P6 => U16(lo, hi)
    case P1 | P2 | P9 => S16(lo, hi)
    case _ => S8(lo)
  }

  /** Each cast is the little-endian decode of the parameter's width and
      signedness, and so lies in that type's range. */
  lemma RawParamDecodes(p: CalParam, lo: Byte, hi: Byte)
    ensures Width(p) == 2 ==> RawParam(p, lo, hi) == DecodeRaw([lo, hi], IsSigned(p))
    ensures Width(p) == 1 ==> RawParam(p, lo, hi) == DecodeRaw([lo], IsSigned(p))
    ensures Width(p) == 2 && !IsSigned(p) ==> 0 <= RawParam(p, lo, hi) < 0x1_0000
    ensures Width(p) == 2 && IsSigned(p) ==> -0x8000 <= RawParam(p, lo, hi) < 0x8000
    ensures Width(p) == 1 ==> -0x80 <= RawParam(p, lo, hi) < 0x80
  {
    U16IsUnsigned(lo, hi);
    S16IsSigned(lo, hi);
    S8IsSigned(lo);
  }

  function Pow2Real(e: int): (r: real)
    ensures r > 0.0
    decreases if e < 0 then -e else e
  {
    if e == 0 then 1.0
    else if e > 0 then 2.0 * Pow2Real(e - 1)
    else Pow2Real(e + 1) / 2.0
  }

  lemma {:induction false} Pow2RealAdd(a: nat, b: nat)
    ensures Pow2Real(a + b) == Pow2Real(a) * Pow2Real(b)
  {
    if b > 0 {
      Pow2RealAdd(a, b - 1);
    }
  }

  lemma Pow2RealNegative()
    ensures Pow2Real(-3) == 0.125 && Pow2Real(-8) == 0.00390625
  {
    assert Pow2Real(-1) == 0.5;
    assert Pow2Real(-2) == 0.25;
    assert Pow2Real(-3) == 0.125;
    assert Pow2Real(-4) == 0.0625;
    assert Pow2Real(-5) == 0.03125;
    assert Pow2Real(-6) == 0.015625;
    assert Pow2Real(-7) == 0.0078125;
  }

  lemma Pow2RealPositive()
    ensures Pow2Real(5) == 32.0 && Pow2Real(6) == 64.0 && Pow2Real(7) == 128.0 && Pow2Real(8) == 256.0
  {
    assert Pow2Real(1) == 2.0;
    assert Pow2Real(2) == 4.0;
    assert Pow2Real(3) == 8.0;
    assert Pow2Real(4) == 16.0;
    assert Pow2Real(5) == 32.0;
    assert Pow2Real(6) == 64.0;
    assert Pow2Real(7) == 128.0;
  }

  lemma Pow2RealLandmarks()
    ensures Pow2Real(16) == 65536.0
    ensures Pow2Real(32) == 4294967296.0
    ensures Pow2Real(64) == 18446744073709551616.0
  {
    Pow2RealPositive();
    Pow2RealAdd(8, 8);
    Pow2RealAdd(16, 16);
    Pow2RealAdd(32, 32);
  }

  /** `pow(2, Exponent(p))`, written out. */
  function Divisor(p: CalParam): (d: real)
    ensures d > 0.0
  {
    match p
    case T1 => 0.00390625            case T2 => 1073741824.0
    case T3 => 281474976710656.0     case P1 => 1048576.0
    case P2 => 536870912.0           case P3 => 4294967296.0
    case P4 => 137438953472.0        case P5 => 0.125
    case P6 => 64.0                  case P7 => 256.0
    case P8 => 32768.0               case P9 => 281474976710656.0
    case P10 => 281474976710656.0    case P11 => 36893488147419103232.0
  }

  lemma DivisorIsPowerOfTwo(p: CalParam)
    ensures Divisor(p) == Pow2Real(Exponent(p))
  {
    match p
    case T1 | P5 => Pow2RealNegative();
    case P6 | P7 => Pow2RealPositive();
    case P8 => Pow2RealPositive(); Pow2RealAdd(8, 7);
    case P1 => Pow2RealLandmarks(); Pow2RealAdd(16, 4); Pow2RealAdd(2, 2);
    case T2 => Pow2RealLandmarks(); Pow2RealPositive(); Pow2RealAdd(16, 14); Pow2RealAdd(8, 6);
    case P2 => Pow2RealLandmarks(); Pow2RealPositive(); Pow2RealAdd(16, 13); Pow2RealAdd(8, 5);
    case P3 => Pow2RealLandmarks();
    case P4 => Pow2RealLandmarks(); Pow2RealPositive(); Pow2RealAdd(32, 5);
    case T3 | P9 | P10 => Pow2RealLandmarks(); Pow2RealAdd(32, 16);
    case P11 => Pow2RealLandmarks(); Pow2RealAdd(64, 1);
  }

  /** The stored coefficient `(raw - offset) / 2^exponent`. Every input is a
      16-bit integer and every divisor a power of two, so single-precision
      arithmetic computes this exactly. */
  function Coefficient(p: CalParam, raw: int): real
  {
    (raw - Offset(p)) as real / Divisor(p)
  }

  /** Scaling loses nothing: multiplying back by 2^exponent restores the offset raw value. */
  lemma CoefficientScales(p: CalParam, raw: int)
    ensures Coefficient(p, raw) * Pow2Real(Exponent(p)) == (raw - Offset(p)) as real
  {
    DivisorIsPowerOfTwo(p);
  }

  /** What the driver stores for parameter `p`, read in burst `t`. */
  function CalibrationValue(bus: Bus, t: nat, device: Byte, regs: Registers, p: CalParam): real
  {
    Coefficient(p, RawParam(p, bus.respond(t, device, regs.nvm(p), 0), bus.respond(t, device, regs.nvm(p), 1)))
  }

  /** The stored value is the scaled little-endian decode of the parameter's burst. */
  lemma CalibrationValueDecodesBurst(bus: Bus, t: nat, device: Byte, regs: Registers, p: CalParam)
    ensures CalibrationValue(bus, t, device, regs, p)
         == Coefficient(p, DecodeRaw(bus.Burst(t, device, regs.nvm(p), Width(p)), IsSigned(p)))
  {
    var bytes := bus.Burst(t, device, regs.nvm(p), Width(p));
    bus.BurstByte(t, device, regs.nvm(p), Width(p), 0);
    if Width(p) == 2 {
      bus.BurstByte(t, device, regs.nvm(p), 2, 1);
      assert bytes == [bytes[0], bytes[1]];
    } else {
      assert bytes == [bytes[0]];
    }
    RawParamDecodes(p, bytes[0], bus.respond(t, device, regs.nvm(p), 1));
  }

  /** The read `getCompensationParams` issues for parameter `p`. */
  function CalibrationRead(device: Byte, regs: Registers, p: CalParam): Transfer
  {
    Read(device, regs.nvm(p), Width(p), true)
  }

  /** The reads of the temperature parameters. */
  function TemperatureReads(device: Byte, regs: Registers): seq<Transfer>
  {
    [CalibrationRead(device, regs, T1), CalibrationRead(device, regs, T2), CalibrationRead(device, regs, T3)]
  }

  function PressureReads1To4(device: Byte, regs: Registers): seq<Transfer>
  {
    [CalibrationRead(device, regs, P1), CalibrationRead(device, regs, P2),
     CalibrationRead(device, regs, P3), CalibrationRead(device, regs, P4)]
  }

  function PressureReads5To8(device: Byte, regs: Registers): seq<Transfer>
  {
    [CalibrationRead(device, regs, P5), CalibrationRead(device, regs, P6),
     CalibrationRead(device, regs, P7), CalibrationRead(device, regs, P8)]
  }

  function PressureReads9To11(device: Byte, regs: Registers): seq<Transfer>
  {
    [CalibrationRead(device, regs, P9), CalibrationRead(device, regs, P10), CalibrationRead(device, regs, P11)]
  }

  /** The reads of the pressure parameters, in the three blocks the loader issues them in. */
  function PressureReads(device: Byte, regs: Registers): seq<Transfer>
  {
    PressureReads1To4(device, regs) + PressureReads5To8(device, regs) + PressureReads9To11(device, regs)
  }

  /** The reads `getCompensationParams` issues, in order. */
  function CalibrationReads(device: Byte, regs: Registers): seq<Transfer>
  {
    TemperatureReads(device, regs) + PressureReads(device, regs)
  }

  /** The j-th parameter in CAL_ORDER is the j-th read. */
  lemma CalibrationReadsFollowOrder(device: Byte, regs: Registers)
    ensures |CalibrationReads(device, regs)| == |CAL_ORDER|
    ensures forall j :: 0 <= j < |CAL_ORDER| ==> CalibrationReads(device, regs)[j] == CalibrationRead(device, regs, CAL_ORDER[j])
  {
  }

  class Altimeter {
    const slaveSelect: Byte
    const registers: Registers
    var outputFrequency: real
    var pressureOversampling: nat
    var temperatureOversampling: nat
    var pressureAddress0: Byte
    var temperatureAddress0: Byte
    const temperatureCompensation: array<real>
    const pressureCompensation: array<real>

    ghost predicate Valid()
    {
      temperatureCompensation.Length == 3 && pressureCompensation.Length == 11
    }

    /** The temperature array holds T1, T2, T3, read in bursts `t` to `t + 2`. */
    ghost predicate TemperatureLoaded(bus: Bus, t: nat)
      requires Valid()
      reads temperatureCompensation
    {
      && temperatureCompensation[0] == CalibrationValue(bus, t, slaveSelect, registers, T1)
      && temperatureCompensation[1] == CalibrationValue(bus, t + 1, slaveSelect, registers, T2)
      && temperatureCompensation[2] == CalibrationValue(bus, t + 2, slaveSelect, registers, T3)
    }

    /** The pressure array holds P1 to P11, read in bursts `t + 3` to `t + 13`. */
    ghost predicate PressureLoaded(bus: Bus, t: nat)
      requires Valid()
      reads pressureCompensation
    {
      && pressureCompensation[0] == CalibrationValue(bus, t + 3, slaveSelect, registers, P1)
      && pressureCompensation[1] == CalibrationValue(bus, t + 4, slaveSelect, registers, P2)
      && pressureCompensation[2] == CalibrationValue(bus, t + 5, slaveSelect, registers, P3)
      && pressureCompensation[3] == CalibrationValue(bus, t + 6, slaveSelect, registers, P4)
      && pressureCompensation[4] == CalibrationValue(bus, t + 7, slaveSelect, registers, P5)
      && pressureCompensation[5] == CalibrationValue(bus, t + 8, slaveSelect, registers, P6)
      && pressureCompensation[6] == CalibrationValue(bus, t + 9, slaveSelect, registers, P7)
      && pressureCompensation[7] == CalibrationValue(bus, t + 10, slaveSelect, registers, P8)
      && pressureCompensation[8] == CalibrationValue(bus, t + 11, slaveSelect, registers, P9)
      && pressureCompensation[9] == CalibrationValue(bus, t + 12, slaveSelect, registers, P10)
      && pressureCompensation[10] == CalibrationValue(bus, t + 13, slaveSelect, registers, P11)
    }

    /** The arrays hold the 14 parameters in CAL_ORDER, read in bursts `t` to `t + 13`. */
    ghost predicate CalibrationLoaded(bus: Bus, t: nat)
      requires Valid()
      reads temperatureCompensation, pressureCompensation
    {
      TemperatureLoaded(bus, t) && PressureLoaded(bus, t)
    }

    /** Stores the chip-select pin; the device starts unconfigured (rate 0). */
    constructor (cs: Byte, registers: Registers)
      ensures Valid()
      ensures slaveSelect == cs && this.registers == registers
      ensures outputFrequency == 0.0
      ensures fresh(temperatureCompensation) && fresh(pressureCompensation)
    {
      slaveSelect := cs;
      this.registers := registers;
      outputFrequency := 0.0;
      temperatureCompensation := new real[3];
      pressureCompensation := new real[11];
    }

    /** `isAlive`: true exactly when the identity register reads CHIP_ID_VAL. */
    method IsAlive(bus: Bus) returns (alive: bool)
      modifies bus
      ensures alive <==> bus.respond(old(bus.bursts), slaveSelect, CHIP_ID_REG, 0) == CHIP_ID_VAL
      ensures bus.bursts == old(bus.bursts) + 1
      ensures bus.log == old(bus.log) + [Read(slaveSelect, CHIP_ID_REG, 1, true)]
    {
      alive := false;
      var chipId := new Byte[1];
      bus.ReadSpiWithDummy(slaveSelect, CHIP_ID_REG, 1, chipId);
      if chipId[0] == CHIP_ID_VAL {
        alive := true;
      }
    }

    /** `restart`: soft reset, then normal mode with both sensors enabled. */
    method Restart(bus: Bus)
      modifies bus`log
      ensures bus.log == old(bus.log) + [Write(slaveSelect, registers.cmd, SOFT_RESET_CMD),
                                         Write(slaveSelect, registers.pwrCtrl, PWR_NORMAL_PRESS_TEMP)]
    {
      bus.WriteSpi(slaveSelect, registers.cmd, SOFT_RESET_CMD);
      bus.WriteSpi(slaveSelect, registers.pwrCtrl, PWR_NORMAL_PRESS_TEMP);
    }

    /** `addressSet`: the temperature block starts three registers after the pressure block. */
    method AddressSet(data0: Byte)
      modifies this`pressureAddress0, this`temperatureAddress0
      ensures pressureAddress0 == data0
      ensures (temperatureAddress0 - pressureAddress0) % 0x100 == 3
    {
      pressureAddress0 := data0;
      temperatureAddress0 := (data0 + 3) % 0x100;
    }

    /** `init`: write the rate code to ODR, the packed oversampling codes to OSR,
        record the decoded settings, then load the calibration parameters. */
    method Init(bus: Bus, configuration: Word)
      requires Valid()
      modifies this`outputFrequency, this`pressureOversampling, this`temperatureOversampling
      modifies bus, temperatureCompensation, pressureCompensation
      ensures var s := Unpack(configuration);
        && outputFrequency == OutputFrequency(s.frequency)
        && pressureOversampling == Oversampling(s.pressure)
        && temperatureOversampling == Oversampling(s.temperature)
        && bus.log == old(bus.log) + ConfigurationWrites(s) + CalibrationReads(slaveSelect, registers)
      ensures bus.bursts == old(bus.bursts) + |CAL_ORDER|
      ensures CalibrationLoaded(bus, old(bus.bursts))
    {
      Configure(bus, configuration);
      GetCompensationParams(bus);
    }

    /** The two register writes `init` makes for the settings `s`. */
    function ConfigurationWrites(s: Settings): seq<Transfer>
    {
      [Write(slaveSelect, ODR_REG, s.frequency), Write(slaveSelect, registers.osr, OsrByte(s.temperature, s.pressure))]
    }

    /** The first part of `init`: decode the word, write ODR and OSR, record the settings. */
    method Configure(bus: Bus, configuration: Word)
      modifies this`outputFrequency, this`pressureOversampling, this`temperatureOversampling, bus`log
      ensures var s := Unpack(configuration);
        && outputFrequency == OutputFrequency(s.frequency)
        && pressureOversampling == Oversampling(s.pressure)
        && temperatureOversampling == Oversampling(s.temperature)
        && bus.log == old(bus.log) + ConfigurationWrites(s)
    {
      var frequency := (configuration / 0x1_0000) % 0x100;
      var dataToWrite := frequency;
      outputFrequency := OutputFrequency(frequency);
      bus.WriteSpi(slaveSelect, ODR_REG, dataToWrite);

      var pressResolution := (configuration / 0x100) % 0x100;
      var tempResolution := configuration % 0x100;
      dataToWrite := OsrByte(tempResolution, pressResolution);
      pressureOversampling := Oversampling(pressResolution);
      temperatureOversampling := Oversampling(tempResolution);
      bus.WriteSpi(slaveSelect, registers.osr, dataToWrite);
      assert Unpack(configuration) == Settings(frequency, pressResolution, tempResolution);
    }

    /** One block of `getCompensationParams`: read parameter `p` into the
        scratch buffer, decode and scale it, zero the buffer. */
    method ReadParameter(bus: Bus, p: CalParam, rawValue: array<Byte>, ghost burst: nat) returns (c: real)
      requires rawValue.Length == 2 && bus.bursts == burst
      modifies bus, rawValue
      ensures c == CalibrationValue(bus, burst, slaveSelect, registers, p)
      ensures rawValue[0] == 0 && rawValue[1] == 0
      ensures bus.bursts == burst + 1
      ensures bus.log == old(bus.log) + [CalibrationRead(slaveSelect, registers, p)]
    {
      var w := Width(p);
      bus.ReadSpiWithDummy(slaveSelect, registers.nvm(p), w, rawValue);
      var raw := RawParam(p, rawValue[0], rawValue[1]);
      ghost var answer := bus.respond;
      assert rawValue[0] == answer(burst, slaveSelect, registers.nvm(p), 0) by {
        bus.BurstByte(burst, slaveSelect, registers.nvm(p), w, 0);
      }
      assert raw == RawParam(p, rawValue[0], answer(burst, slaveSelect, registers.nvm(p), 1)) by {
        if w == 2 {
          bus.BurstByte(burst, slaveSelect, registers.nvm(p), w, 1);
        }
      }
      c := Coefficient(p, raw);
      rawValue[0] := 0;
      rawValue[1] := 0;
    }

    /** The temperature half of `getCompensationParams`: T1, T2, T3. */
    method LoadTemperatureParameters(bus: Bus, rawValue: array<Byte>, ghost t: nat)
      requires Valid() && rawValue.Length == 2 && bus.bursts == t
      modifies bus, rawValue, temperatureCompensation
      ensures TemperatureLoaded(bus, t)
      ensures bus.bursts == t + 3
      ensures bus.log == old(bus.log) + TemperatureReads(slaveSelect, registers)
    {
      temperatureCompensation[0] := ReadParameter(bus, T1, rawValue, t);
      temperatureCompensation[1] := ReadParameter(bus, T2, rawValue, t + 1);
      temperatureCompensation[2] := ReadParameter(bus, T3, rawValue, t + 2);
    }

    /** Pressure parameters P1 to P4, into entries 0 to 3. */
    method LoadPressureParameters1To4(bus: Bus, rawValue: array<Byte>, ghost t: nat)
      requires Valid() && rawValue.Length == 2 && bus.bursts == t + 3
      modifies bus, rawValue, pressureCompensation
      ensures pressureCompensation[0] == CalibrationValue(bus, t + 3, slaveSelect, registers, P1)
      ensures pressureCompensation[1] == CalibrationValue(bus, t + 4, slaveSelect, registers, P2)
      ensures pressureCompensation[2] == CalibrationValue(bus, t + 5, slaveSelect, registers, P3)
      ensures pressureCompensation[3] == CalibrationValue(bus, t + 6, slaveSelect, registers, P4)
      ensures forall k :: 4 <= k < 11 ==> pressureCompensation[k] == old(pressureCompensation[k])
      ensures bus.bursts == t + 7
      ensures bus.log == old(bus.log) + PressureReads1To4(slaveSelect, registers)
    {
      pressureCompensation[0] := ReadParameter(bus, P1, rawValue, t + 3);
      pressureCompensation[1] := ReadParameter(bus, P2, rawValue, t + 4);
      pressureCompensation[2] := ReadParameter(bus, P3, rawValue, t + 5);
      pressureCompensation[3] := ReadParameter(bus, P4, rawValue, t + 6);
    }

    /** Pressure parameters P5 to P8, into entries 4 to 7. */
    method LoadPressureParameters5To8(bus: Bus, rawValue: array<Byte>, ghost t: nat)
      requires Valid() && rawValue.Length == 2 && bus.bursts == t + 7
      modifies bus, rawValue, pressureCompensation
      ensures pressureCompensation[4] == CalibrationValue(bus, t + 7, slaveSelect, registers, P5)
      ensures pressureCompensation[5] == CalibrationValue(bus, t + 8, slaveSelect, registers, P6)
      ensures pressureCompensation[6] == CalibrationValue(bus, t + 9, slaveSelect, registers, P7)
      ensures pressureCompensation[7] == CalibrationValue(bus, t + 10, slaveSelect, registers, P8)
      ensures forall k :: 0 <= k < 4 ==> pressureCompensation[k] == old(pressureCompensation[k])
      ensures forall k :: 8 <= k < 11 ==> pressureCompensation[k] == old(pressureCompensation[k])
      ensures bus.bursts == t + 11
      ensures bus.log == old(bus.log) + PressureReads5To8(slaveSelect, registers)
    {
      pressureCompensation[4] := ReadParameter(bus, P5, rawValue, t + 7);
      pressureCompensation[5] := ReadParameter(bus, P6, rawValue, t + 8);
      pressureCompensation[6] := ReadParameter(bus, P7, rawValue, t + 9);
      pressureCompensation[7] := ReadParameter(bus, P8, rawValue, t + 10);
    }

    /** Pressure parameters P9 to P11, into entries 8 to 10. */
    method LoadPressureParameters9To11(bus: Bus, rawValue: array<Byte>, ghost t: nat)
      requires Valid() && rawValue.Length == 2 && bus.bursts == t + 11
      modifies bus, rawValue, pressureCompensation
      ensures pressureCompensation[8] == CalibrationValue(bus, t + 11, slaveSelect, registers, P9)
      ensures pressureCompensation[9] == CalibrationValue(bus, t + 12, slaveSelect, registers, P10)
      ensures pressureCompensation[10] == CalibrationValue(bus, t + 13, slaveSelect, registers, P11)
      ensures forall k :: 0 <= k < 8 ==> pressureCompensation[k] == old(pressureCompensation[k])
      ensures bus.bursts == t + 14
      ensures bus.log == old(bus.log) + PressureReads9To11(slaveSelect, registers)
    {
      pressureCompensation[8] := ReadParameter(bus, P9, rawValue, t + 11);
      pressureCompensation[9] := ReadParameter(bus, P10, rawValue, t + 12);
      pressureCompensation[10] := ReadParameter(bus, P11, rawValue, t + 13);
    }

    /** The pressure half of `getCompensationParams`: P1 to P11. */
    method LoadPressureParameters(bus: Bus, rawValue: array<Byte>, ghost t: nat)
      requires Valid() && rawValue.Length == 2 && bus.bursts == t + 3
      modifies bus, rawValue, pressureCompensation
      ensures PressureLoaded(bus, t)
      ensures bus.bursts == t + 14
      ensures bus.log == old(bus.log) + PressureReads(slaveSelect, registers)
    {
      ghost var log0 := bus.log;
      LoadPressureParameters1To4(bus, rawValue, t);
      LoadPressureParameters5To8(bus, rawValue, t);
      AppendTwice(log0, PressureReads1To4(slaveSelect, registers), PressureReads5To8(slaveSelect, registers));
      LoadPressureParameters9To11(bus, rawValue, t);
      AppendTwice(log0, PressureReads1To4(slaveSelect, registers) + PressureReads5To8(slaveSelect, registers),
                  PressureReads9To11(slaveSelect, registers));
    }

    /** `getCompensationParams`: the 14 parameters in datasheet order, one read burst each;
        the first three fill the temperature array, the other eleven the pressure array. */
    method GetCompensationParams(bus: Bus)
      requires Valid()
      modifies bus, temperatureCompensation, pressureCompensation
      ensures bus.bursts == old(bus.bursts) + |CAL_ORDER|
      ensures bus.log == old(bus.log) + CalibrationReads(slaveSelect, registers)
      ensures CalibrationLoaded(bus, old(bus.bursts))
    {
      ghost var t, log0 := bus.bursts, bus.log;
      var rawValue := new Byte[2];
      LoadTemperatureParameters(bus, rawValue, t);
      LoadPressureParameters(bus, rawValue, t);
      AppendTwice(log0, TemperatureReads(slaveSelect, registers), PressureReads(slaveSelect, registers));
      assert CalibrationLoaded(bus, t);
    }

    /** `readValue`: three bytes from `address`, least significant first, as a 24-bit value. */
    method ReadValue(bus: Bus, address: Byte) returns (raw: nat)
      modifies bus
      ensures raw == Unsigned(bus.Burst(old(bus.bursts), slaveSelect, address, 3))
      ensures raw < 0x100_0000
      ensures bus.bursts == old(bus.bursts) + 1
      ensures bus.log == old(bus.log) + [Read(slaveSelect, address, 3, true)]
    {
      var rawValue := new Byte[3];
      bus.ReadSpiWithDummy(slaveSelect, address, 3, rawValue);
      assert rawValue[..] == rawValue[..3] == [rawValue[0], rawValue[1], rawValue[2]];
      raw := U24(rawValue[0], rawValue[1], rawValue[2]);
      U24IsUnsigned(rawValue[0], rawValue[1], rawValue[2]);
    }

    /** The uncompensated temperature `readTemp` feeds its polynomial. */
    method ReadTemp(bus: Bus) returns (uncompensatedTemperature: nat)
      modifies bus
      ensures uncompensatedTemperature == Unsigned(bus.Burst(old(bus.bursts), slaveSelect, temperatureAddress0, 3))
      ensures bus.bursts == old(bus.bursts) + 1
      ensures bus.log == old(bus.log) + [Read(slaveSelect, temperatureAddress0, 3, true)]
    {
      uncompensatedTemperature := ReadValue(bus, temperatureAddress0);
    }

    /** The two raw readings `readPress` compensates: temperature first, then pressure. */
    method ReadPress(bus: Bus) returns (uncompensatedTemperature: nat, uncompensatedPressure: nat)
      modifies bus
      ensures uncompensatedTemperature == Unsigned(bus.Burst(old(bus.bursts), slaveSelect, temperatureAddress0, 3))
      ensures uncompensatedPressure == Unsigned(bus.Burst(old(bus.bursts) + 1, slaveSelect, pressureAddress0, 3))
      ensures bus.bursts == old(bus.bursts) + 2
      ensures bus.log == old(bus.log) + [Read(slaveSelect, temperatureAddress0, 3, true),
                                         Read(slaveSelect, pressureAddress0, 3, true)]
    {
      uncompensatedTemperature := ReadTemp(bus);
      uncompensatedPressure := ReadValue(bus, pressureAddress0);
    }
  }
}
