# SunSat PDC sensor drivers: a Dafny model

This project models the register-level behaviour of the payload data
computer (PDC) drivers in the SunSat avionics code for Arduino.

- **BMP388 barometric altimeter** (`Bmp388`):
  - the identity check, soft restart and data-address bookkeeping;
  - `init`, which unpacks a 32-bit configuration word into the output-data-rate code and the two oversampling codes, writes ODR and OSR, and records the decoded settings;
  - the 24-bit little-endian sample read;
  - the read order of `readTemp`/`readPress`;
  - `getCompensationParams`: 14 calibration parameters of fixed width and signedness, each decoded from one read burst, scaled by a power of two, and stored in two arrays, with the scratch buffer cleared after every parameter.
- **LSM6DSO32 inertial unit, two-child generation** (`ImuChild`):
  - `addressSet`, with its 8-bit address offsets and device-kind detection;
  - `init`, which packs the frequency and range codes into one control byte without validation, records the decoded frequency and range from per-device tables, and recomputes the resolution;
  - the signed 16-bit sample decode;
  - `readX/Y/Z`, which store into the global log record;
  - the `restart` command byte;
  - the Welford noise loop of `measureNoiseZ`, with its rejection band and its 10 s timeout.
- **LSM6DSO32, single-class generation** (`Lsm6dso32`):
  - the identity check;
  - the z-axis read in m/s²;
  - `setupAccelerometer`: encodes a range in g and a rate in Hz into CTRL1_XL, and writes and records them only when both are supported;
  - the Welford loop of `measureAccelerometerNoiseZ`.
- **TSL1401CCS photodiode-array group and Timer/Counter 1** (`Tsl1401ccs`, `Timer1`):
  - `startClockOC1A`: a guarded start of the array clock (OC1A pin, 5 kHz to 8 MHz inclusive);
  - `setClockOC1A`: the TCCR1A/TCCR1B bit sequence and the 32-bit to 16-bit OCR1A computation.

The SPI bus (`Spi`) is a parameter of the model:
- `Bus.respond(t, device, register, k)` is byte `k` of the `t`-th read burst;
- `Bus.bursts` counts bursts;
- a ghost `Bus.log` records every read and write in order.

Every driver contract states exactly which transfers it appends to the log, which fields change, and what the decoded values are. `LittleEndian` holds the reference decodes (unsigned and two's complement, any width) with their encoders. `Noise` holds the reference statistics (kept readings, mean, scatter) and Welford's update proved against them. `Tables` states the ordering of the drivers' lookup tables.

C's fixed-width arithmetic is written out where it matters:
- 8-bit address sums and shifts (`bv8` or `% 0x100`);
- the 32-bit configuration word and millisecond clock;
- `uint32_t` wrap-around and the `uint16_t` store in OCR1A;
- the float-to-`uint16_t` truncation in `setupAccelerometer`.

Floating-point values that the drivers only store or scale are exact reals.

## Model

| member | source | states |
|---|---|---|
| Spi.Bus.ReadSpi | src/PDC/PDC_LSM6DSO32.cpp:215 | `readSPI` fills the first `count` bytes of the buffer with the device's answers in order, leaves the rest of the buffer alone, and logs one read |
| Spi.Bus.ReadSpiWithDummy | PDC/PDC_mainCode/PDC_BMP388.cpp:239 | `readSPIwithDummy` delivers the same bytes after the dummy byte and logs the read as a dummy read |
| Spi.Bus.WriteSpi | PDC/PDC_mainCode/PDC_SPI.h:5 | `writeSPI` appends exactly one write of `data` to `register` of `device` |
| Spi.Bus.BurstByte | PDC/PDC_mainCode/PDC_BMP388.cpp:239 | byte `k` of a multi-byte read is the device's answer at offset `k` (auto-incremented address) |
| LittleEndian.UnsignedBound | PDC/PDC_mainCode/PDC_BMP388.cpp:243 | an n-byte little-endian unsigned value is below 256^n |
| LittleEndian.DecodeEncode | PDC/PDC_mainCode/PDC_BMP388.cpp:243 | decoding the n-byte encoding of any v < 256^n gives v back |
| LittleEndian.EncodeDecode | PDC/PDC_mainCode/PDC_BMP388.cpp:243 | encoding the decoded value of any byte string gives the same bytes back |
| LittleEndian.SignedIsNegative | src/PDC/PDC_LSM6DSO32.cpp:220 | a two's-complement value lies in [-256^n/2, 256^n/2) and is negative exactly when bit 7 of its last byte is set |
| LittleEndian.SignedRoundTrip | src/PDC/PDC_LSM6DSO32.cpp:220 | the signed decode of the two's-complement encoding of any representable v is v |
| LittleEndian.U16 | PDC/PDC_mainCode/PDC_BMP388.cpp:142 | `uint16_t((hi << 8) \| lo)` is below 2^16 |
| LittleEndian.U16IsUnsigned | PDC/PDC_mainCode/PDC_BMP388.cpp:142 | that cast is the little-endian unsigned value of [lo, hi] |
| LittleEndian.S16 | src/PDC/PDC_LSM6DSO32.cpp:220 | `int16_t((hi << 8) \| lo)` lies in [-32768, 32768) and is negative iff hi >= 0x80 |
| LittleEndian.S16IsSigned | PDC/PDC_mainCode/PDC_LSM6DSO32.cpp:51 | that cast is the two's-complement value of [lo, hi] |
| LittleEndian.S8 | PDC/PDC_mainCode/PDC_BMP388.cpp:154 | `int8_t(b)` lies in [-128, 128) and is negative iff b >= 0x80 |
| LittleEndian.S8IsSigned | PDC/PDC_mainCode/PDC_BMP388.cpp:154 | that cast is the two's-complement value of [b] |
| LittleEndian.U24 | PDC/PDC_mainCode/PDC_BMP388.cpp:243 | the three-byte concatenation is below 2^24 |
| LittleEndian.U24IsUnsigned | PDC/PDC_mainCode/PDC_BMP388.cpp:243 | the concatenation is the little-endian unsigned value of [b0, b1, b2] |
| Noise.KeptExactly | src/PDC/PDC_LSM6DSO32.cpp:290-300 | a reading is kept if and only if it was taken and lies within the threshold of the target |
| Noise.KeptAppend | src/PDC/PDC_LSM6DSO32.cpp:287-300 | one more reading extends the kept readings by that reading if it is accepted, and by nothing otherwise |
| Noise.WelfordStart | src/PDC/PDC_LSM6DSO32.cpp:272-274 | the initial mean 0 and sum 0 are the mean and scatter of no readings |
| Noise.WelfordAppend | src/PDC/PDC_LSM6DSO32.cpp:297-299 | consuming one more kept reading is one more Welford update of (mean, sum) |
| Noise.WelfordIsMeanAndScatter | src/PDC/PDC_LSM6DSO32.cpp:297-299 | after any kept readings, Welford's pair is exactly their arithmetic mean and sum of squared deviations |
| Noise.WelfordStep | PDC/PDC_mainCode/PDC_LSM6DSO32.cpp:179-181 | one update turns the mean and scatter of xs into those of xs + [x], and the scatter never shrinks |
| Noise.ConstantHasNoScatter | src/PDC/PDC_LSM6DSO32.cpp:309 | equal readings give a zero sum, hence zero noise |
| Noise.ScatterNonNegative | src/PDC/PDC_LSM6DSO32.cpp:309 | the sum the square root is taken of is never negative |
| Noise.ScatterPositive | src/PDC/PDC_LSM6DSO32.cpp:309 | readings that are not all equal give a positive sum, hence a positive noise |
| Noise.ScatterPositiveExactly | src/PDC/PDC_LSM6DSO32.cpp:309 | the sum is positive if and only if some two readings differ |
| Noise.ScatterGrowsStrictly | src/PDC/PDC_LSM6DSO32.cpp:297-298 | a kept reading away from the current mean makes the sum grow strictly |
| Bmp388.Unpack | PDC/PDC_mainCode/PDC_BMP388.cpp:68-96 | the three codes are `(w >> 16) & 255`, `(w >> 8) & 255` and `w & 255` of the configuration word (its round trips are the two rows below) |
| Bmp388.UnpackDropsTopByte | PDC/PDC_mainCode/PDC_BMP388.cpp:68 | unpacking a configuration word keeps exactly its low 24 bits: bits 31:24 are ignored |
| Bmp388.UnpackConfigWord | PDC/PDC_mainCode/PDC_BMP388.cpp:68-96 | the frequency, pressure and temperature codes come back from bits 23:16, 15:8 and 7:0 |
| Bmp388.OutputFrequency | PDC/PDC_mainCode/PDC_BMP388.cpp:72-88 | the recorded rate is non-negative, and positive exactly for codes 0..13 (0 for any other code) |
| Bmp388.OutputFrequencyDecreasing | PDC/PDC_mainCode/PDC_BMP388.cpp:72-86 | the 14 rates 200 Hz .. 0.01 Hz fall strictly as the code rises |
| Bmp388.OdrAliases | PDC/PDC_mainCode/PDC_BMP388.h:91-104 | ALT_ODR_200 .. ALT_ODR_0p01 are the codes 0..13 in order and select the rates they name |
| Bmp388.Oversampling | PDC/PDC_mainCode/PDC_BMP388.cpp:100-119 | the recorded oversampling is 2^code for codes 0..5 and 0 for every other code |
| Bmp388.OsrByte | PDC/PDC_mainCode/PDC_BMP388.cpp:97 | for codes below 8, bits 2:0 of the OSR byte give back the pressure code and bits 5:3 the temperature code |
| Bmp388.RawParamDecodes | PDC/PDC_mainCode/PDC_BMP388.cpp:141-225 | each parameter's cast is the little-endian decode of its width and signedness: T1, T2, P5, P6 unsigned 16-bit; P1, P2, P9 signed 16-bit; the rest signed 8-bit from byte 0 |
| Bmp388.DivisorIsPowerOfTwo | PDC/PDC_mainCode/PDC_BMP388.cpp:143-223 | each `pow(2, e)` divisor is 2^e for the parameter's exponent |
| Bmp388.CoefficientScales | PDC/PDC_mainCode/PDC_BMP388.cpp:143-223 | multiplying a stored coefficient back by 2^e restores the raw value minus its offset (2^14 for P1 and P2) |
| Bmp388.CalibrationValueDecodesBurst | PDC/PDC_mainCode/PDC_BMP388.cpp:141-223 | the stored value is the scaled little-endian decode of that parameter's read burst |
| Bmp388.CalibrationValue | PDC/PDC_mainCode/PDC_BMP388.cpp:141-223 | the value stored for a parameter: its raw cast of the two bytes of its burst, scaled by the parameter's power of two (the row above decodes it) |
| Bmp388.CalibrationReadsFollowOrder | PDC/PDC_mainCode/PDC_BMP388.cpp:141-221 | there are 14 calibration reads and the j-th reads the j-th parameter of T1..T3, P1..P11 |
| Bmp388.Altimeter.constructor | PDC/PDC_mainCode/PDC_BMP388.h:125-130 | stores the chip-select pin and starts with output frequency 0 |
| Bmp388.Altimeter.IsAlive | PDC/PDC_mainCode/PDC_BMP388.cpp:17-30 | true exactly when register 0x00, read with the dummy byte, holds 0x50 |
| Bmp388.Altimeter.Restart | PDC/PDC_mainCode/PDC_BMP388.cpp:35-45 | writes 0xB6 to CMD, then 0b00110011 to PWR_CTRL, and nothing else |
| Bmp388.Altimeter.AddressSet | PDC/PDC_mainCode/PDC_BMP388.cpp:51-54 | records the pressure address, and the temperature address is three above it modulo 256 |
| Bmp388.Altimeter.Init | PDC/PDC_mainCode/PDC_BMP388.cpp:65-124 | records the decoded rate and both oversamplings, writes ODR then OSR, then performs the 14 calibration reads and loads every parameter |
| Bmp388.Altimeter.Configure | PDC/PDC_mainCode/PDC_BMP388.cpp:66-121 | the frequency byte itself goes to ODR (0x1D), unmasked and unvalidated, and the packed oversampling byte goes to OSR |
| Bmp388.Altimeter.ReadParameter | PDC/PDC_mainCode/PDC_BMP388.cpp:141-145 | one parameter block: one read burst, the stored value decoded from it, and both scratch bytes zeroed |
| Bmp388.Altimeter.LoadTemperatureParameters | PDC/PDC_mainCode/PDC_BMP388.cpp:140-157 | T1, T2, T3 land in temperature entries 0..2 from three consecutive bursts |
| Bmp388.Altimeter.LoadPressureParameters1To4 | PDC/PDC_mainCode/PDC_BMP388.cpp:161-183 | P1..P4 land in pressure entries 0..3, and the other entries are unchanged |
| Bmp388.Altimeter.LoadPressureParameters5To8 | PDC/PDC_mainCode/PDC_BMP388.cpp:185-207 | P5..P8 land in pressure entries 4..7, and the other entries are unchanged |
| Bmp388.Altimeter.LoadPressureParameters9To11 | PDC/PDC_mainCode/PDC_BMP388.cpp:209-225 | P9..P11 land in pressure entries 8..10, and the other entries are unchanged |
| Bmp388.Altimeter.LoadPressureParameters | PDC/PDC_mainCode/PDC_BMP388.cpp:159-225 | P1..P11 land in pressure entries 0..10 from eleven consecutive bursts, read in order |
| Bmp388.Altimeter.GetCompensationParams | PDC/PDC_mainCode/PDC_BMP388.cpp:129-226 | 14 bursts, in datasheet order; every entry of both arrays holds its parameter's decoded value |
| Bmp388.Altimeter.ReadValue | PDC/PDC_mainCode/PDC_BMP388.cpp:233-246 | the result is the little-endian value of the three bytes read at the address, below 2^24 |
| Bmp388.Altimeter.ReadTemp | PDC/PDC_mainCode/PDC_BMP388.cpp:291-298 | reads the three temperature bytes at the temperature address |
| Bmp388.Altimeter.ReadPress | PDC/PDC_mainCode/PDC_BMP388.cpp:252-263 | reads the temperature block first and then the pressure block, one burst each |
| ImuChild.ControlByte | src/PDC/PDC_LSM6DSO32.cpp:159-162 | for range < 8 and frequency < 16, bit 0 is clear, bits 3:1 give back the range and bits 7:4 the frequency |
| ImuChild.Frequency | src/PDC/PDC_LSM6DSO32.cpp:165-178 | the recorded rate is non-negative, and positive exactly for codes 1..10 (codes 0 and unknown give 0) |
| ImuChild.FrequencyIncreasing | src/PDC/PDC_LSM6DSO32.cpp:165-176 | the rates 0, 12.5, …, 6660 Hz rise strictly with the code |
| ImuChild.AccelerometerRange | src/PDC/PDC_LSM6DSO32.cpp:182-188 | nonzero exactly for codes 0, 2, 4, 6, with values in {4, 8, 16, 32} g |
| ImuChild.GyroscopeRange | src/PDC/PDC_LSM6DSO32.cpp:190-197 | nonzero exactly for codes 0, 1, 2, 4, 6, with values in {125, 250, 500, 1000, 2000} dps |
| ImuChild.RangeTablesInjective | src/PDC/PDC_LSM6DSO32.cpp:180-198 | two codes never record the same nonzero range |
| ImuChild.RecordedRange | src/PDC/PDC_LSM6DSO32.cpp:180-198 | the range `init` records: the accelerometer table for kind 0, the gyroscope table for kind 1, and the previous range for any other kind |
| ImuChild.Resolution | src/PDC/PDC_LSM6DSO32.cpp:202 | milli-units per bit: 32768 bits span the range, so resolution · 32768 = range · 1000 |
| ImuChild.Measured | src/PDC/PDC_LSM6DSO32.cpp:222 | `(float(raw) / 1000) * resolution` in exact arithmetic (its full-scale meaning is the next row) |
| ImuChild.FullScale | src/PDC/PDC_LSM6DSO32.cpp:202-222 | scaled by its resolution, a raw value is raw·range/32768, within [-range, range], and the most negative raw value is exactly -range |
| ImuChild.Consider | src/PDC/PDC_LSM6DSO32.cpp:290-299 | after one reading, the index is the number of kept readings and (mean, sum) is Welford's pair of the kept readings; a rejected reading changes neither |
| ImuChild.OnTimeBeforeAll | src/PDC/PDC_LSM6DSO32.cpp:303-305 | a loop that did not break has seen no timeout at any earlier clock reading |
| ImuChild.Elapsed | src/PDC/PDC_LSM6DSO32.cpp:303 | `millis() - startTime` as a `uint32_t`: the difference taken modulo 2^32 (the next row proves it is the true elapsed time, also across one wrap) |
| ImuChild.ElapsedAcrossWrap | src/PDC/PDC_LSM6DSO32.cpp:303 | `millis() - startTime` in 32-bit arithmetic is the true elapsed time, also across one wrap of the clock |
| ImuChild.RestartCommand | src/PDC/PDC_LSM6DSO32.cpp:33 | the command as written is 1 (bit 7 clear), while the byte the comment describes is 0x81 |
| ImuChild.LogFileLine.constructor | src/PDC/PDC_logFile.h:8-10 | the three accelerometer fields of the global log record |
| ImuChild.Imu.constructor | src/PDC/headers.h:15 | stores the chip-select pin it is given, the one every whole-chip transfer addresses |
| ImuChild.Imu.IsAlive | src/PDC/PDC_LSM6DSO32.cpp:15-27 | true exactly when WHO_AM_I holds the expected value; one plain read |
| ImuChild.Imu.Restart | src/PDC/PDC_LSM6DSO32.cpp:32-37 | the only transfer is a write of the byte 1 to CTRL3_C |
| ImuChild.Imu.RestartCorrected | src/PDC/PDC_LSM6DSO32.cpp:33-35 | the only transfer is a write of 0x81 (reboot memory and software reset) to CTRL3_C |
| ImuChild.Child.constructor | src/PDC/PDC_LSM6DSO32.cpp:131 | stores the chip-select pin it is given, with the register map and the log record |
| ImuChild.Child.AddressSet | src/PDC/PDC_LSM6DSO32.cpp:138-151 | y is x+2 and z is x+4 modulo 256; the device kind is 0 for the accelerometer control register, 1 for the gyroscope one, and unchanged otherwise |
| ImuChild.Child.Init | src/PDC/PDC_LSM6DSO32.cpp:158-203 | writes the packed byte to the control register whatever the codes; records the table frequency, the range from the kind's table (unchanged for an unknown kind), and the resolution of that range |
| ImuChild.Child.ReadValue | src/PDC/PDC_LSM6DSO32.cpp:210-225 | the result is the signed 16-bit little-endian value of the two bytes read, scaled by the resolution |
| ImuChild.Child.ReadX | src/PDC/PDC_LSM6DSO32.cpp:231-237 | reads the x address and stores the value in `accelerometerX` of the log record, even for the gyroscope child |
| ImuChild.Child.ReadY | src/PDC/PDC_LSM6DSO32.cpp:243-249 | reads the y address and stores the value in `accelerometerY` |
| ImuChild.Child.ReadZ | src/PDC/PDC_LSM6DSO32.cpp:255-261 | reads the z address and stores the value in `accelerometerZ` |
| ImuChild.Child.NextNoiseZ | src/PDC/PDC_LSM6DSO32.cpp:287-299 | one pass reads z once, logs it, and keeps the index and Welford's pair in step with the kept readings |
| ImuChild.Child.CheckTimeout | src/PDC/PDC_LSM6DSO32.cpp:302-305 | the loop breaks exactly when the `uint32_t` difference between this clock reading and the start exceeds 10000 ms |
| ImuChild.Child.NoisePass | src/PDC/PDC_LSM6DSO32.cpp:284-305 | one whole pass: one logged z read stored in the log record, the index and Welford's pair kept in step with the kept readings, and the timeout flag set exactly as the control decides |
| ImuChild.Child.CollectNoiseZ | src/PDC/PDC_LSM6DSO32.cpp:280-306 | one logged read of z per reading; the loop ends with `accepted` kept readings, on a timeout, or when the supplied clock readings run out; before every reading taken, fewer than `accepted` were kept and no timeout had been seen; (mean, sum) is Welford's pair of the kept readings; the log record holds the last reading |
| ImuChild.Child.MeasureNoiseZ | src/PDC/PDC_LSM6DSO32.cpp:268-315 | one logged read of z per reading; keeps at most 49 readings within 0.3/g of 1 g; takes no reading once 49 are kept or after a timeout; returns their scatter divided by 50 (the square of the result); the log record holds the last reading |
| ImuChild.Child.MeasureNoiseZCorrected | src/PDC/PDC_LSM6DSO32.cpp:268-315 | the same loop, taking no reading once 50 are kept; a run that is not cut short returns the population variance of those 50 |
| ImuChild.NoiseDivisorUnderstates | src/PDC/PDC_LSM6DSO32.cpp:283-309 | with 49 kept readings, dividing by 50 never exceeds the population variance, and is strictly below it exactly when some two readings differ |
| Lsm6dso32.RangeBits | PDC/PDC_mainCode/PDC_LSM6DSO32.cpp:70-87 | a code exists exactly for 4, 8, 16 and 32 g and fits bits 3:2 |
| Lsm6dso32.RangeBitsRoundTrip | PDC/PDC_mainCode/PDC_LSM6DSO32.cpp:70-82 | the bits decode back to the range, and distinct ranges get distinct bits |
| Lsm6dso32.RangeEncodingsAgree | PDC/PDC_mainCode/PDC_LSM6DSO32.cpp:70-82 | for every supported range, the two-child accelerometer table maps the same field back to that range |
| Lsm6dso32.Truncate16 | PDC/PDC_mainCode/PDC_LSM6DSO32.cpp:89 | the `uint16_t` conversion rounds toward zero: below 2^16, the floor for non-negative input, 0 for input in (-1, 0) |
| Lsm6dso32.FrequencySwitch | PDC/PDC_mainCode/PDC_LSM6DSO32.cpp:89-93 | the switch value fits 16 bits and is the whole part of a non-negative request (12.5 Hz gives 12) |
| Lsm6dso32.FrequencyBits | PDC/PDC_mainCode/PDC_LSM6DSO32.cpp:97-135 | a code exists exactly for switch values 0, 12, 26, …, 6660 and is at most 10 |
| Lsm6dso32.FrequencyBitsNearRequest | PDC/PDC_mainCode/PDC_LSM6DSO32.cpp:89-135 | an accepted request is within 1 Hz of the rate its code selects, and for a non-negative request never below it except for the 12.5 Hz entry |
| Lsm6dso32.Ctrl1Xl | PDC/PDC_mainCode/PDC_LSM6DSO32.cpp:62-134 | bits 1:0 of CTRL1_XL are clear, and bits 3:2 and 7:4 give back the range and frequency codes |
| Lsm6dso32.AccelerationIsScaledRaw | PDC/PDC_mainCode/PDC_LSM6DSO32.cpp:43-55 | an acceleration is the two's-complement value of the two bytes read at 0x2C, times range/32768, times g |
| Lsm6dso32.Imu.constructor | PDC/PDC_mainCode/PDC_LSM6DSO32.h:17-19 | stores the chip-select pin only |
| Lsm6dso32.Imu.IsAlive | PDC/PDC_mainCode/PDC_LSM6DSO32.cpp:8-27 | true exactly when register 0x0F holds 0b01101100; one plain read |
| Lsm6dso32.Imu.ReadAccelerationZ | PDC/PDC_mainCode/PDC_LSM6DSO32.cpp:30-57 | one two-byte read at 0x2C, decoded and scaled by the recorded range's resolution and g |
| Lsm6dso32.Imu.SetupAccelerometer | PDC/PDC_mainCode/PDC_LSM6DSO32.cpp:60-146 | errors exactly when the range or the rate is unsupported, and then nothing is written and both fields are unchanged; otherwise exactly one write of the encoded byte to 0x10, and both fields take the inputs |
| Lsm6dso32.Imu.NextAccelerationZ | PDC/PDC_mainCode/PDC_LSM6DSO32.cpp:167-181 | one pass reads z once and keeps the index and Welford's pair in step with the kept readings |
| Lsm6dso32.Imu.CollectAccelerationZ | PDC/PDC_mainCode/PDC_LSM6DSO32.cpp:164-183 | one logged read of OUTZ per reading; the loop ends once `accepted` readings within 0.3 m/s² of g are kept (or after `budget` readings), and before every reading taken fewer than `accepted` were kept; (mean, sum) is Welford's pair of the kept readings |
| Lsm6dso32.Imu.MeasureAccelerometerNoiseZ | PDC/PDC_mainCode/PDC_LSM6DSO32.cpp:149-193 | one logged read per reading; keeps at most 49 readings and takes no reading once 49 are kept (or after `budget` readings); returns their scatter divided by 50 (the square of the result) |
| Lsm6dso32.Imu.MeasureAccelerometerNoiseZCorrected | PDC/PDC_mainCode/PDC_LSM6DSO32.cpp:149-193 | the same loop, one logged read per reading and no reading once 50 are kept; a run that keeps 50 returns their population variance |
| Timer1.Ocr | PDC/PDC_mainCode/headers.cpp:48 | the stored compare value fits 16 bits |
| Timer1.FinalConfiguration | PDC/PDC_mainCode/headers.cpp:24-45 | the final bytes select CTC mode (WGM 4), toggle OC1A on compare match, and count the undivided clock |
| Timer1.OcrInBand | PDC/PDC_mainCode/headers.cpp:48 | for 5 kHz..8 MHz the divisor is nonzero, the compare value is 16000000/(2f) - 1, and it lies in [0, 1599], so nothing wraps |
| Timer1.NeverUndershoots | PDC/PDC_mainCode/headers.cpp:41-48 | for 1 Hz..8 MHz the produced frequency 16 MHz/(2(1+OCR1A)) is at least the request |
| Timer1.ExactForDivisors | PDC/PDC_mainCode/headers.cpp:41-48 | in the band, a request whose half-period divides 16 MHz is produced exactly |
| Timer1.Timer.SetClockOC1A | PDC/PDC_mainCode/headers.cpp:7-49 | OC1A becomes an output; TCCR1A ends as 0x40, TCCR1B as 0x09, and OCR1A holds the 16-bit compare value |
| Tsl1401ccs.AliasesWithinBand | PDC/PDC_mainCode/PDC_TSL1401CCS.h:24-37 | the aliases rise strictly from CLK_MIN to CLK_MAX, all lie in the band, and the timer produces each exactly |
| Tsl1401ccs.AcceptedIsSafe | PDC/PDC_mainCode/PDC_TSL1401CCS.cpp:17-21 | an accepted frequency never divides by zero in the timer setup, needs no 16-bit truncation, and is never undershot |
| Tsl1401ccs.LpaGroup.constructor | PDC/PDC_mainCode/PDC_TSL1401CCS.h:55-59 | stores SI, CLK and AO in `serialIn`, `clockPin` and `analogOut` |
| Tsl1401ccs.Accepted | PDC/PDC_mainCode/PDC_TSL1401CCS.cpp:11-19 | the two guards of `startClockOC1A`: the clock pin is OC1A and the frequency lies within 5 kHz..8 MHz |
| Tsl1401ccs.LpaGroup.StartClockOC1A | PDC/PDC_mainCode/PDC_TSL1401CCS.cpp:10-25 | returns 0 exactly when the clock pin is OC1A and 5000 <= f <= 8000000, and 1 otherwise; on error the frequency field and the timer are untouched; on success the timer is programmed for f and f is recorded |

## Left out

- The SPI transport (`readSPI`, `readSPIwithDummy`, `writeSPI`) is foreign bus I/O. It is modelled only as the `Spi.Bus` answer oracle, a burst counter and a ghost log. The three-argument `readSPI` prototype in `PDC/PDC_mainCode/PDC_SPI.h` does not match its four-argument calls; the model follows the calls.
- SD-card logging (`PDC_254`) and the remaining fields of the log record are not modelled.
- Floating-point numerics are not modelled:
  - The compensation polynomials of `readTemp`/`readPress` and the `pow(…, 0.190295)` altitude of `readAltitude` are left out. Only the raw reads they start with are modelled.
  - The `pow(…, 0.5)` of the noise measurements is left out. The model returns the square of the standard deviation.
  - `selfTest` (float band checks on the self-test deltas) is left out.
- Arithmetic the drivers do in `float` is exact `real` arithmetic here: calibration scaling, resolution, measured values, and Welford's updates.
- `delay`, `millis`, `pinMode` and `Serial.println` are hardware timing and I/O:
  - `delay` and `Serial.println` have no effect in the model;
  - `millis()` readings are a parameter (the `clock` sequence);
  - `pinMode(OC1A_PIN, OUTPUT)` is the `oc1aIsOutput` flag of `Timer1.Timer`.
- Constants defined in headers outside this model are parameters rather than invented values:
  - the BMP388 OSR, CMD, PWR_CTRL and NVM calibration registers (`Bmp388.Registers`);
  - the two LSM6DSO32 child control registers, CTRL3_C, WHO_AM_I and its value (`ImuChild.ImuRegisters`);
  - `IMU_SS` (a constructor argument);
  - `GRAVITY_MAGNITUDE` (a `gravity` argument).
- `OC1A_PIN = 9` is taken from `src/PDC/headers.h:23`. The main-code `headers.h` declares no value for it.
- The BMP388 header declares `init(uint8_t f)`, `readPressure()`, a float `readValue` and x/y/z address fields that the .cpp does not use. The model follows the .cpp.
- The main-code LSM6DSO32 header declares `measureAccelerometerNoiseZ(uint8_t numReadings)`, but the .cpp takes no argument and uses 50. The model follows the .cpp.
- `IMUChild::selfTest` and the `PDC_IMU` draft class are not modelled.
- ImuChild.Child.constructor: the source's `IMUChild::slaveSelect` is one static member set to `IMU_SS` and shared by both children. The model gives each child its own constant pin, so it does not state that the two children use the same pin.
- Bmp388.Altimeter.GetCompensationParams: split into four loader methods (T1–T3, P1–P4, P5–P8, P9–P11). This only keeps each proof small; the reads, stores and scratch clearing are those of the source.
- ImuChild.Child.MeasureNoiseZ: the source loops until it has enough readings or times out. The model also stops when the supplied `clock` readings run out, so a run that neither finishes nor times out within them is cut short.
- Lsm6dso32.Imu.MeasureAccelerometerNoiseZ: the source has no way out of the loop other than enough accepted readings. The model also stops after `budget` readings, and its contract states what holds at either exit.
- Lsm6dso32.Imu.SetupAccelerometer: requires -1 < `outputFrequency` < 65536, because converting a float outside that range to `uint16_t` is undefined in C.
- Timer1.Ocr: requires 2·clkFrq to be nonzero modulo 2^32. A zero divisor is undefined in C, and the source has no guard against it.

## Findings

| source | as written | input that shows it | evidently intended | confidence | as-written member | corrected member |
|---|---|---|---|---|---|---|
| src/PDC/PDC_LSM6DSO32.cpp:33 | `1 \|\| 1 << 7` is a logical OR, so the restart command is the byte 1 | any call of `restart`: CTRL3_C receives 0x01, and the reboot-memory bit 7 is not set | `1 \| 1 << 7` = 0x81, setting bits 7 and 0 as the comment says | high, not executed | ImuChild.Imu.Restart, ImuChild.RestartCommand | ImuChild.Imu.RestartCorrected |
| src/PDC/PDC_LSM6DSO32.cpp:269-309 | the index runs from 1 while below 50, so at most 49 readings are kept, yet the scatter is divided by 50 | 49 kept readings that are not all equal: the result is 49/50 of the population variance | keep as many readings as the divisor counts (50 readings, divided by 50) | medium, not executed | ImuChild.Child.MeasureNoiseZ, ImuChild.NoiseDivisorUnderstates | ImuChild.Child.MeasureNoiseZCorrected |
| PDC/PDC_mainCode/PDC_LSM6DSO32.cpp:151-186 | the same loop keeps 49 accelerations but divides their scatter by 50 | 49 kept readings that are not all equal: the result is 49/50 of the population variance | 50 readings, divided by 50 | medium, not executed | Lsm6dso32.Imu.MeasureAccelerometerNoiseZ, ImuChild.NoiseDivisorUnderstates | Lsm6dso32.Imu.MeasureAccelerometerNoiseZCorrected |
