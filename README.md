# BME280 compensation firmware, modelled in Dafny

This project models the host side of an ESP32 firmware that reads a Bosch BME280 temperature, pressure and humidity sensor. A low-power coprocessor samples the sensor and leaves the raw register bytes in retained memory. The main core then wakes and does three things:

- it assembles the 20-bit temperature and pressure codes and the 16-bit humidity code;
- it compensates them with the fixed-point formulas of section 4.2.3 of the BME280 datasheet;
- it goes back to deep sleep.

On a cold boot it instead reads the sensor's trimming parameters (the calibration struct) and starts the coprocessor.

Files:

- `fixed_point.dfy` (module `FixedPoint`) writes out the C integer semantics the formulas rely on:
  - the fixed-width integer types;
  - two's-complement wrap-around of int32 and int64 operations;
  - `>>` on signed values as a flooring (arithmetic) shift;
  - `<<` as a wrapped multiplication;
  - C's truncating `/`;
  - the `(int16_t)` and `(int8_t)` reinterpretation casts.
- `wrappers.dfy` (module `Wrappers`) holds the `Option` type.
- `calibration.dfy` (module `Calibration`) has three parts:
  - the `bme280_calib_data` struct, as `CalibData`;
  - the byte decoder of `read_calibration_bme280`, with its inverse (the register image of a struct) and both round trips;
  - a model of the two bus reads into the humidity buffer.
- `bme280.dfy` (module `Bme280`) has three parts:
  - the three compensation formulas as functions;
  - the driver's module state (`calib` and `t_fine`) as the fields of class `Sensor`, whose methods are the driver's functions: each method says which field it writes;
  - the datasheet's worked example, computed exactly.
- `app.dfy` (module `App`) has two parts:
  - the ADC-code assembly from the retained slots;
  - both branches of `app_main`, with the calls it makes in order.

Every int32 or int64 operation that can overflow wraps explicitly, although C leaves signed overflow undefined. `>>` floors: the worked example needs this, because `-6076000 >> 14` is -371 where truncation would give -370. The one division, at main/bme280.cpp:57, truncates towards zero.

## Model

| member | source | states |
|---|---|---|
| FixedPoint.Wrap32 | main/bme280.cpp:36-43 | the int32 the machine holds equals x modulo 2^32, and equals x whenever x is in range |
| FixedPoint.Wrap64 | main/bme280.cpp:45-62 | the int64 the machine holds equals x modulo 2^64, and equals x whenever x is in range |
| FixedPoint.ToU32 | main/bme280.cpp:61 | the cast to uint32_t equals x modulo 2^32, and leaves values already in range unchanged |
| FixedPoint.Sar | main/bme280.cpp:38-39 | `x >> n` is the floor of x / 2^n: `r*2^n <= x < (r+1)*2^n`, non-negative for non-negative x, and negative and no smaller than x for negative x |
| FixedPoint.DivisionBounds | main/bme280.cpp:38-39 | the Euclidean quotient by a positive divisor lies between the floor bounds, with the sign bounds above |
| FixedPoint.ScaleBounds | main/bme280.cpp:38-39 | multiplying by a positive d moves a non-negative q away from zero and a negative q to at most q+1-d |
| FixedPoint.Pow2 | main/bme280.cpp:49-52 | every shift factor is at least 1 |
| FixedPoint.Pow2Add | main/bme280.cpp:49-52 | shift factors compose: 2^(a+b) = 2^a * 2^b |
| FixedPoint.Pow2Values | main/bme280.cpp:38-77 | the factors of every shift count used by the formulas |
| FixedPoint.TruncDiv | main/bme280.cpp:57 | C `/` truncates: the remainder has the dividend's sign and is smaller in magnitude than the divisor |
| FixedPoint.Abs | main/bme280.cpp:57 | the magnitude is x or -x |
| FixedPoint.Add32 | main/bme280.cpp:40 | int32 addition is exact when the sum fits |
| FixedPoint.Sub32 | main/bme280.cpp:38-39 | int32 subtraction is exact when the difference fits |
| FixedPoint.Mul32 | main/bme280.cpp:38-39 | int32 multiplication is exact when the product fits |
| FixedPoint.Shl32 | main/bme280.cpp:38 | an int32 `<<` multiplies by 2^n when the result fits |
| FixedPoint.Add64 | main/bme280.cpp:49-50 | int64 addition is exact when the sum fits |
| FixedPoint.Sub64 | main/bme280.cpp:47 | int64 subtraction is exact when the difference fits |
| FixedPoint.Mul64 | main/bme280.cpp:48 | int64 multiplication is exact when the product fits |
| FixedPoint.Shl64 | main/bme280.cpp:49-50 | an int64 `<<` multiplies by 2^n when the result fits |
| FixedPoint.Div64 | main/bme280.cpp:57 | the int64 quotient is the truncated quotient whenever that fits |
| FixedPoint.ToSigned16 | main/bme280.cpp:89 | the `(int16_t)` cast keeps the value modulo 2^16, and is non-negative exactly when the top bit is clear |
| FixedPoint.FromSigned16 | main/include/bme280.h:12 | the stored 16-bit pattern of a signed field reads back as that field |
| FixedPoint.ToSigned8 | main/bme280.cpp:110 | the `(int8_t)` cast keeps the value modulo 2^8, and is non-negative exactly when the top bit is clear |
| FixedPoint.FromSigned8 | main/include/bme280.h:28 | the stored byte of dig_H6 reads back as dig_H6 |
| FixedPoint.SignedRoundTrip16 | main/bme280.cpp:89 | the reinterpretation is a bijection on 16-bit patterns |
| Calibration.TrimWords | main/include/bme280.h:10-22 | the twelve temperature and pressure words, in register order |
| Calibration.U16Le | main/bme280.cpp:88 | `hi << 8 \| lo` has lo as its low byte and hi as its high byte |
| Calibration.I16Le | main/bme280.cpp:89 | the signed word is the little-endian pattern modulo 2^16 |
| Calibration.PackH4 | main/bme280.cpp:108 | dig_H4 lies in [0, 4096); its upper 8 bits are hum[4] and its low nibble is the low nibble of hum[5] |
| Calibration.PackH5 | main/bme280.cpp:109 | dig_H5 lies in [0, 4096); its upper 8 bits are hum[6] and its low nibble is the high nibble of hum[5] |
| Calibration.DecodeCalibration | main/bme280.cpp:88-110 | the decoded struct always has dig_H4 and dig_H5 in [0, 4096); field widths and signedness are those of the struct |
| Calibration.EncodeTrim | main/bme280.cpp:88-100 | the register image of the twelve words is 24 bytes |
| Calibration.EncodeHumidity | main/bme280.cpp:105-110 | the register image of the six humidity fields is 8 bytes |
| Calibration.DecodedWord | main/bme280.cpp:88-100 | field k of the decoded struct is the little-endian word at bytes 2k and 2k+1, unsigned for T1 and P1 and signed otherwise |
| Calibration.TrimWordRange | main/include/bme280.h:11-22 | dig_T1 and dig_P1 lie in [0, 65536); the other ten words lie in [-32768, 32768) |
| Calibration.SameFields | main/include/bme280.h:10-29 | two structs with the same twelve words and six humidity fields are equal |
| Calibration.DecodeEncode | main/bme280.cpp:88-110 | decoding the register image of any struct the decoder can produce gives that struct back, whatever the two trailing bytes of the 0x88 block hold |
| Calibration.WordRoundTrip | main/bme280.cpp:88-100 | the word the decoder reads from an encoded block is the encoded word |
| Calibration.EncodeDecode | main/bme280.cpp:88-110 | re-encoding a decoded struct gives back every byte the decoder reads |
| Calibration.ByteRoundTrip | main/bme280.cpp:88-100 | each of the 24 trim bytes survives decoding and re-encoding |
| Calibration.HumidityBytesRoundTrip | main/bme280.cpp:105-110 | the 8 humidity bytes survive decoding and re-encoding, including the shared nibbles of hum[5] |
| Calibration.DecodedWordsAreLittleEndian | main/bme280.cpp:88-100 | word k is `b[2k+1]*256 + b[2k]` modulo 2^16; equal to it for T1 and P1; and a signed word is negative exactly when b[2k+1] >= 0x80 |
| Calibration.DecodedHumidityLayout | main/bme280.cpp:105-110 | H1 = hum[0]; H2 is the little-endian word of hum[1..2]; H3 = hum[3]; H4 = hum[4]*16 + (hum[5] & 0xF); H5 = hum[6]*16 + (hum[5] >> 4); and H6 is hum[7] modulo 2^8 |
| Calibration.ReservedTrimBytesIgnored | main/bme280.cpp:86-100 | only the first 24 of the 26 bytes read from 0x88 affect the struct |
| Calibration.StoreRead | main/bme280.cpp:102-103 | a bus read into a buffer succeeds exactly when it fits; it then places the data at the offset and changes no other byte |
| Calibration.FillHumidityBuffer | main/bme280.cpp:84-103 | the two humidity reads fit exactly when the buffer has at least 8 bytes, and they then fill bytes 0..7 with the 0xA1 byte followed by the seven 0xE1 bytes |
| Calibration.DeclaredHumidityBufferOverflows | main/bme280.cpp:84-103 | with the declared 7-byte buffer the 7-byte read at offset 1 does not fit |
| Calibration.HumidityBufferHoldsBothReads | main/bme280.cpp:102-110 | with 8 bytes the buffer holds exactly both reads, and byte 7 (the dig_H6 byte) is register 0xE7 |
| Bme280.TFine | main/bme280.cpp:38-40 | computes t_fine = var1 + var2 with int32 wrap-around and flooring shifts; its meaning is fixed by TFineWithoutOverflow and the worked examples |
| Bme280.TFineExact | main/bme280.cpp:38-40 | the reference formula for t_fine over unbounded integers, shifts as floor divisions, against which TFineWithoutOverflow checks the int32 computation |
| Bme280.CentiCelsius | main/bme280.cpp:41 | away from int32 overflow, the temperature is t_fine * 5 / 256 rounded to nearest |
| Bme280.TFineWithoutOverflow | main/bme280.cpp:38-40 | when no int32 product overflows, the int32 t_fine equals the datasheet formula over unbounded integers with floored shifts |
| Bme280.CentiCelsiusMonotonic | main/bme280.cpp:41 | the temperature never decreases as t_fine grows |
| Bme280.PressureOffset | main/bme280.cpp:47-50 | computes var2 after line 50: `(t_fine-128000)^2 * P6 + ((t_fine-128000) * P5 << 17) + (P4 << 35)` in wrapped int64 |
| Bme280.PressureDivisor | main/bme280.cpp:47-52 | computes var1 after line 52, the divisor the guard of line 54 tests: `((2^47 + ((var1^2 * P3) >> 8) + ((var1 * P2) << 12)) * P1) >> 33` in wrapped int64 |
| Bme280.Pressure | main/bme280.cpp:52-54 | when the scaled divisor var1 is 0 the result is 0 |
| Bme280.ZeroP1GivesZeroPressure | main/bme280.cpp:52-54 | dig_P1 = 0 makes the divisor 0, so the pressure is 0 for every t_fine and adc_P |
| Bme280.HumidityLadder | main/bme280.cpp:66-74 | computes v_x1_u32r before the clamp of lines 75-76, every int32 operation wrapping and every shift flooring |
| Bme280.Humidity | main/bme280.cpp:75-77 | the result lies in [0, 102400]; a negative pre-clamp value gives 0; a value above 419430400 gives 102400; otherwise the result is the pre-clamp value divided by 4096, rounded down |
| Bme280.Sensor.constructor | main/bme280.cpp:33-34 | a cold boot starts from an all-zero calib and t_fine = 0 |
| Bme280.Sensor.ReadCalibration | main/bme280.cpp:82-110 | writes only calib, and sets it to the decoding of the three reads (the humidity buffer has 8 bytes) |
| Bme280.Sensor.CompensateTemperature | main/bme280.cpp:36-43 | writes only t_fine, setting it to var1 + var2; returns `(t_fine*5 + 128) >> 8`; calib is unchanged |
| Bme280.Sensor.CompensatePressure | main/bme280.cpp:45-62 | changes no field, and returns the pressure formula of (calib, t_fine, adc_P) |
| Bme280.Sensor.CompensateHumidity | main/bme280.cpp:64-78 | changes no field, and returns the humidity formula of (calib, t_fine, adc_H), which is at most 102400 |
| Bme280.VendorTemperatureExample | main/bme280.cpp:38-41 | the datasheet calibration with adc_T = 519888 gives t_fine = 128422 and 2508 (25.08 degC) |
| Bme280.ShiftFloors | main/bme280.cpp:39 | the var2 step of the example needs a flooring shift: `-6076000 >> 14` is -371, truncation gives -370 |
| Bme280.VendorPressureExample | main/bme280.cpp:45-62 | at t_fine = 128422 the divisor is 597560748, var2 is 98104795527812, and adc_P = 415148 gives 25767233 (100653.25 Pa) |
| Bme280.VendorHumidityExample | main/bme280.cpp:64-77 | at t_fine = 128422, adc_H = 25386 gives the pre-clamp value 129819044 and the result 31694 |
| Bme280.WarmerSampleTemperature | main/bme280.cpp:38-40 | adc_T = 600000 gives t_fine = 256562 |
| Bme280.WarmerSamplePressure | main/bme280.cpp:45-62 | at t_fine = 256562, adc_P = 415148 gives 26759084 |
| Bme280.WarmerSampleHumidity | main/bme280.cpp:64-77 | at t_fine = 256562, adc_H = 25386 gives 33460 |
| Bme280.LatestTemperatureDecides | main/bme280.cpp:34-78 | pressure and humidity depend on the t_fine of the latest temperature call: the same adc_P and adc_H give different results after a different adc_T |
| App.BitOr | main/main.cpp:29-33 | `a \| b` is at most a + b |
| App.DisjointOrIsSum | main/main.cpp:29-33 | OR-ing a value below 2^k into a multiple of 2^k is addition |
| App.Adc20 | main/main.cpp:29-31 | for byte-valued slots the 20-bit code is `msb*4096 + lsb*16 + xlsb/16` and lies in [0, 2^20) |
| App.Adc20FieldsDisjoint | main/main.cpp:29-31 | the three OR-ed fields of a 20-bit code occupy disjoint bits |
| App.Adc16 | main/main.cpp:33 | for byte-valued slots the humidity code is `msb*256 + lsb` and lies in [0, 65536) |
| App.Adc16FieldsDisjoint | main/main.cpp:33 | the two OR-ed bytes of the humidity code occupy disjoint bits |
| App.DecodeRawSample | main/main.cpp:29-33 | for byte-valued slots, the three codes in arithmetic form, with their ranges |
| App.LowNibbleIgnored | main/main.cpp:29-31 | the low nibble of xlsb never affects a 20-bit code |
| App.AssemblyExample | main/main.cpp:29-31 | bytes 0x7E, 0xA0, 0x00 give 0x7EA00; bytes 0x7E, 0xED, 0x0F give 519888 |
| App.CompensateSample | main/main.cpp:38-41 | pressure and humidity use the t_fine of the same sample: humidity is at most 102400, and the pressure is 0 when that t_fine's divisor is 0 |
| App.VendorSampleBytes | main/main.cpp:29-33 | the example's retained bytes assemble to adc_T = 519888, adc_P = 415148 and adc_H = 25386 |
| App.VendorCycleExample | main/main.cpp:29-41 | from the example's retained bytes, a wake cycle yields 2508, 25767233 and 31694 |
| App.AppMain | main/main.cpp:18-55 | coprocessor wake: calib is kept; temperature is compensated before pressure and humidity; the reading is the sample compensated with the new t_fine. Other wake: calibration is read before the coprocessor starts and no compensation is made. Every wake starts with t_fine zeroed, since only calib is kept in RTC memory. Both branches arm the coprocessor wakeup and then enter deep sleep |
| App.ColdStartThenMeasure | main/main.cpp:14-55 | a cold boot followed by one wake reports the sample compensated with the calibration read at the cold boot |

## Left out

- The coprocessor program (main/ulp_bme280.cpp) is not part of this model. It is assembly for a different processor. Its one effect here is the retained slots, which are an input (`Mailbox`), and the fact that it stores one byte per slot (`SlotsAreBytes`).
- `i2c_master_init` and `i2c_read_bytes` are left out: they are driver calls. Their results are inputs, and their return values are ignored at main/bme280.cpp:86,102,103 just as in the source. A failed read that leaves a buffer unwritten is not modelled.
- The conversions to `double` (`/100.0`, `/256.0`, `/1024.0`) and all logging are left out: floating point and I/O. `Reading` holds the integer results.
- The wake-cause query, `init_bme280_ulp`, `esp_sleep_enable_ulp_wakeup` and `esp_deep_sleep_start` are platform calls. The wake cause is an input. The other three calls appear only as the `Step` values `StartCoprocessor`, `EnableCoprocessorWakeup` and `EnterDeepSleep`. `AppMain` builds its `steps` list itself, so its step-list ensures is a log of the call order; the ordering guarantee proper is its `reading` ensures.
- The reboot at each wake is modelled only by `AppMain` zeroing `Sensor.tFine` on entry; `Sensor.calib` keeps its value, as an RTC_DATA_ATTR variable does across deep sleep.
- Bme280.Pressure: its contract states only the divide-by-zero guard. Beyond that, the model defines the result as the wrapped int64 formula and pins it down on the worked examples; there is no exact-formula lemma like the temperature one.
- Bme280.CentiCelsius and Bme280.CentiCelsiusMonotonic: their statements hold only for |t_fine| < 2^28, the range where `t_fine * 5 + 128` cannot overflow int32.
- Left shifts of negative values and the INT64_MIN / -1 quotient are undefined behaviour in C. They are modelled as two's-complement wrap-around: a choice, not a guarantee.
- The trimming-parameter table in section 4.2.2 of the BME280 datasheet declares dig_H4 and dig_H5 as signed, so the 12-bit fields can be read as signed values. The code shifts unsigned bytes, so here they lie in [0, 4095]. The model follows the code.
- For the datasheet's calibration and adc_H = 25386 at t_fine = 128422, the model gives 31694 / 1024 = 30.95 %RH (VendorHumidityExample).

## Findings

| source | as written | input that shows it | evidently intended | confidence | as-written member | corrected member |
|---|---|---|---|---|---|---|
| main/bme280.cpp:84,103,110 | `uint8_t hum_data[7]`, but the second read writes 7 bytes at offset 1 (indices 1..7), and dig_H6 reads `hum_data[7]` | every call of read_calibration_bme280: the read of 7 bytes from 0xE1 into `&hum_data[1]` | an 8-byte buffer, so that byte 7 holds register 0xE7 (dig_H6) | not executed | Calibration.DeclaredHumidityBufferOverflows | Calibration.HumidityBufferHoldsBothReads |
