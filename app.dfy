/**
 * main/main.cpp: the ADC codes assembled from the bytes the coprocessor left
 * in retained memory, and the two branches of app_main. The wake cause, the
 * coprocessor and the bus are inputs here; logging, the conversions to double
 * and the deep-sleep entry itself are recorded only as the step taken.
 */
module App {
  import opened FixedPoint
  import opened Wrappers
  import opened Calibration
  import opened Bme280

  // ---------------------------------------------------------------------------
  // Bitwise OR on non-negative integers

  /** `a | b` for non-negative operands, one bit at a time from the least significant. */
  function BitOr(a: nat, b: nat): (r: nat)
    ensures r <= a + b
    decreases a + b
  {
    if a == 0 then b
    else if b == 0 then a
    else 2 * BitOr(a / 2, b / 2) + (if a % 2 == 1 || b % 2 == 1 then 1 else 0)
  }

  /** OR-ing a value below 2^k into a multiple of 2^k is addition: the bits are disjoint. */
  lemma {:induction false} DisjointOrIsSum(a: nat, b: nat, k: nat)
    requires b < Pow2(k)
    ensures BitOr(a * Pow2(k), b) == a * Pow2(k) + b
  {
    if k == 0 || a == 0 || b == 0 {
    } else {
      var hi := a * Pow2(k);
      assert hi == 2 * (a * Pow2(k - 1));
      assert hi / 2 == a * Pow2(k - 1) && hi % 2 == 0;
      assert b / 2 < Pow2(k - 1);
      DisjointOrIsSum(a, b / 2, k - 1);
    }
  }

  // ---------------------------------------------------------------------------
  // The raw sample

  /**
   * The retained words the coprocessor writes (ulp_var_t values are 16 bits wide;
   * the coprocessor stores one register byte in each).
   */
  datatype Mailbox = Mailbox(
    pressMsb: u16, pressLsb: u16, pressXlsb: u16,
    tempMsb: u16, tempLsb: u16, tempXlsb: u16,
    humMsb: u16, humLsb: u16)

  /** What the coprocessor program stores: every slot holds a byte. */
  predicate SlotsAreBytes(m: Mailbox) {
    && m.pressMsb < 256 && m.pressLsb < 256 && m.pressXlsb < 256
    && m.tempMsb < 256 && m.tempLsb < 256 && m.tempXlsb < 256
    && m.humMsb < 256 && m.humLsb < 256
  }

  datatype RawSample = RawSample(adcT: i32, adcP: i32, adcH: i32)

  /** `(msb << 12) | (lsb << 4) | (xlsb >> 4)`: a 20-bit code whose low nibble of xlsb is dropped. */
  function Adc20(msb: u16, lsb: u16, xlsb: u16): (adc: i32)
    ensures msb < 256 && lsb < 256 && xlsb < 256 ==>
      adc == msb * 4096 + lsb * 16 + xlsb / 16 && 0 <= adc < 0x10_0000
  {
    Adc20FieldsDisjoint(msb, lsb, xlsb);
    BitOr(BitOr(msb * 4096, lsb * 16), xlsb / 16)
  }

  lemma Adc20FieldsDisjoint(msb: u16, lsb: u16, xlsb: u16)
    ensures msb < 256 && lsb < 256 && xlsb < 256 ==>
      BitOr(BitOr(msb * 4096, lsb * 16), xlsb / 16) == msb * 4096 + lsb * 16 + xlsb / 16
  {
    Pow2Values();
    if msb < 256 && lsb < 256 && xlsb < 256 {
      DisjointOrIsSum(msb, lsb * 16, 12);
      DisjointOrIsSum(msb * 256 + lsb, xlsb / 16, 4);
    }
  }

  /** `(msb << 8) | lsb`: the 16-bit humidity code. */
  function Adc16(msb: u16, lsb: u16): (adc: i32)
    ensures msb < 256 && lsb < 256 ==> adc == msb * 256 + lsb && 0 <= adc < 0x1_0000
  {
    Adc16FieldsDisjoint(msb, lsb);
    BitOr(msb * 256, lsb)
  }

  lemma Adc16FieldsDisjoint(msb: u16, lsb: u16)
    ensures lsb < 256 ==> BitOr(msb * 256, lsb) == msb * 256 + lsb
  {
    Pow2Values();
    if lsb < 256 {
      DisjointOrIsSum(msb, lsb, 8);
    }
  }

  /** The three ADC codes of main.cpp:29-33. */
  function DecodeRawSample(m: Mailbox): (s: RawSample)
    ensures SlotsAreBytes(m) ==>
      && s.adcT == m.tempMsb * 4096 + m.tempLsb * 16 + m.tempXlsb / 16
      && s.adcP == m.pressMsb * 4096 + m.pressLsb * 16 + m.pressXlsb / 16
      && s.adcH == m.humMsb * 256 + m.humLsb
      && 0 <= s.adcT < 0x10_0000 && 0 <= s.adcP < 0x10_0000 && 0 <= s.adcH < 0x1_0000
  {
    RawSample(
      Adc20(m.tempMsb, m.tempLsb, m.tempXlsb),
      Adc20(m.pressMsb, m.pressLsb, m.pressXlsb),
      Adc16(m.humMsb, m.humLsb))
  }

  /** The low nibble of xlsb never reaches a 20-bit code. */
  lemma LowNibbleIgnored(msb: u16, lsb: u16, xlsb: u16, xlsb': u16)
    requires xlsb / 16 == xlsb' / 16
    ensures Adc20(msb, lsb, xlsb) == Adc20(msb, lsb, xlsb')
  {
  }

  /** The assembly example: pressure bytes 0x7E, 0xA0, 0x00 give 0x7EA00. */
  lemma AssemblyExample()
    ensures Adc20(0x7E, 0xA0, 0x00) == 0x7EA00
    ensures Adc20(0x7E, 0xED, 0x0F) == 519888
  {
  }

  // ---------------------------------------------------------------------------
  // One measurement cycle

  /** The three compensated values that are logged. */
  datatype Reading = Reading(centiCelsius: i32, pressurePa256: u32, humidityRh1024: u32)

  /** A sample compensated in the required order: pressure and humidity use the t_fine of the same sample. */
  function CompensateSample(c: CalibData, s: RawSample): (r: Reading)
    ensures r.humidityRh1024 <= 102400
    ensures PressureDivisor(c, TFine(c, s.adcT)) == 0 ==> r.pressurePa256 == 0
  {
    var tFine := TFine(c, s.adcT);
    Reading(CentiCelsius(tFine), Pressure(c, tFine, s.adcP), Humidity(c, tFine, s.adcH))
  }

  /** The retained bytes of the datasheet example. */
  const VendorMailbox: Mailbox := Mailbox(0x65, 0x5A, 0xC0, 0x7E, 0xED, 0x00, 0x63, 0x2A)

  lemma VendorSampleBytes()
    ensures DecodeRawSample(VendorMailbox) == RawSample(519888, 415148, 25386)
  {
    assert SlotsAreBytes(VendorMailbox);
  }

  /** The datasheet example end to end, from the retained bytes to the reading. */
  lemma VendorCycleExample()
    ensures CompensateSample(VendorCalib, DecodeRawSample(VendorMailbox)) == Reading(2508, 25767233, 31694)
  {
    VendorSampleBytes();
    VendorTemperatureExample();
    VendorPressureExample();
    VendorHumidityExample();
    var tFine := TFine(VendorCalib, 519888);
    assert tFine == 128422;
  }

  /** What the wake cause query of app_main reports. */
  datatype WakeCause = WakeByCoprocessor | OtherWake

  /** The effectful calls of app_main, in the order they are made. */
  datatype Step =
    | InitI2c | ReadCalibration | StartCoprocessor
    | CompensateTemperature | CompensatePressure | CompensateHumidity
    | EnableCoprocessorWakeup | EnterDeepSleep

  /** The results of the three calibration bus reads of a cold start. */
  datatype CalibrationReads = CalibrationReads(trim: seq<u8>, atA1: seq<u8>, atE1: seq<u8>)

  predicate WellSized(bus: CalibrationReads) {
    |bus.trim| == TRIM_READ_LEN && |bus.atA1| == 1 && |bus.atE1| == 7
  }

  /**
   * app_main. Every wake is a fresh boot of the main core: `calib` lives in RTC
   * memory and survives deep sleep, while the plain static `t_fine` is zeroed
   * again. On a coprocessor wake it assembles the sample and compensates
   * temperature, then pressure, then humidity; otherwise it reads the
   * calibration and starts the coprocessor. Both branches arm the coprocessor
   * wakeup and enter deep sleep.
   *
   * `steps` is the log of the calls in the order the body makes them; the
   * ordering that matters is what `reading` states: pressure and humidity are
   * computed from the t_fine of the same sample (CompensateSample).
   */
  method AppMain(sensor: Sensor, cause: WakeCause, mailbox: Mailbox, bus: CalibrationReads)
    returns (steps: seq<Step>, reading: Option<Reading>)
    requires WellSized(bus)
    modifies sensor
    ensures cause == WakeByCoprocessor ==>
      && sensor.calib == old(sensor.calib)
      && sensor.tFine == TFine(sensor.calib, DecodeRawSample(mailbox).adcT)
      && reading == Some(CompensateSample(sensor.calib, DecodeRawSample(mailbox)))
      && steps == [CompensateTemperature, CompensatePressure, CompensateHumidity, EnableCoprocessorWakeup, EnterDeepSleep]
    ensures cause == OtherWake ==>
      && sensor.calib == DecodeCalibration(bus.trim, bus.atA1 + bus.atE1)
      && sensor.tFine == 0
      && reading == None
      && steps == [InitI2c, ReadCalibration, StartCoprocessor, EnableCoprocessorWakeup, EnterDeepSleep]
  {
    sensor.tFine := 0;
    if cause == WakeByCoprocessor {
      var adcT := Adc20(mailbox.tempMsb, mailbox.tempLsb, mailbox.tempXlsb);
      var adcP := Adc20(mailbox.pressMsb, mailbox.pressLsb, mailbox.pressXlsb);
      var adcH := Adc16(mailbox.humMsb, mailbox.humLsb);
      var t := sensor.CompensateTemperature(adcT);
      var p := sensor.CompensatePressure(adcP);
      var h := sensor.CompensateHumidity(adcH);
      steps := [CompensateTemperature, CompensatePressure, CompensateHumidity];
      reading := Some(Reading(t, p, h));
    } else {
      steps := [InitI2c];
      sensor.ReadCalibration(bus.trim, bus.atA1, bus.atE1);
      steps := steps + [ReadCalibration, StartCoprocessor];
      reading := None;
    }
    steps := steps + [EnableCoprocessorWakeup, EnterDeepSleep];
  }

  /**
   * Two cycles after a cold boot: the first reads the calibration, the second
   * reports the sample the coprocessor left, compensated with that calibration.
   */
  method ColdStartThenMeasure(bus: CalibrationReads, mailbox: Mailbox) returns (reading: Option<Reading>)
    requires WellSized(bus)
    ensures reading == Some(CompensateSample(
      DecodeCalibration(bus.trim, bus.atA1 + bus.atE1), DecodeRawSample(mailbox)))
  {
    var sensor := new Sensor();
    var steps, first := AppMain(sensor, OtherWake, mailbox, bus);
    assert first == None;
    steps, reading := AppMain(sensor, WakeByCoprocessor, mailbox, bus);
  }
}
