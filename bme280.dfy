/**
 * The BME280 compensation engine: the fixed-point formulas that turn the raw
 * ADC codes into centi-degrees Celsius, Pa * 256 and %RH * 1024, following
 * section 4.2.3 of the Bosch BME280 datasheet; and the driver's module state,
 * the calibration struct `calib` and the carried temperature term `t_fine`,
 * as the fields of a class whose methods are the driver's functions.
 *
 * Integer semantics are those of fixed_point.dfy: every int32 (temperature,
 * humidity) or int64 (pressure) operation that can overflow wraps, `>>` floors,
 * and the one division truncates.
 */
module Bme280 {
  import opened FixedPoint
  import opened Calibration

  // ---------------------------------------------------------------------------
  // Temperature

  /** The t_fine that compensate_temperature computes: var1 + var2 in int32. */
  function TFine(c: CalibData, adcT: i32): (t: i32)
  {
    var var1 := Sar(Mul32(Sub32(Sar(adcT, 3), Shl32(c.digT1, 1)), c.digT2), 11);
    var d := Sub32(Sar(adcT, 4), c.digT1);
    var var2 := Sar(Mul32(Sar(Mul32(d, d), 12), c.digT3), 14);
    Add32(var1, var2)
  }

  /** The temperature in 0.01 degC for a given t_fine: `(t_fine * 5 + 128) >> 8`, that is t_fine * 5 / 256 rounded to nearest. */
  function CentiCelsius(tFine: i32): (t: i32)
    ensures -0x1000_0000 <= tFine < 0x1000_0000 ==> t * 256 <= tFine * 5 + 128 < t * 256 + 256
  {
    Sar(Add32(Mul32(tFine, 5), 128), 8)
  }

  /** The datasheet formula for t_fine over unbounded integers, shifts as floor divisions. */
  function TFineExact(c: CalibData, adcT: int): int {
    var d := adcT / 16 - c.digT1;
    ((adcT / 8 - 2 * c.digT1) * c.digT2) / 2048 + ((d * d) / 4096 * c.digT3) / 16384
  }

  /** None of the three int32 products of the temperature formula overflows. */
  predicate TemperatureFitsInt32(c: CalibData, adcT: int) {
    var d := adcT / 16 - c.digT1;
    && -TWO_31 <= (adcT / 8 - 2 * c.digT1) * c.digT2 < TWO_31
    && d * d < TWO_31
    && -TWO_31 <= (d * d) / 4096 * c.digT3 < TWO_31
  }

  /** When nothing overflows, the int32 computation is the datasheet formula. */
  lemma TFineWithoutOverflow(c: CalibData, adcT: i32)
    requires 0 <= adcT < 0x10_0000 && TemperatureFitsInt32(c, adcT)
    ensures TFine(c, adcT) == TFineExact(c, adcT)
  {
    var d := adcT / 16 - c.digT1;
    assert Sar(adcT, 3) == adcT / 8 && Sar(adcT, 4) == adcT / 16;
    assert Shl32(c.digT1, 1) == 2 * c.digT1;
    assert Sub32(Sar(adcT, 4), c.digT1) == d;
    var p1 := (adcT / 8 - 2 * c.digT1) * c.digT2;
    assert Mul32(Sub32(Sar(adcT, 3), Shl32(c.digT1, 1)), c.digT2) == p1;
    var p2 := (d * d) / 4096 * c.digT3;
    assert Mul32(Sar(Mul32(d, d), 12), c.digT3) == p2;
    assert Sar(p1, 11) == p1 / 2048 && Sar(p2, 14) == p2 / 16384;
    DivisionBounds(p1, 2048);
    DivisionBounds(p2, 16384);
  }

  /** The temperature output never decreases as t_fine grows (away from int32 overflow). */
  lemma {:induction false} CentiCelsiusMonotonic(a: i32, b: i32)
    requires -0x1000_0000 <= a <= b < 0x1000_0000
    ensures CentiCelsius(a) <= CentiCelsius(b)
  {
  }

  // ---------------------------------------------------------------------------
  // Pressure

  /** var2 of compensate_pressure once line 50 has run. */
  function PressureOffset(c: CalibData, tFine: i32): (v: i64)
  {
    var var1 := Sub64(tFine, 128000);
    var var2 := Mul64(Mul64(var1, var1), c.digP6);
    var var2 := Add64(var2, Shl64(Mul64(var1, c.digP5), 17));
    Add64(var2, Shl64(c.digP4, 35))
  }

  /** var1 of compensate_pressure once line 52 has run: the divisor the guard tests. */
  function PressureDivisor(c: CalibData, tFine: i32): (v: i64)
  {
    var var1 := Sub64(tFine, 128000);
    var var1 := Add64(Sar(Mul64(Mul64(var1, var1), c.digP3), 8), Shl64(Mul64(var1, c.digP2), 12));
    Sar(Mul64(Add64(Pow2(47), var1), c.digP1), 33)
  }

  /** The pressure in Pa * 256 (as uint32_t); 0 is returned when the divisor is 0. */
  function Pressure(c: CalibData, tFine: i32, adcP: i32): (p: u32)
    ensures PressureDivisor(c, tFine) == 0 ==> p == 0
  {
    var var1 := PressureDivisor(c, tFine);
    if var1 == 0 then 0
    else
      var var2 := PressureOffset(c, tFine);
      var p := Sub32(1048576, adcP);
      var p := Div64(Mul64(Sub64(Shl64(p, 31), var2), 3125), var1);
      var var1 := Sar(Mul64(Mul64(c.digP9, Sar(p, 13)), Sar(p, 13)), 25);
      var var2 := Sar(Mul64(c.digP8, p), 19);
      var p := Add64(Sar(Add64(Add64(p, var1), var2), 8), Shl64(c.digP7, 4));
      ToU32(p)
  }

  /** dig_P1 = 0 makes the divisor 0, so the guard returns 0 whatever the other inputs. */
  lemma ZeroP1GivesZeroPressure(c: CalibData, tFine: i32, adcP: i32)
    requires c.digP1 == 0
    ensures PressureDivisor(c, tFine) == 0
    ensures Pressure(c, tFine, adcP) == 0
  {
  }

  // ---------------------------------------------------------------------------
  // Humidity

  /** v_x1_u32r of compensate_humidity once line 74 has run, before the clamp. */
  function HumidityLadder(c: CalibData, tFine: i32, adcH: i32): (v: i32)
  {
    var x := Sub32(tFine, 76800);
    var a := Sar(Add32(Sub32(Sub32(Shl32(adcH, 14), Shl32(c.digH4, 20)), Mul32(c.digH5, x)), 16384), 15);
    var h6 := Sar(Mul32(x, c.digH6), 10);
    var h3 := Add32(Sar(Mul32(x, c.digH3), 11), 32768);
    var b := Sar(Add32(Mul32(Add32(Sar(Mul32(h6, h3), 10), 2097152), c.digH2), 8192), 14);
    var v := Mul32(a, b);
    Sub32(v, Sar(Mul32(Sar(Mul32(Sar(v, 15), Sar(v, 15)), 7), c.digH1), 4))
  }

  /** The largest pre-shift humidity value, 100 %RH in the Q22.10 * 4096 scale. */
  const HUMIDITY_CLAMP: int := 419430400

  /** The relative humidity in %RH * 1024: the ladder clamped to [0, 419430400], shifted right by 12. */
  function Humidity(c: CalibData, tFine: i32, adcH: i32): (h: u32)
    ensures h <= 102400
    ensures HumidityLadder(c, tFine, adcH) < 0 ==> h == 0
    ensures HumidityLadder(c, tFine, adcH) > HUMIDITY_CLAMP ==> h == 102400
    ensures 0 <= HumidityLadder(c, tFine, adcH) <= HUMIDITY_CLAMP ==>
      h * 4096 <= HumidityLadder(c, tFine, adcH) < h * 4096 + 4096
  {
    var v := HumidityLadder(c, tFine, adcH);
    var v := if v < 0 then 0 else v;
    var v := if v > HUMIDITY_CLAMP then HUMIDITY_CLAMP else v;
    assert Pow2(12) == 4096;
    Sar(v, 12)
  }

  // ---------------------------------------------------------------------------
  // The driver's module state

  /**
   * The state of main/bme280.cpp: `calib`, kept in RTC memory (it survives deep
   * sleep) and written by ReadCalibration, and `t_fine`, an ordinary static
   * (zeroed at every boot, see App.AppMain), written by CompensateTemperature
   * and read by CompensatePressure and CompensateHumidity.
   */
  class Sensor {
    var calib: CalibData
    var tFine: i32

    /** A cold boot: both globals are zero-initialised. */
    constructor ()
      ensures calib == ZeroCalib && tFine == 0
    {
      calib := ZeroCalib;
      tFine := 0;
    }

    /**
     * read_calibration_bme280 given the results of its three bus reads: 26 bytes
     * from 0x88, 1 byte from 0xA1 and 7 bytes from 0xE1. The humidity buffer has
     * eight bytes here (see HumidityBufferHoldsBothReads).
     */
    method ReadCalibration(trim: seq<u8>, atA1: seq<u8>, atE1: seq<u8>)
      requires |trim| == TRIM_READ_LEN && |atA1| == 1 && |atE1| == 7
      modifies this`calib
      ensures calib == DecodeCalibration(trim, atA1 + atE1)
    {
      var calibData := new u8[TRIM_READ_LEN](i requires 0 <= i < |trim| => trim[i]);
      var humData := new u8[HUM_BUFFER_LEN];
      humData[0] := atA1[0];
      forall k | 1 <= k < HUM_BUFFER_LEN {
        humData[k] := atE1[k - 1];
      }
      assert humData[..] == atA1 + atE1;
      assert calibData[..] == trim;

      calib := calib.(digT1 := U16Le(calibData[0], calibData[1]));
      calib := calib.(digT2 := I16Le(calibData[2], calibData[3]));
      calib := calib.(digT3 := I16Le(calibData[4], calibData[5]));

      calib := calib.(digP1 := U16Le(calibData[6], calibData[7]));
      calib := calib.(digP2 := I16Le(calibData[8], calibData[9]));
      calib := calib.(digP3 := I16Le(calibData[10], calibData[11]));
      calib := calib.(digP4 := I16Le(calibData[12], calibData[13]));
      calib := calib.(digP5 := I16Le(calibData[14], calibData[15]));
      calib := calib.(digP6 := I16Le(calibData[16], calibData[17]));
      calib := calib.(digP7 := I16Le(calibData[18], calibData[19]));
      calib := calib.(digP8 := I16Le(calibData[20], calibData[21]));
      calib := calib.(digP9 := I16Le(calibData[22], calibData[23]));

      calib := calib.(digH1 := humData[0]);
      calib := calib.(digH2 := I16Le(humData[1], humData[2]));
      calib := calib.(digH3 := humData[3]);
      calib := calib.(digH4 := PackH4(humData[4], humData[5]));
      calib := calib.(digH5 := PackH5(humData[6], humData[5]));
      calib := calib.(digH6 := ToSigned8(humData[7]));
    }

    /** compensate_temperature: writes t_fine, returns the temperature in 0.01 degC, leaves calib alone; proved equal to TFine and CentiCelsius. */
    method CompensateTemperature(adcT: i32) returns (t: i32)
      modifies this`tFine
      ensures tFine == TFine(calib, adcT)
      ensures t == CentiCelsius(tFine)
    {
      var var1: i32 := Sar(Mul32(Sub32(Sar(adcT, 3), Shl32(calib.digT1, 1)), calib.digT2), 11);
      var var2: i32 := Sar(Mul32(Sar(Mul32(Sub32(Sar(adcT, 4), calib.digT1), Sub32(Sar(adcT, 4), calib.digT1)), 12), calib.digT3), 14);
      tFine := Add32(var1, var2);
      t := Sar(Add32(Mul32(tFine, 5), 128), 8);
    }

    /** compensate_pressure: reads calib and t_fine and changes nothing; proved equal to Pressure. */
    method CompensatePressure(adcP: i32) returns (p: u32)
      ensures p == Pressure(calib, tFine, adcP)
    {
      var var1: i64 := Sub64(tFine, 128000);
      var var2: i64 := Mul64(Mul64(var1, var1), calib.digP6);
      var2 := Add64(var2, Shl64(Mul64(var1, calib.digP5), 17));
      var2 := Add64(var2, Shl64(calib.digP4, 35));
      var1 := Add64(Sar(Mul64(Mul64(var1, var1), calib.digP3), 8), Shl64(Mul64(var1, calib.digP2), 12));
      var1 := Sar(Mul64(Add64(Pow2(47), var1), calib.digP1), 33);

      if var1 == 0 {
        return 0;
      }

      var q: i64 := Sub32(1048576, adcP);
      q := Div64(Mul64(Sub64(Shl64(q, 31), var2), 3125), var1);
      var1 := Sar(Mul64(Mul64(calib.digP9, Sar(q, 13)), Sar(q, 13)), 25);
      var2 := Sar(Mul64(calib.digP8, q), 19);
      q := Add64(Sar(Add64(Add64(q, var1), var2), 8), Shl64(calib.digP7, 4));
      p := ToU32(q);
    }

    /** compensate_humidity: reads calib and t_fine and changes nothing; proved equal to Humidity. */
    method CompensateHumidity(adcH: i32) returns (h: u32)
      ensures h == Humidity(calib, tFine, adcH)
      ensures h <= 102400
    {
      var v: i32 := Sub32(tFine, 76800);
      v := Mul32(
        Sar(Add32(Sub32(Sub32(Shl32(adcH, 14), Shl32(calib.digH4, 20)), Mul32(calib.digH5, v)), 16384), 15),
        Sar(Add32(Mul32(Add32(Sar(Mul32(Sar(Mul32(v, calib.digH6), 10),
                                        Add32(Sar(Mul32(v, calib.digH3), 11), 32768)), 10),
                              2097152), calib.digH2), 8192), 14));
      v := Sub32(v, Sar(Mul32(Sar(Mul32(Sar(v, 15), Sar(v, 15)), 7), calib.digH1), 4));
      v := if v < 0 then 0 else v;
      v := if v > HUMIDITY_CLAMP then HUMIDITY_CLAMP else v;
      h := Sar(v, 12);
    }
  }

  // ---------------------------------------------------------------------------
  // The datasheet's worked example

  /** The calibration of the datasheet example. */
  const VendorCalib: CalibData :=
    CalibData(27504, 26435, -1000, 36477, -10685, 3024, 2855, 140, -7, 15500, -14600, 6000,
              75, 355, 0, 309, 0, 30)

  /** adc_T = 519888 gives t_fine = 128422 and 25.08 degC. */
  lemma VendorTemperatureExample()
    ensures TFine(VendorCalib, 519888) == 128422
    ensures CentiCelsius(128422) == 2508
  {
    Pow2Values();
    assert Sar(519888, 3) == 64986 && Sar(519888, 4) == 32493;
    assert Sar(Mul32(Sub32(64986, Shl32(27504, 1)), 26435), 11) == 128793;
    assert Sar(Mul32(Sar(Mul32(4989, 4989), 12), -1000), 14) == -371;
    assert Sar(Add32(Mul32(128422, 5), 128), 8) == 2508;
  }

  /** The var2 step of the example needs `>>` to floor: truncation would give -370. */
  lemma ShiftFloors()
    ensures Sar(-6076000, 14) == -371
    ensures TruncDiv(-6076000, 16384) == -370
  {
    Pow2Values();
  }

  /** adc_P = 415148 at t_fine = 128422 gives 25767233 / 256 = 100653.25 Pa. */
  lemma VendorPressureExample()
    ensures PressureDivisor(VendorCalib, 128422) == 597560748
    ensures PressureOffset(VendorCalib, 128422) == 98104795527812
    ensures Pressure(VendorCalib, 128422, 415148) == 25767233
  {
    Pow2Values();
    var c := VendorCalib;
    assert c.digP1 == 36477 && c.digP2 == -10685 && c.digP3 == 3024 && c.digP4 == 2855;
    assert c.digP5 == 140 && c.digP6 == -7 && c.digP7 == 15500 && c.digP8 == -14600 && c.digP9 == 6000;
    assert Sub64(128422, 128000) == 422;
    assert PressureOffset(c, 128422) == 98104795527812 by {
      assert Mul64(Mul64(422, 422), -7) == -1246588;
      assert Shl64(Mul64(422, 140), 17) == 7743733760;
      assert Shl64(2855, 35) == 98097053040640;
    }
    assert PressureDivisor(c, 128422) == 597560748 by {
      assert Sar(Mul64(Mul64(422, 422), 3024), 8) == 2103617;
      assert Shl64(Mul64(422, -10685), 12) == -18469150720;
      assert Mul64(Add64(Pow2(47), -18467047103), 36477) == 5133007740260123325;
    }
    var p := Div64(Mul64(Sub64(Shl64(Sub32(1048576, 415148), 31), 98104795527812), 3125), 597560748);
    assert p == 6600644165 by {
      assert Sub32(1048576, 415148) == 633428;
      assert Mul64(Sub64(Shl64(633428, 31), 98104795527812), 3125) == 3944285864554787500;
      assert TruncDiv(3944285864554787500, 597560748) == 6600644165;
    }
    assert Sar(p, 13) == 805742;
    assert Sar(Mul64(Mul64(6000, 805742), 805742), 25) == 116089612;
    assert Sar(Mul64(-14600, p), 19) == -183810053;
    assert Add64(Sar(Add64(Add64(p, 116089612), -183810053), 8), Shl64(15500, 4)) == 25767233;
  }

  /** adc_H = 25386 at t_fine = 128422 gives 31694 / 1024 = 30.95 %RH with this calibration. */
  lemma VendorHumidityExample()
    ensures HumidityLadder(VendorCalib, 128422, 25386) == 129819044
    ensures Humidity(VendorCalib, 128422, 25386) == 31694
  {
    Pow2Values();
    var c := VendorCalib;
    assert c.digH1 == 75 && c.digH2 == 355 && c.digH3 == 0 && c.digH4 == 309 && c.digH5 == 0 && c.digH6 == 30;
    var x := Sub32(128422, 76800);
    assert x == 51622;
    assert Sar(Add32(Sub32(Sub32(Shl32(25386, 14), Shl32(309, 20)), Mul32(0, x)), 16384), 15) == 2805;
    assert Sar(Mul32(x, 30), 10) == 1512;
    assert Add32(Sar(Mul32(x, 0), 11), 32768) == 32768;
    assert Sar(Add32(Mul32(Add32(Sar(Mul32(1512, 32768), 10), 2097152), 355), 8192), 14) == 46488;
    assert Mul32(2805, 46488) == 130398840;
    assert Sar(130398840, 15) == 3979;
    assert Sub32(130398840, Sar(Mul32(Sar(Mul32(3979, 3979), 7), 75), 4)) == 129819044;
  }

  /** A second, warmer sample: adc_T = 600000 gives t_fine = 256562. */
  lemma WarmerSampleTemperature()
    ensures TFine(VendorCalib, 600000) == 256562
  {
    Pow2Values();
    assert Sar(600000, 3) == 75000 && Sar(600000, 4) == 37500;
    assert Sar(Mul32(Sub32(75000, Shl32(27504, 1)), 26435), 11) == 258051;
    assert Sar(Mul32(Sar(Mul32(9996, 9996), 12), -1000), 14) == -1489;
  }

  /** The pressure code of the example at the warmer sample's t_fine. */
  lemma WarmerSamplePressure()
    ensures Pressure(VendorCalib, 256562, 415148) == 26759084
  {
    Pow2Values();
    var c := VendorCalib;
    assert c.digP1 == 36477 && c.digP2 == -10685 && c.digP3 == 3024 && c.digP4 == 2855;
    assert c.digP5 == 140 && c.digP6 == -7 && c.digP7 == 15500 && c.digP8 == -14600 && c.digP9 == 6000;
    assert Sub64(256562, 128000) == 128562;
    assert PressureOffset(c, 256562) == 100340478710692 by {
      assert Mul64(Mul64(128562, 128562), -7) == -115697314908;
      assert Shl64(Mul64(128562, 140), 17) == 2359122984960;
      assert Shl64(2855, 35) == 98097053040640;
    }
    assert PressureDivisor(c, 256562) == 574574935 by {
      assert Sar(Mul64(Mul64(128562, 128562), 3024), 8) == 195239218907;
      assert Shl64(Mul64(128562, -10685), 12) == -5626613637120;
      assert Mul64(Add64(Pow2(47), -5431374418213), 36477) == 4935561118084143855;
    }
    var p := Div64(Mul64(Sub64(Shl64(Sub32(1048576, 415148), 31), 100340478710692), 3125), 574574935);
    assert p == 6852542836 by {
      assert Mul64(Sub64(Shl64(633428, 31), 100340478710692), 3125) == 3937299354608287500;
      assert TruncDiv(3937299354608287500, 574574935) == 6852542836;
    }
    assert Sar(p, 13) == 836492;
    assert Sar(Mul64(Mul64(6000, 836492), 836492), 25) == 125119483;
    assert Sar(Mul64(-14600, p), 19) == -190824748;
    assert Add64(Sar(Add64(Add64(p, 125119483), -190824748), 8), Shl64(15500, 4)) == 26759084;
  }

  /** The humidity code of the example at the warmer sample's t_fine. */
  lemma WarmerSampleHumidity()
    ensures Humidity(VendorCalib, 256562, 25386) == 33460
  {
    Pow2Values();
    var c := VendorCalib;
    assert c.digH1 == 75 && c.digH2 == 355 && c.digH3 == 0 && c.digH4 == 309 && c.digH5 == 0 && c.digH6 == 30;
    var x := Sub32(256562, 76800);
    assert x == 179762;
    assert Sar(Add32(Sub32(Sub32(Shl32(25386, 14), Shl32(309, 20)), Mul32(0, x)), 16384), 15) == 2805;
    assert Sar(Mul32(x, 30), 10) == 5266;
    assert Add32(Sar(Mul32(x, 0), 11), 32768) == 32768;
    assert Sar(Add32(Mul32(Add32(Sar(Mul32(5266, 32768), 10), 2097152), 355), 8192), 14) == 49091;
    assert Mul32(2805, 49091) == 137700255;
    assert Sar(137700255, 15) == 4202;
    assert Sub32(137700255, Sar(Mul32(Sar(Mul32(4202, 4202), 7), 75), 4)) == 137053648;
    assert HumidityLadder(c, 256562, 25386) == 137053648;
  }

  /** Pressure and humidity follow the t_fine of the latest temperature call: another adc_T changes them. */
  lemma LatestTemperatureDecides()
    ensures Pressure(VendorCalib, TFine(VendorCalib, 519888), 415148)
         != Pressure(VendorCalib, TFine(VendorCalib, 600000), 415148)
    ensures Humidity(VendorCalib, TFine(VendorCalib, 519888), 25386)
         != Humidity(VendorCalib, TFine(VendorCalib, 600000), 25386)
  {
    VendorTemperatureExample();
    VendorPressureExample();
    VendorHumidityExample();
    WarmerSampleTemperature();
    WarmerSamplePressure();
    WarmerSampleHumidity();
  }
}
