/**
 * The BME280 trimming parameters (the `bme280_calib_data` struct) and the
 * decoder that turns the bytes read from the sensor's calibration registers
 * into them. The bytes come from three bus reads: 26 bytes starting at
 * register 0x88, 1 byte at register 0xA1 and 7 bytes starting at register
 * 0xE1; the bus transfers themselves are not modelled, their results are
 * the decoder's inputs.
 */
module Calibration {
  import opened FixedPoint
  import opened Wrappers

  /** The 18 calibration constants, each with the width and signedness of its C field. */
  datatype CalibData = CalibData(
    digT1: u16, digT2: i16, digT3: i16,
    digP1: u16, digP2: i16, digP3: i16, digP4: i16, digP5: i16,
    digP6: i16, digP7: i16, digP8: i16, digP9: i16,
    digH1: u8, digH2: i16, digH3: u8, digH4: i16, digH5: i16, digH6: i8)

  /** The all-zero struct a cold boot starts from. */
  const ZeroCalib: CalibData := CalibData(0, 0, 0, 0, 0, 0, 0, 0, 0, 0, 0, 0, 0, 0, 0, 0, 0, 0)

  /** Bytes read from register 0x88 on, and the bytes of the humidity buffer. */
  const TRIM_READ_LEN: nat := 26
  const HUM_BUFFER_LEN: nat := 8
  /** How many bytes of the 0x88 block the decoder uses: twelve 16-bit words. */
  const TRIM_WORDS_LEN: nat := 24

  /** The twelve temperature and pressure words, in register order 0x88..0x9F. */
  function TrimWords(c: CalibData): (ws: seq<int>)
    ensures |ws| == 12
  {
    [c.digT1, c.digT2, c.digT3, c.digP1, c.digP2, c.digP3,
     c.digP4, c.digP5, c.digP6, c.digP7, c.digP8, c.digP9]
  }

  /** A little-endian word: `hi << 8 | lo`, the two bytes occupying disjoint bits. */
  function U16Le(lo: u8, hi: u8): (w: u16)
    ensures w % 256 == lo && w / 256 == hi
  {
    hi * 256 + lo
  }

  /** `(int16_t)(hi << 8 | lo)`. */
  function I16Le(lo: u8, hi: u8): (s: i16)
    ensures (s - (hi * 256 + lo)) % TWO_16 == 0
  {
    ToSigned16(U16Le(lo, hi))
  }

  /** dig_H4: `hum[4] << 4 | (hum[5] & 0x0F)`; the byte is unsigned, so the field is never negative. */
  function PackH4(msb: u8, shared: u8): (h: i16)
    ensures 0 <= h < 4096
    ensures h / 16 == msb && h % 16 == shared % 16
  {
    msb * 16 + shared % 16
  }

  /** dig_H5: `hum[6] << 4 | ((hum[5] >> 4) & 0x0F)`. */
  function PackH5(msb: u8, shared: u8): (h: i16)
    ensures 0 <= h < 4096
    ensures h / 16 == msb && h % 16 == shared / 16
  {
    msb * 16 + shared / 16
  }

  /**
   * The decoding part of read_calibration_bme280: `trim` is the buffer of the
   * 0x88 read, `hum` the humidity buffer (byte 0 from register 0xA1, bytes 1..7
   * from 0xE1..0xE7).
   */
  function DecodeCalibration(trim: seq<u8>, hum: seq<u8>): (c: CalibData)
    requires |trim| == TRIM_READ_LEN && |hum| == HUM_BUFFER_LEN
    ensures HumidityPacked(c)
  {
    CalibData(
      digT1 := U16Le(trim[0], trim[1]),
      digT2 := I16Le(trim[2], trim[3]),
      digT3 := I16Le(trim[4], trim[5]),
      digP1 := U16Le(trim[6], trim[7]),
      digP2 := I16Le(trim[8], trim[9]),
      digP3 := I16Le(trim[10], trim[11]),
      digP4 := I16Le(trim[12], trim[13]),
      digP5 := I16Le(trim[14], trim[15]),
      digP6 := I16Le(trim[16], trim[17]),
      digP7 := I16Le(trim[18], trim[19]),
      digP8 := I16Le(trim[20], trim[21]),
      digP9 := I16Le(trim[22], trim[23]),
      digH1 := hum[0],
      digH2 := I16Le(hum[1], hum[2]),
      digH3 := hum[3],
      digH4 := PackH4(hum[4], hum[5]),
      digH5 := PackH5(hum[6], hum[5]),
      digH6 := ToSigned8(hum[7]))
  }

  /** The structs the decoder can produce: dig_H4 and dig_H5 are 12-bit and non-negative. */
  predicate HumidityPacked(c: CalibData) {
    0 <= c.digH4 < 4096 && 0 <= c.digH5 < 4096
  }

  // ---------------------------------------------------------------------------
  // The register image of a struct, the inverse of the decoder.

  /** Byte i of the twelve little-endian words 0x88..0x9F. */
  function TrimByte(c: CalibData, i: nat): (b: u8)
    requires i < TRIM_WORDS_LEN
  {
    var w := TrimWords(c)[i / 2] % TWO_16;
    if i % 2 == 0 then w % 256 else w / 256
  }

  function EncodeTrim(c: CalibData): (bytes: seq<u8>)
    ensures |bytes| == TRIM_WORDS_LEN
  {
    seq(TRIM_WORDS_LEN, i requires 0 <= i < TRIM_WORDS_LEN => TrimByte(c, i))
  }

  /** The eight humidity bytes: H1, H2 low, H2 high, H3, the two nibble-packed 12-bit fields, H6. */
  function EncodeHumidity(c: CalibData): (bytes: seq<u8>)
    requires HumidityPacked(c)
    ensures |bytes| == HUM_BUFFER_LEN
  {
    var h2 := FromSigned16(c.digH2);
    [c.digH1, h2 % 256, h2 / 256, c.digH3,
     c.digH4 / 16, (c.digH5 % 16) * 16 + c.digH4 % 16, c.digH5 / 16,
     FromSigned8(c.digH6)]
  }

  /** Word k of the 0x88 block as the decoder reads it: unsigned for T1 and P1, signed otherwise. */
  function TrimWordAt(trim: seq<u8>, k: nat): (w: int)
    requires |trim| == TRIM_READ_LEN && k < 12
  {
    if IsUnsignedWord(k) then U16Le(trim[2 * k], trim[2 * k + 1]) else I16Le(trim[2 * k], trim[2 * k + 1])
  }

  /** dig_T1 and dig_P1 are the unsigned words of the block. */
  predicate IsUnsignedWord(k: nat) {
    k == 0 || k == 3
  }

  /** The field-by-field decoder agrees with the word-indexed reading of the block. */
  lemma DecodedWord(trim: seq<u8>, hum: seq<u8>, k: nat)
    requires |trim| == TRIM_READ_LEN && |hum| == HUM_BUFFER_LEN && k < 12
    ensures TrimWords(DecodeCalibration(trim, hum))[k] == TrimWordAt(trim, k)
  {
    var ws := TrimWords(DecodeCalibration(trim, hum));
    if k == 0 { assert ws[0] == U16Le(trim[0], trim[1]); }
    else if k == 1 { assert ws[1] == I16Le(trim[2], trim[3]); }
    else if k == 2 { assert ws[2] == I16Le(trim[4], trim[5]); }
    else if k == 3 { assert ws[3] == U16Le(trim[6], trim[7]); }
    else if k == 4 { assert ws[4] == I16Le(trim[8], trim[9]); }
    else if k == 5 { assert ws[5] == I16Le(trim[10], trim[11]); }
    else if k == 6 { assert ws[6] == I16Le(trim[12], trim[13]); }
    else if k == 7 { assert ws[7] == I16Le(trim[14], trim[15]); }
    else if k == 8 { assert ws[8] == I16Le(trim[16], trim[17]); }
    else if k == 9 { assert ws[9] == I16Le(trim[18], trim[19]); }
    else if k == 10 { assert ws[10] == I16Le(trim[20], trim[21]); }
    else { assert ws[11] == I16Le(trim[22], trim[23]); }
  }

  /** The kinds of the twelve words: T1 and P1 unsigned 16-bit, the others signed 16-bit. */
  lemma TrimWordRange(c: CalibData, k: nat)
    requires k < 12
    ensures IsUnsignedWord(k) ==> 0 <= TrimWords(c)[k] < TWO_16
    ensures !IsUnsignedWord(k) ==> -0x8000 <= TrimWords(c)[k] < 0x8000
  {
    var ws := TrimWords(c);
    if k == 0 { assert ws[0] == c.digT1; }
    else if k == 1 { assert ws[1] == c.digT2; }
    else if k == 2 { assert ws[2] == c.digT3; }
    else if k == 3 { assert ws[3] == c.digP1; }
    else if k == 4 { assert ws[4] == c.digP2; }
    else if k == 5 { assert ws[5] == c.digP3; }
    else if k == 6 { assert ws[6] == c.digP4; }
    else if k == 7 { assert ws[7] == c.digP5; }
    else if k == 8 { assert ws[8] == c.digP6; }
    else if k == 9 { assert ws[9] == c.digP7; }
    else if k == 10 { assert ws[10] == c.digP8; }
    else { assert ws[11] == c.digP9; }
  }

  /** A struct is determined by its twelve words and its six humidity fields. */
  lemma SameFields(c: CalibData, d: CalibData)
    requires TrimWords(c) == TrimWords(d)
    requires c.digH1 == d.digH1 && c.digH2 == d.digH2 && c.digH3 == d.digH3
    requires c.digH4 == d.digH4 && c.digH5 == d.digH5 && c.digH6 == d.digH6
    ensures c == d
  {
    assert TrimWords(c)[0] == TrimWords(d)[0] && TrimWords(c)[1] == TrimWords(d)[1];
    assert TrimWords(c)[2] == TrimWords(d)[2] && TrimWords(c)[3] == TrimWords(d)[3];
    assert TrimWords(c)[4] == TrimWords(d)[4] && TrimWords(c)[5] == TrimWords(d)[5];
    assert TrimWords(c)[6] == TrimWords(d)[6] && TrimWords(c)[7] == TrimWords(d)[7];
    assert TrimWords(c)[8] == TrimWords(d)[8] && TrimWords(c)[9] == TrimWords(d)[9];
    assert TrimWords(c)[10] == TrimWords(d)[10] && TrimWords(c)[11] == TrimWords(d)[11];
  }

  /** Decoding the register image of a struct gives the struct back, whatever the two unused bytes 0xA0, 0xA1 hold. */
  lemma {:induction false} DecodeEncode(c: CalibData, unused: seq<u8>)
    requires HumidityPacked(c) && |unused| == TRIM_READ_LEN - TRIM_WORDS_LEN
    ensures DecodeCalibration(EncodeTrim(c) + unused, EncodeHumidity(c)) == c
  {
    var trim := EncodeTrim(c) + unused;
    var hum := EncodeHumidity(c);
    var d := DecodeCalibration(trim, hum);
    forall k | 0 <= k < 12
      ensures TrimWords(d)[k] == TrimWords(c)[k]
    {
      DecodedWord(trim, hum, k);
      WordRoundTrip(c, trim, k);
    }
    assert TrimWords(d) == TrimWords(c);
    var h2 := FromSigned16(c.digH2);
    assert d.digH2 == I16Le(h2 % 256, h2 / 256);
    assert d.digH4 == PackH4(c.digH4 / 16, (c.digH5 % 16) * 16 + c.digH4 % 16);
    assert d.digH5 == PackH5(c.digH5 / 16, (c.digH5 % 16) * 16 + c.digH4 % 16);
    SameFields(c, d);
  }

  lemma WordRoundTrip(c: CalibData, trim: seq<u8>, k: nat)
    requires k < 12 && |trim| == TRIM_READ_LEN && trim[..TRIM_WORDS_LEN] == EncodeTrim(c)
    ensures TrimWordAt(trim, k) == TrimWords(c)[k]
  {
    assert (2 * k) / 2 == k && (2 * k) % 2 == 0;
    assert (2 * k + 1) / 2 == k && (2 * k + 1) % 2 == 1;
    assert trim[2 * k] == EncodeTrim(c)[2 * k] == TrimByte(c, 2 * k);
    assert trim[2 * k + 1] == EncodeTrim(c)[2 * k + 1] == TrimByte(c, 2 * k + 1);
    var w := TrimWords(c)[k] % TWO_16;
    DivMod(w, 256);
    assert U16Le(trim[2 * k], trim[2 * k + 1]) == w;
    TrimWordRange(c, k);
  }

  /** Re-encoding a decoded struct gives back every byte the decoder reads. */
  lemma {:induction false} EncodeDecode(trim: seq<u8>, hum: seq<u8>)
    requires |trim| == TRIM_READ_LEN && |hum| == HUM_BUFFER_LEN
    ensures EncodeTrim(DecodeCalibration(trim, hum)) == trim[..TRIM_WORDS_LEN]
    ensures EncodeHumidity(DecodeCalibration(trim, hum)) == hum
  {
    var c := DecodeCalibration(trim, hum);
    forall i | 0 <= i < TRIM_WORDS_LEN
      ensures EncodeTrim(c)[i] == trim[i]
    {
      ByteRoundTrip(trim, hum, i);
    }
    HumidityBytesRoundTrip(trim, hum);
  }

  lemma ByteRoundTrip(trim: seq<u8>, hum: seq<u8>, i: nat)
    requires |trim| == TRIM_READ_LEN && |hum| == HUM_BUFFER_LEN && i < TRIM_WORDS_LEN
    ensures TrimByte(DecodeCalibration(trim, hum), i) == trim[i]
  {
    var k := i / 2;
    DecodedWord(trim, hum, k);
    var u := U16Le(trim[2 * k], trim[2 * k + 1]);
    assert TrimWordAt(trim, k) % TWO_16 == u;
    assert i == 2 * k || i == 2 * k + 1;
  }

  lemma HumidityBytesRoundTrip(trim: seq<u8>, hum: seq<u8>)
    requires |trim| == TRIM_READ_LEN && |hum| == HUM_BUFFER_LEN
    ensures EncodeHumidity(DecodeCalibration(trim, hum)) == hum
  {
    var c := DecodeCalibration(trim, hum);
    var e := EncodeHumidity(c);
    assert FromSigned16(c.digH2) == U16Le(hum[1], hum[2]);
    assert e[5] == hum[5] by {
      assert c.digH5 % 16 == hum[5] / 16 && c.digH4 % 16 == hum[5] % 16;
    }
    assert e[7] == hum[7];
    assert e == hum;
  }

  /** The little-endian layout of the 0x88 block: word k is bytes 2k (low) and 2k+1 (high). */
  lemma DecodedWordsAreLittleEndian(trim: seq<u8>, hum: seq<u8>, k: nat)
    requires |trim| == TRIM_READ_LEN && |hum| == HUM_BUFFER_LEN && k < 12
    ensures TrimWords(DecodeCalibration(trim, hum))[k] % TWO_16 == (trim[2 * k + 1] as int) * 256 + trim[2 * k]
    ensures IsUnsignedWord(k) ==> TrimWords(DecodeCalibration(trim, hum))[k] == (trim[2 * k + 1] as int) * 256 + trim[2 * k]
    ensures !IsUnsignedWord(k) ==> (TrimWords(DecodeCalibration(trim, hum))[k] < 0 <==> trim[2 * k + 1] >= 0x80)
  {
    DecodedWord(trim, hum, k);
  }

  /** The layout of the humidity buffer. */
  lemma DecodedHumidityLayout(trim: seq<u8>, hum: seq<u8>)
    requires |trim| == TRIM_READ_LEN && |hum| == HUM_BUFFER_LEN
    ensures var c := DecodeCalibration(trim, hum);
      && c.digH1 == hum[0]
      && c.digH2 % TWO_16 == (hum[2] as int) * 256 + hum[1]
      && c.digH3 == hum[3]
      && c.digH4 == (hum[4] as int) * 16 + hum[5] % 16
      && c.digH5 == (hum[6] as int) * 16 + hum[5] / 16
      && (c.digH6 - hum[7]) % TWO_8 == 0
  {
  }

  /** Only the first 24 of the 26 bytes read from 0x88 reach the struct. */
  lemma ReservedTrimBytesIgnored(trim: seq<u8>, trim': seq<u8>, hum: seq<u8>)
    requires |trim| == |trim'| == TRIM_READ_LEN && |hum| == HUM_BUFFER_LEN
    requires trim[..TRIM_WORDS_LEN] == trim'[..TRIM_WORDS_LEN]
    ensures DecodeCalibration(trim, hum) == DecodeCalibration(trim', hum)
  {
    EncodeDecode(trim, hum);
    EncodeDecode(trim', hum);
  }

  // ---------------------------------------------------------------------------
  // The humidity buffer: a 1-byte read at offset 0 and a 7-byte read at offset 1.

  /** A bus read of `data` into `buf` at offset `at`; None when it would write past the end. */
  function StoreRead(buf: seq<u8>, at: nat, data: seq<u8>): (r: Option<seq<u8>>)
    ensures r.Some? <==> at + |data| <= |buf|
    ensures r.Some? ==>
      && |r.value| == |buf|
      && r.value[at..at + |data|] == data
      && r.value[..at] == buf[..at]
      && r.value[at + |data|..] == buf[at + |data|..]
  {
    if at + |data| <= |buf| then Some(buf[..at] + data + buf[at + |data|..]) else None
  }

  /** Both humidity reads into a buffer whose initial (uninitialised) contents are `initial`. */
  function FillHumidityBuffer(initial: seq<u8>, atA1: seq<u8>, atE1: seq<u8>): (r: Option<seq<u8>>)
    requires |atA1| == 1 && |atE1| == 7
    ensures r.Some? <==> HUM_BUFFER_LEN <= |initial|
    ensures r.Some? ==> |r.value| == |initial| && r.value[..HUM_BUFFER_LEN] == atA1 + atE1 && r.value[HUM_BUFFER_LEN..] == initial[HUM_BUFFER_LEN..]
  {
    match StoreRead(initial, 0, atA1)
    case None => None
    case Some(buf) => StoreRead(buf, 1, atE1)
  }

  /** The buffer as declared, `uint8_t hum_data[7]`: the second read runs one byte past its end. */
  const DECLARED_HUM_BUFFER_LEN: nat := 7

  lemma DeclaredHumidityBufferOverflows(initial: seq<u8>, atA1: seq<u8>, atE1: seq<u8>)
    requires |initial| == DECLARED_HUM_BUFFER_LEN && |atA1| == 1 && |atE1| == 7
    ensures FillHumidityBuffer(initial, atA1, atE1) == None
  {
  }

  /** With eight bytes the buffer holds exactly the two reads, and hum[7] is register 0xE7. */
  lemma {:induction false} HumidityBufferHoldsBothReads(initial: seq<u8>, atA1: seq<u8>, atE1: seq<u8>)
    requires |initial| == HUM_BUFFER_LEN && |atA1| == 1 && |atE1| == 7
    ensures FillHumidityBuffer(initial, atA1, atE1) == Some(atA1 + atE1)
    ensures (atA1 + atE1)[7] == atE1[6]
  {
    var first := StoreRead(initial, 0, atA1);
    assert first.Some?;
    var buf := first.value;
    var second := StoreRead(buf, 1, atE1);
    assert second.Some?;
    assert second.value == atA1 + atE1 by {
      assert second.value[..1] == buf[..1] == atA1;
      assert second.value[1..8] == atE1;
      assert second.value == second.value[..1] + second.value[1..8];
    }
  }
}
