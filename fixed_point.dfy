/**
 * The C integer semantics the compensation code relies on, written out over
 * Dafny's unbounded integers: fixed-width integer types, two's-complement
 * wrap-around, arithmetic (flooring) right shift, left shift as a wrapped
 * multiplication, and C's truncating division.
 */
module FixedPoint {

  const TWO_8: int := 0x100
  const TWO_16: int := 0x1_0000
  const TWO_31: int := 0x8000_0000
  const TWO_32: int := 0x1_0000_0000
  const TWO_63: int := 0x8000_0000_0000_0000
  const TWO_64: int := 0x1_0000_0000_0000_0000

  type u8 = x: int | 0 <= x < 0x100
  type i8 = x: int | -0x80 <= x < 0x80
  type u16 = x: int | 0 <= x < 0x1_0000
  type i16 = x: int | -0x8000 <= x < 0x8000
  type i32 = x: int | -0x8000_0000 <= x < 0x8000_0000
  type u32 = x: int | 0 <= x < 0x1_0000_0000
  type i64 = x: int | -0x8000_0000_0000_0000 <= x < 0x8000_0000_0000_0000

  /** 2 to the power n. */
  function Pow2(n: nat): (r: nat)
    ensures r >= 1
  {
    if n == 0 then 1 else 2 * Pow2(n - 1)
  }

  /** Exponents add: 2^(a+b) = 2^a * 2^b. */
  lemma {:induction false} Pow2Add(a: nat, b: nat)
    ensures Pow2(a + b) == Pow2(a) * Pow2(b)
  {
    if a > 0 {
      Pow2Add(a - 1, b);
    }
  }

  /** The powers of two behind the shift counts of the compensation code. */
  lemma Pow2Values()
    ensures Pow2(1) == 2 && Pow2(3) == 8 && Pow2(4) == 16 && Pow2(7) == 128
    ensures Pow2(8) == 256 && Pow2(10) == 1024 && Pow2(11) == 2048 && Pow2(12) == 4096
    ensures Pow2(13) == 8192 && Pow2(14) == 16384 && Pow2(15) == 32768
    ensures Pow2(17) == 0x2_0000 && Pow2(19) == 0x8_0000 && Pow2(20) == 0x10_0000
    ensures Pow2(25) == 0x200_0000 && Pow2(31) == 0x8000_0000 && Pow2(33) == 0x2_0000_0000
    ensures Pow2(35) == 0x8_0000_0000 && Pow2(47) == 0x8000_0000_0000
  {
    Pow2Add(10, 7);
    Pow2Add(10, 9);
    Pow2Add(10, 10);
    Pow2Add(10, 15);
    Pow2Add(16, 15);
    Pow2Add(16, 17);
    Pow2Add(16, 19);
    Pow2Add(32, 15);
    assert Pow2(16) == 0x1_0000;
    assert Pow2(32) == 0x1_0000_0000 by { Pow2Add(16, 16); }
  }

  /** The int32 that the machine holds for the mathematical value x. */
  function Wrap32(x: int): (r: i32)
    ensures (x - r) % TWO_32 == 0
    ensures -TWO_31 <= x < TWO_31 ==> r == x
  {
    (x + TWO_31) % TWO_32 - TWO_31
  }

  /** The int64 that the machine holds for the mathematical value x. */
  function Wrap64(x: int): (r: i64)
    ensures (x - r) % TWO_64 == 0
    ensures -TWO_63 <= x < TWO_63 ==> r == x
  {
    (x + TWO_63) % TWO_64 - TWO_63
  }

  /** The conversion of a signed value to uint32_t (reduction modulo 2^32). */
  function ToU32(x: int): (r: u32)
    ensures (x - r) % TWO_32 == 0
    ensures 0 <= x < TWO_32 ==> r == x
  {
    x % TWO_32
  }

  /** Arithmetic right shift `x >> n`: it rounds towards minus infinity. */
  function Sar(x: int, n: nat): (r: int)
    ensures r * Pow2(n) <= x < r * Pow2(n) + Pow2(n)
    ensures 0 <= x ==> 0 <= r <= x
    ensures x < 0 ==> x <= r < 0
  {
    var d := Pow2(n);
    DivisionBounds(x, d);
    x / d
  }

  lemma DivisionBounds(x: int, d: int)
    requires d >= 1
    ensures (x / d) * d <= x < (x / d) * d + d
    ensures 0 <= x ==> 0 <= x / d <= x
    ensures x < 0 ==> x <= x / d < 0
  {
    var q := x / d;
    DivMod(x, d);
    ScaleBounds(q, d);
  }

  lemma DivMod(x: int, d: int)
    requires d >= 1
    ensures x == (x / d) * d + x % d && 0 <= x % d < d
  {
  }

  lemma {:induction false} ScaleBounds(q: int, d: int)
    requires d >= 1
    ensures q >= 0 ==> 0 <= q <= q * d
    ensures q < 0 ==> q * d <= q + 1 - d
    decreases d
  {
    if d > 1 {
      ScaleBounds(q, d - 1);
      assert q * d == q * (d - 1) + q;
    }
  }

  /** C's `/` on signed operands: the quotient is truncated towards zero. */
  function TruncDiv(a: int, b: int): (q: int)
    requires b != 0
    ensures 0 <= a ==> 0 <= a - q * b < (if b > 0 then b else -b)
    ensures a < 0 ==> 0 <= q * b - a < (if b > 0 then b else -b)
  {
    if (a >= 0) == (b > 0) then Abs(a) / Abs(b) else -(Abs(a) / Abs(b))
  }

  function Abs(x: int): (r: nat)
    ensures r == x || r == -x
  {
    if x < 0 then -x else x
  }

  // The int32 operations of the compensation code, each wrapping on overflow.

  function Add32(a: int, b: int): (r: i32)
    ensures -TWO_31 <= a + b < TWO_31 ==> r == a + b
  {
    Wrap32(a + b)
  }

  function Sub32(a: int, b: int): (r: i32)
    ensures -TWO_31 <= a - b < TWO_31 ==> r == a - b
  {
    Wrap32(a - b)
  }

  function Mul32(a: int, b: int): (r: i32)
    ensures -TWO_31 <= a * b < TWO_31 ==> r == a * b
  {
    Wrap32(a * b)
  }

  /** `x << n` on an int32: the bits shifted past bit 31 are lost. */
  function Shl32(x: int, n: nat): (r: i32)
    ensures -TWO_31 <= x * Pow2(n) < TWO_31 ==> r == x * Pow2(n)
  {
    Wrap32(x * Pow2(n))
  }

  // The int64 operations of the pressure ladder, each wrapping on overflow.

  function Add64(a: int, b: int): (r: i64)
    ensures -TWO_63 <= a + b < TWO_63 ==> r == a + b
  {
    Wrap64(a + b)
  }

  function Sub64(a: int, b: int): (r: i64)
    ensures -TWO_63 <= a - b < TWO_63 ==> r == a - b
  {
    Wrap64(a - b)
  }

  function Mul64(a: int, b: int): (r: i64)
    ensures -TWO_63 <= a * b < TWO_63 ==> r == a * b
  {
    Wrap64(a * b)
  }

  /** `x << n` on an int64. */
  function Shl64(x: int, n: nat): (r: i64)
    ensures -TWO_63 <= x * Pow2(n) < TWO_63 ==> r == x * Pow2(n)
  {
    Wrap64(x * Pow2(n))
  }

  /** `x / y` on int64 operands; the one overflowing case, INT64_MIN / -1, wraps. */
  function Div64(a: int, b: int): (r: i64)
    requires b != 0
    ensures -TWO_63 <= TruncDiv(a, b) < TWO_63 ==> r == TruncDiv(a, b)
  {
    Wrap64(TruncDiv(a, b))
  }

  /** The two's-complement reading of a 16-bit pattern (the cast to int16_t). */
  function ToSigned16(w: u16): (s: i16)
    ensures (w - s) % TWO_16 == 0
    ensures 0 <= s <==> w < 0x8000
  {
    if w < 0x8000 then w else w - TWO_16
  }

  /** The 16-bit pattern of a signed value (its storage as two bytes). */
  function FromSigned16(s: i16): (w: u16)
    ensures ToSigned16(w) == s
  {
    if s < 0 then s + TWO_16 else s
  }

  /** The two's-complement reading of an 8-bit pattern (the cast to int8_t). */
  function ToSigned8(b: u8): (s: i8)
    ensures (b - s) % TWO_8 == 0
    ensures 0 <= s <==> b < 0x80
  {
    if b < 0x80 then b else b - TWO_8
  }

  /** The 8-bit pattern of a signed byte. */
  function FromSigned8(s: i8): (b: u8)
    ensures ToSigned8(b) == s
  {
    if s < 0 then s + TWO_8 else s
  }

  /** Two's-complement reinterpretation is a bijection on 16-bit patterns. */
  lemma SignedRoundTrip16(w: u16)
    ensures FromSigned16(ToSigned16(w)) == w
  {
  }
}
