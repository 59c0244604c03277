/** Kotlin's fixed-width integers, written out over Dafny's unbounded `int`.
    Bytes are kept as their unsigned bit pattern (0..255); a Kotlin `Byte` of
    value -1 is the pattern 255 here. */
module Numeric {

  type Byte = x: int | 0 <= x < 0x100
  type Short = x: int | -0x8000 <= x < 0x8000
  type Int32 = x: int | -0x8000_0000 <= x < 0x8000_0000
  type Int64 = x: int | -0x8000_0000_0000_0000 <= x < 0x8000_0000_0000_0000

  const TWO_32: int := 0x1_0000_0000

  /** `Long.toInt()` and Int overflow: the low 32 bits, read as two's complement. */
  function WrapInt32(x: int): (r: Int32)
    ensures (x - r) % TWO_32 == 0
    ensures -0x8000_0000 <= x < 0x8000_0000 ==> r == x
  {
    (x + 0x8000_0000) % TWO_32 - 0x8000_0000
  }

  /** `Int.toShort()`: the low 16 bits, read as two's complement. */
  function WrapInt16(x: int): (r: Short)
    ensures (x - r) % 0x1_0000 == 0
    ensures -0x8000 <= x < 0x8000 ==> r == x
  {
    (x + 0x8000) % 0x1_0000 - 0x8000
  }

  function Abs(x: int): nat { if x < 0 then -x else x }

  function Min(a: int, b: int): int { if a <= b then a else b }

  function Max(a: int, b: int): int { if a >= b then a else b }

  /** Kotlin's `x.coerceIn(lo, hi)`: the point of [lo, hi] nearest to `x`. */
  function Clamp(x: int, lo: int, hi: int): (r: int)
    requires lo <= hi
    ensures lo <= r <= hi
    ensures lo <= x <= hi ==> r == x
    ensures x < lo ==> r == lo
    ensures x > hi ==> r == hi
  {
    if x < lo then lo else if x > hi then hi else x
  }

  /** Kotlin's `/` on Int and Long: the quotient rounded toward zero. */
  function Quot(a: int, b: int): int
    requires b != 0
  {
    if a >= 0 then (if b > 0 then a / b else -(a / -b))
    else (if b > 0 then -((-a) / b) else (-a) / (-b))
  }

  /** Kotlin's `%` on Int and Long: the remainder takes the sign of the dividend. */
  function Rem(a: int, b: int): int
    requires b != 0
  {
    a - b * Quot(a, b)
  }

  /** On a non-negative dividend and a positive divisor Kotlin's division is Dafny's. */
  lemma QuotNatural(a: int, b: int)
    requires a >= 0 && b > 0
    ensures Quot(a, b) == a / b
  {
  }

  /** A dividend that is a multiple of the divisor divides exactly. */
  lemma ExactQuotient(x: int, d: int, q: int)
    requires d > 0 && x == q * d
    ensures x / d == q && x % d == 0
  {
    DivModUnique(x, d, q, 0);
  }

  /** On a negative dividend Kotlin's quotient is the negated quotient of the magnitude. */
  lemma {:induction false} QuotNegative(a: int, b: int)
    requires a < 0 && b > 0
    ensures Quot(a, b) == -((-a) / b) && Rem(a, b) == -((-a) % b)
  {
  }

  /** Byte `k` (0 = least significant) of the two's-complement form of `x`:
      `(x shr 8k) and 0xff`. Dafny's `/` and `%` by a positive divisor floor,
      which is what an arithmetic shift does. */
  function ByteAt(x: int, k: nat): Byte
    decreases k
  {
    if k == 0 then x % 0x100 else ByteAt(x / 0x100, k - 1)
  }

  /** `ByteBuffer.order(LITTLE_ENDIAN).putInt(x)`: the low 32 bits, least significant first. */
  function Int32LE(x: int): (r: seq<Byte>)
    ensures |r| == 4
  {
    [ByteAt(x, 0), ByteAt(x, 1), ByteAt(x, 2), ByteAt(x, 3)]
  }

  /** `ByteBuffer.order(LITTLE_ENDIAN).putShort(x)`: the low 16 bits, least significant first. */
  function Int16LE(x: int): (r: seq<Byte>)
    ensures |r| == 2
  {
    [ByteAt(x, 0), ByteAt(x, 1)]
  }

  /** The unsigned value of four little-endian bytes. */
  function UInt32Of(b: seq<Byte>): nat
    requires |b| == 4
  {
    b[0] as int + 0x100 * (b[1] as int) + 0x1_0000 * (b[2] as int) + 0x100_0000 * (b[3] as int)
  }

  /** Four little-endian bytes hold exactly the low 32 bits of the value. */
  lemma {:induction false} Int32LEValue(x: int)
    ensures UInt32Of(Int32LE(x)) == x % TWO_32
  {
    var q1 := x / 0x100;
    var q2 := q1 / 0x100;
    var q3 := q2 / 0x100;
    var top := q3 / 0x100;
    var b := Int32LE(x);
    assert b[0] == x % 0x100 && b[1] == q1 % 0x100 && b[2] == q2 % 0x100 && b[3] == q3 % 0x100;
    assert x == 0x100 * q1 + b[0];
    assert q1 == 0x100 * q2 + b[1];
    assert q2 == 0x100 * q3 + b[2];
    assert q3 == 0x100 * top + b[3];
    var u := UInt32Of(b);
    assert x == TWO_32 * top + u;
    assert 0 <= u < TWO_32;
    assert x % TWO_32 == u;
  }

  lemma MulSucc(m: int, k: int)
    ensures (m + 1) * k == m * k + k
  {
  }

  lemma MulSwap(a: int, b: int, c: int)
    ensures a * (b * c) == b * (a * c)
  {
  }

  /** Quotient and remainder are the only ones with a remainder in [0, d). */
  lemma DivModUnique(x: int, d: int, q: int, r: int)
    requires d > 0 && 0 <= r < d && x == q * d + r
    ensures x / d == q && x % d == r
  {
    var k := q - x / d;
    assert k * d == x % d - r by {
      assert x == (x / d) * d + x % d;
      assert q * d - (x / d) * d == k * d;
    }
    if k >= 1 {
      MulAtLeast(k, d);
      assert false;
    } else if k <= -1 {
      MulAtLeast(-k, d);
      assert false;
    }
  }

  lemma MulAtLeast(k: int, d: int)
    requires k >= 1 && d > 0
    ensures k * d >= d && (-k) * d <= -d
  {
    assert k * d == (k - 1) * d + d;
  }

  /** Adding whole multiples of 0x100 leaves the low byte and shifts the rest. */
  lemma ShiftByte(a: int, b: int, m: int)
    requires a == b + 0x100 * m
    ensures a % 0x100 == b % 0x100 && a / 0x100 == b / 0x100 + m
  {
    DivModUnique(a, 0x100, b / 0x100 + m, b % 0x100);
  }

  /** Only the low 32 bits reach the bytes: `x.toInt()` writes the same bytes as `x`. */
  lemma Int32LEWrap(x: int)
    ensures Int32LE(WrapInt32(x)) == Int32LE(x)
  {
    var y := WrapInt32(x);
    var d := (x - y) / TWO_32;
    assert x - y == TWO_32 * d;
    ShiftByte(x, y, 0x100 * (0x100 * (0x100 * d)));
    ShiftByte(x / 0x100, y / 0x100, 0x100 * (0x100 * d));
    ShiftByte(x / 0x100 / 0x100, y / 0x100 / 0x100, 0x100 * d);
    ShiftByte(x / 0x100 / 0x100 / 0x100, y / 0x100 / 0x100 / 0x100, d);
  }

  /** Only the low 16 bits reach the bytes: `x.toShort()` writes the same bytes as `x`. */
  lemma Int16LEWrap(x: int)
    ensures Int16LE(WrapInt16(x)) == Int16LE(x)
  {
    var y := WrapInt16(x);
    var d := (x - y) / 0x1_0000;
    assert x - y == 0x1_0000 * d;
    ShiftByte(x, y, 0x100 * d);
    ShiftByte(x / 0x100, y / 0x100, d);
  }
}
