/**
 * Integer widths of the benchmark's buffers and the arithmetic of one 64-bit
 * lane of the VPMADD52HUQ instruction (Intel 64 and IA-32 Architectures
 * Software Developer's Manual, Volume 2, instruction VPMADD52HUQ).
 *
 * Machine integers are modelled as bounded `int`s; a signed element is read
 * and written through its two's-complement bit pattern, as a vector load or
 * store does.
 */
module Lanes {

  const TWO32: int := 0x1_0000_0000
  const TWO52: int := 0x10_0000_0000_0000
  const TWO64: int := 0x1_0000_0000_0000_0000

  /** `u_int8_t`, the element type of `input_x`. */
  type U8 = x: int | 0 <= x < 0x100
  /** `int8_t`, the element type of `input_y`. */
  type I8 = x: int | -0x80 <= x < 0x80
  /** `int32_t`, the element type of `input_z` and `output`. */
  type I32 = x: int | -0x8000_0000 <= x < 0x8000_0000
  /** One unsigned 64-bit lane of a 512-bit register. */
  type U64 = x: int | 0 <= x < 0x1_0000_0000_0000_0000

  /** 256^n, the weight of byte n in a little-endian number. */
  function Pow256(n: nat): (p: nat)
    ensures p >= 1
  {
    if n == 0 then 1 else 0x100 * Pow256(n - 1)
  }

  lemma Pow256Eight()
    ensures Pow256(8) == TWO64
  {
  }

  /** The bit pattern of one byte of memory, whether it is read as signed or unsigned. */
  function ByteBits(b: int): (u: U8)
    ensures -0x80 <= b < 0x100 ==> (u == b || u == b + 0x100)
  {
    b % 0x100
  }

  // ---------------------------------------------------------------------------
  // Bytes <-> lanes (little-endian, as x86 loads memory)
  // ---------------------------------------------------------------------------

  /** The number whose little-endian encoding is `bytes`: byte 0 is the least significant. */
  function LittleEndian(bytes: seq<int>): (v: nat)
    ensures v < Pow256(|bytes|)
  {
    if bytes == [] then 0 else ByteBits(bytes[0]) + 0x100 * LittleEndian(bytes[1..])
  }

  /** The `n`-byte little-endian encoding of `v` (the inverse of LittleEndian). */
  function ToLittleEndian(v: nat, n: nat): (bytes: seq<U8>)
    ensures |bytes| == n
  {
    if n == 0 then [] else [v % 0x100] + ToLittleEndian(v / 0x100, n - 1)
  }

  /** Decoding an encoding gives back every number that fits in `n` bytes. */
  lemma {:induction false} LittleEndianOfEncoding(v: nat, n: nat)
    requires v < Pow256(n)
    ensures LittleEndian(ToLittleEndian(v, n)) == v
  {
    if n > 0 {
      var bytes := ToLittleEndian(v, n);
      assert bytes[1..] == ToLittleEndian(v / 0x100, n - 1);
      LittleEndianOfEncoding(v / 0x100, n - 1);
    }
  }

  /** Encoding a decoded byte string gives back the byte string. */
  lemma {:induction false} EncodingOfLittleEndian(bytes: seq<U8>)
    ensures ToLittleEndian(LittleEndian(bytes), |bytes|) == bytes
  {
    if bytes != [] {
      var v := LittleEndian(bytes);
      assert v % 0x100 == bytes[0];
      assert v / 0x100 == LittleEndian(bytes[1..]);
      EncodingOfLittleEndian(bytes[1..]);
    }
  }

  /** Zero-filled memory reads as the number zero. */
  lemma {:induction false} LittleEndianOfZeros(bytes: seq<int>)
    requires forall k :: 0 <= k < |bytes| ==> bytes[k] == 0
    ensures LittleEndian(bytes) == 0
  {
    if bytes != [] {
      LittleEndianOfZeros(bytes[1..]);
    }
  }

  /** The lane held by the 8 bytes of `buf` starting at `off`. */
  function LaneOfBytes(buf: seq<int>, off: int): (v: U64)
    requires 0 <= off && off + 8 <= |buf|
  {
    Pow256Eight();
    LittleEndian(buf[off..off + 8])
  }

  // ---------------------------------------------------------------------------
  // 32-bit words <-> lanes
  // ---------------------------------------------------------------------------

  /** The `int32_t` whose two's-complement bit pattern is `u`. */
  function ToI32(u: int): (w: I32)
    requires 0 <= u < TWO32
    ensures w % TWO32 == u
    ensures w >= 0 <==> u < 0x8000_0000
  {
    if u < 0x8000_0000 then u else u - TWO32
  }

  /** The `int32_t` stored at the lower address of a lane (bits 31:0). */
  function LowWord(v: U64): I32 {
    ToI32(v % TWO32)
  }

  /** The `int32_t` stored at the higher address of a lane (bits 63:32). */
  function HighWord(v: U64): I32 {
    ToI32(v / TWO32)
  }

  /** The lane held by two consecutive `int32_t`s, the first one least significant. */
  function LaneOfWords(lo: I32, hi: I32): (v: U64)
    ensures LowWord(v) == lo && HighWord(v) == hi
  {
    lo % TWO32 + TWO32 * (hi % TWO32)
  }

  /** Storing a lane as two words and loading them back gives the lane. */
  lemma WordsOfLane(v: U64)
    ensures LaneOfWords(LowWord(v), HighWord(v)) == v
  {
  }

  // ---------------------------------------------------------------------------
  // VPMADD52HUQ, one lane
  // ---------------------------------------------------------------------------

  /** Bits 63:52 of a lane, shifted down. */
  function Hi12(x: U64): (q: int)
    ensures 0 <= q < 0x1000
  {
    x / TWO52
  }

  /**
   * Bits 51:0 of a lane, zero-extended: what remains of the lane once bits
   * 63:52 are taken away, so the lane is the two fields side by side.
   */
  function Lo52(x: U64): (r: U64)
    ensures r < TWO52
    ensures x == Hi12(x) * TWO52 + r
    ensures x < TWO52 ==> r == x
  {
    x % TWO52
  }

  lemma ProductBelow(a: int, b: int, m: int)
    requires 0 <= a < m && 0 <= b < m
    ensures a * b < m * m
  {
  }

  /**
   * Bits 103:52 of the 104-bit product of the low 52 bits of `b` and `c`:
   * the high half of the product, which is below 2^52.
   */
  function Hi52(b: U64, c: U64): (r: int)
    ensures 0 <= r < TWO52
    ensures r * TWO52 <= Lo52(b) * Lo52(c) < (r + 1) * TWO52
  {
    ProductBelow(Lo52(b), Lo52(c), TWO52);
    Lo52(b) * Lo52(c) / TWO52
  }

  /**
   * One lane of `_mm512_madd52hi_epu64(a, b, c)`: `a` plus the high 52 bits of
   * the product of the low 52 bits of `b` and `c`, modulo 2^64.
   */
  function Madd52Hi(a: U64, b: U64, c: U64): (r: U64)
    ensures a + Hi52(b, c) < TWO64 ==> r == a + Hi52(b, c)
    ensures a + Hi52(b, c) >= TWO64 ==> r == a + Hi52(b, c) - TWO64
  {
    (a + Hi52(b, c)) % TWO64
  }

  /** Only bits 51:0 of the multiplicands matter. */
  lemma Madd52HiIgnoresHighBits(a: U64, b: U64, c: U64)
    ensures Madd52Hi(a, b, c) == Madd52Hi(a, Lo52(b), Lo52(c))
  {
  }

  /** The multiplicands can be swapped. */
  lemma Madd52HiCommutes(a: U64, b: U64, c: U64)
    ensures Madd52Hi(a, b, c) == Madd52Hi(a, c, b)
  {
  }

  /** A product below 2^52 has no high half, so the accumulator passes through. */
  lemma Madd52HiSmallProduct(a: U64, b: U64, c: U64)
    requires Lo52(b) * Lo52(c) < TWO52
    ensures Madd52Hi(a, b, c) == a
  {
  }
}
