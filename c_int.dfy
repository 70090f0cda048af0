/**
 * C integer behaviour the decode path relies on: 32-bit two's-complement
 * counters, `& INT32_MAX`, C's truncating `%`, signed `char` and
 * little-endian `int16_t` reads.
 */
module CInt {
  const INT32_MAX: int := 0x7fff_ffff
  const INT32_MIN: int := -0x8000_0000

  type int32 = x: int | -0x8000_0000 <= x < 0x8000_0000
  type uint16 = x: int | 0 <= x < 0x1_0000
  type byte = x: int | 0 <= x < 0x100

  /** `x + 1` on a 32-bit two's-complement int: INT32_MAX wraps to INT32_MIN. */
  function Inc32(x: int32): (r: int32)
    ensures (r - x - 1) % 0x1_0000_0000 == 0
    ensures x < INT32_MAX ==> r == x + 1
  {
    if x == INT32_MAX then INT32_MIN else x + 1
  }

  /** `n` successive increments of a 32-bit counter. */
  function IncN(x: int32, n: nat): int32
  {
    if n == 0 then x else Inc32(IncN(x, n - 1))
  }

  /** `x & INT32_MAX` on a two's-complement int32: the sign bit is cleared. */
  function MaskInt32Max(x: int32): (r: int)
    ensures 0 <= r <= INT32_MAX
    ensures r % 0x8000_0000 == x % 0x8000_0000
  {
    if x < 0 then x + 0x8000_0000 else x
  }

  /** Clearing the sign bit commutes with a 32-bit increment, modulo 2^31. */
  lemma MaskInc32(x: int32)
    ensures MaskInt32Max(Inc32(x)) == (MaskInt32Max(x) + 1) % 0x8000_0000
  {
  }

  lemma ModSucc31(a: nat)
    ensures (a % 0x8000_0000 + 1) % 0x8000_0000 == (a + 1) % 0x8000_0000
  {
    var q := a / 0x8000_0000;
    assert a == q * 0x8000_0000 + a % 0x8000_0000;
    if a % 0x8000_0000 == 0x7fff_ffff {
      assert a + 1 == (q + 1) * 0x8000_0000;
    } else {
      assert a + 1 == q * 0x8000_0000 + (a % 0x8000_0000 + 1);
    }
  }

  /** Publishing `missed & INT32_MAX` after `n` increments from 0 yields `n` modulo 2^31. */
  lemma {:induction false} MaskedCount(n: nat)
    ensures MaskInt32Max(IncN(0, n)) == n % 0x8000_0000
  {
    if n > 0 {
      MaskedCount(n - 1);
      MaskInc32(IncN(0, n - 1));
      ModSucc31(n - 1);
    }
  }

  /** C's `a % 65536`: the quotient truncates toward zero, so a negative `a` leaves a remainder <= 0. */
  function CRem65536(a: int): (r: int)
    ensures (a - r) % 0x1_0000 == 0
    ensures a >= 0 ==> 0 <= r < 0x1_0000
    ensures a < 0 ==> -0x1_0000 < r <= 0
  {
    if a >= 0 then a % 0x1_0000 else -((-a) % 0x1_0000)
  }

  /** A byte read through a signed `char`: values 128..255 become negative. */
  function SignedChar(b: byte): (r: int)
    ensures -0x80 <= r < 0x80
    ensures (r - b) % 0x100 == 0
  {
    if b < 0x80 then b else b - 0x100
  }

  /** The `int16_t` stored little-endian in the two bytes `lo`, `hi`. */
  function Int16LE(lo: byte, hi: byte): (r: int)
    ensures -0x8000 <= r < 0x8000
    ensures (r - lo - 0x100 * hi) % 0x1_0000 == 0
  {
    var u := lo + 0x100 * hi;
    if u < 0x8000 then u else u - 0x1_0000
  }
}
