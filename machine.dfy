/** Machine-level conventions shared by both variants: the 32-bit `int` of the
    C code, its two's-complement wrap-around, C's truncating division, and an
    Option type standing for an address that may be NULL. */
module Machine {

  const INT32_MIN: int := -0x8000_0000
  const INT32_MAX: int := 0x7fff_ffff
  const TWO32: int := 0x1_0000_0000

  /** The C `int` of the target (32 bits). */
  type Int32 = x: int | -0x8000_0000 <= x <= 0x7fff_ffff

  datatype Option<T> = None | Some(value: T)

  /** Reduction of a mathematical integer to a 32-bit two's-complement int:
      what an `int` holds after an overflowing `+`, `*` or negation on a
      machine that does not trap. */
  function Wrap32(x: int): (r: Int32)
    ensures INT32_MIN <= x <= INT32_MAX ==> r == x
  {
    (x - INT32_MIN) % TWO32 + INT32_MIN
  }

  /** The wrapped value differs from the original by a multiple of 2^32. */
  lemma WrapDiffers(x: int)
    ensures Wrap32(x) == x - ((x - INT32_MIN) / TWO32) * TWO32
  {
    var y := x - INT32_MIN;
    assert y == (y / TWO32) * TWO32 + y % TWO32;
  }

  /** Two integers that differ by a multiple of 2^32 wrap to the same int. */
  lemma WrapCongruent(a: int, b: int, k: int)
    requires a == b + k * TWO32
    ensures Wrap32(a) == Wrap32(b)
  {
    ModShift(b - INT32_MIN, k);
  }

  lemma ModShift(x: int, k: int)
    ensures (x + k * TWO32) % TWO32 == x % TWO32
  {
    var q := x / TWO32;
    var r := x % TWO32;
    assert x == q * TWO32 + r && 0 <= r < TWO32;
    assert x + k * TWO32 == (q + k) * TWO32 + r;
  }

  /** Accumulating `num = num * 10 + d` in a wrapping int gives the same int as
      computing in unbounded arithmetic and wrapping once at the end. */
  lemma WrapMulAdd(a: int, d: int)
    ensures Wrap32(Wrap32(a) * 10 + d) == Wrap32(a * 10 + d)
  {
    var q := (a - INT32_MIN) / TWO32;
    WrapDiffers(a);
    WrapCongruent(Wrap32(a) * 10 + d, a * 10 + d, -10 * q);
  }

  /** Multiplying a wrapped int by a sign and wrapping again is the same as
      multiplying first. */
  lemma WrapSign(sign: int, a: int)
    requires sign == 1 || sign == -1
    ensures Wrap32(sign * Wrap32(a)) == Wrap32(sign * a)
  {
    var q := (a - INT32_MIN) / TWO32;
    WrapDiffers(a);
    WrapCongruent(sign * Wrap32(a), sign * a, -sign * q);
  }

  /** C's `a / b` for a positive divisor: the quotient truncated toward zero
      (Dafny's own `/` rounds toward negative infinity for negative `a`). */
  function Quot(a: int, b: int): int
    requires b > 0
  {
    if a >= 0 then a / b else -((-a) / b)
  }
}
