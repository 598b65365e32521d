/**
 * The C integer types the core relies on, with the widths of the usual
 * LP64 targets: a 32-bit two's-complement `int` and a 64-bit `size_t`.
 * Dafny's integers are unbounded, so every wrap-around and every
 * conversion between the two is written out here.
 */
module CTypes {

  const IntMin: int := -0x8000_0000
  const IntMax: int := 0x7fff_ffff

  /** 2^32: the number of values of a 32-bit `int`. */
  const IntModulus: int := 0x1_0000_0000

  /** 2^64: `size_t` arithmetic is reduced modulo this (ISO C11 6.2.5p9). */
  const SizeModulus: int := 0x1_0000_0000_0000_0000
  const SizeMax: int := SizeModulus - 1

  predicate InIntRange(x: int) {
    IntMin <= x <= IntMax
  }

  /** A value of C `int`. */
  type CInt = x: int | IntMin <= x <= IntMax

  /** A value of C `size_t`. */
  type SizeT = u: int | 0 <= u < SizeModulus

  /** `u - 1` on `size_t`: below zero it wraps around to SIZE_MAX. */
  function Decrement(u: SizeT): (r: SizeT)
    ensures (r + 1) % SizeModulus == u
    ensures u > 0 ==> r < u
    ensures u == 0 ==> r == SizeMax
  {
    (u - 1) % SizeModulus
  }

  /**
   * Converting a `size_t` to `int` when the value does not fit is
   * implementation-defined (ISO C11 6.3.1.3p3); the usual targets reduce it
   * modulo 2^32 into the two's-complement range, which is what this does.
   */
  function IntOfSize(u: SizeT): (r: CInt)
    ensures (u - r) % IntModulus == 0
    ensures u <= IntMax ==> r == u
  {
    var t := u % IntModulus;
    if t <= IntMax then t else t - IntModulus
  }

  /** SIZE_MAX, the value a `size_t` counter wraps to, reads back as -1. */
  lemma SizeMaxIsMinusOne()
    ensures IntOfSize(SizeMax) == -1
  {
  }
}
