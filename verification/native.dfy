/** The C++ unsigned integer width the modelled code computes in. */
module Native {

  /** size_t is unsigned 64-bit: arithmetic on it is modulo 2^64. */
  const SizeTModulus: int := 0x1_0000_0000_0000_0000

  /** SIZE_MAX, the largest size_t. */
  const SizeTMax: nat := SizeTModulus - 1

  /** An unsigned 64-bit integer (size_t). */
  type SizeT = x: nat | x < SizeTModulus
}
