/** The macros of `bitops.h` on 32-bit words. */
module Bits {

  type Word = bv32

  const BITS_PER_LONG: bv8 := 32

  function Bit(nr: bv8): (b: Word)
    requires nr < BITS_PER_LONG
  {
    (1 as Word) << nr
  }

  /** Ones from bit `l` up to and including bit `h`. */
  function GenMask(h: bv8, l: bv8): Word
    requires l <= h < BITS_PER_LONG
  {
    (0xFFFF_FFFF << l) & ((0xFFFF_FFFF as Word) >> (BITS_PER_LONG - h - 1))
  }

  function NBits2(n: Word): bv8 {
    if n & 2 != 0 then 1 else 0
  }

  function NBits4(n: Word): bv8 {
    if n & 0xC != 0 then 2 + NBits2(n >> 2) else NBits2(n)
  }

  function NBits8(n: Word): bv8 {
    if n & 0xF0 != 0 then 4 + NBits4(n >> 4) else NBits4(n)
  }

  function NBits16(n: Word): bv8 {
    if n & 0xFF00 != 0 then 8 + NBits8(n >> 8) else NBits8(n)
  }

  function NBits32(n: Word): bv8 {
    if n & 0xFFFF_0000 != 0 then 16 + NBits16(n >> 16) else NBits16(n)
  }

  function NBits(n: Word): bv8 {
    if n == 0 then 0 else NBits32(n)
  }

  /** `NBits` is the integer logarithm: 2^NBits(n) <= n < 2^(NBits(n)+1). */
  lemma NBitsIsLog2(n: Word)
    requires n != 0
    ensures NBits(n) < BITS_PER_LONG && n >> NBits(n) == 1
  {
  }

  lemma GenMaskBits(h: bv8, l: bv8, k: bv8)
    requires l <= h < BITS_PER_LONG && k < BITS_PER_LONG
    ensures GenMask(h, l) & Bit(k) != 0 <==> l <= k <= h
  {
  }

  lemma GenMaskIsDifference(h: bv8, l: bv8)
    requires l <= h < BITS_PER_LONG
    ensures GenMask(h, l) as bv64 == ((1 as bv64) << (h + 1)) - ((1 as bv64) << l)
  {
  }
}
