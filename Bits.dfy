/** The 64-bit encoding behind bitboards (inc/Bitboard.h): bit `k` of a word
    stands for square `k`, so the low three bits of `k` are its file and the high
    three its rank. Every fact here is about one bit, `BitAt(x, k)` for a 6-bit
    index `k`, and says that a word formula of the engine acts on the bits as the
    corresponding set operation of module Bitboard acts on squares. */
module Bits {
  type Word = bv64

  const FILE_A_WORD: Word := 0x0101_0101_0101_0101
  const FILE_H_WORD: Word := 0x8080_8080_8080_8080
  const RANK_1_WORD: Word := 0xFF

  /** Bit `k` of `x`. */
  predicate BitAt(x: Word, k: bv6) { (x >> k) & 1 == 1 }

  // ---------------------------------------------------------------- one bit at a time

  lemma SingleBits(k: bv6, j: bv6)
    ensures BitAt((1 as bv64) << k, j) <==> k == j
  {
  }

  lemma OrBits(a: Word, b: Word, k: bv6)
    ensures BitAt(a | b, k) <==> BitAt(a, k) || BitAt(b, k)
  {
  }

  lemma AndBits(a: Word, b: Word, k: bv6)
    ensures BitAt(a & b, k) <==> BitAt(a, k) && BitAt(b, k)
  {
  }

  lemma AndNotBits(a: Word, b: Word, k: bv6)
    ensures BitAt(a & !b, k) <==> BitAt(a, k) && !BitAt(b, k)
  {
  }

  lemma XorBits(a: Word, b: Word, k: bv6)
    ensures BitAt(a ^ b, k) <==> BitAt(a, k) != BitAt(b, k)
  {
  }

  /** `testBit` is `x & squareBB(sq)`: non-zero exactly when the bit is set. */
  lemma MaskBits(x: Word, k: bv6)
    ensures BitAt(x, k) <==> x & ((1 as bv64) << k) != 0
  {
  }

  /** `popLsb` clears the lowest set bit with `x & (x - 1)`. */
  lemma ClearLowestBits(x: Word, k: bv6)
    requires x & (((1 as bv64) << k) - 1) == 0 && BitAt(x, k)
    ensures x & (x - 1) == x & !((1 as bv64) << k)
  {
  }

  // ---------------------------------------------------------------- shifts (bit j moves to bit k)

  /** `x << 8` moves each bit up one rank; nothing arrives on rank 1. */
  lemma Up8Bits(x: Word, j: bv6, k: bv6)
    requires k == j + 8 && j >> 3 != 7
    ensures BitAt(x << 8, k) <==> BitAt(x, j)
  {
  }

  lemma Up8EdgeBits(x: Word, k: bv6)
    requires k >> 3 == 0
    ensures !BitAt(x << 8, k)
  {
  }

  /** `x >> 8` moves each bit down one rank; nothing arrives on rank 8. */
  lemma Down8Bits(x: Word, j: bv6, k: bv6)
    requires j == k + 8 && k >> 3 != 7
    ensures BitAt(x >> 8, k) <==> BitAt(x, j)
  {
  }

  lemma Down8EdgeBits(x: Word, k: bv6)
    requires k >> 3 == 7
    ensures !BitAt(x >> 8, k)
  {
  }

  lemma Up16Bits(x: Word, j: bv6, k: bv6)
    requires k == j + 16 && j >> 3 < 6
    ensures BitAt(x << 16, k) <==> BitAt(x, j)
  {
  }

  lemma Down16Bits(x: Word, j: bv6, k: bv6)
    requires j == k + 16 && k >> 3 < 6
    ensures BitAt(x >> 16, k) <==> BitAt(x, j)
  {
  }

  /** White's west capture `(x & ~FILE_A) << 7`: up one rank and one file
      towards A, with nothing arriving on file H. */
  lemma WestWhiteBits(x: Word, j: bv6, k: bv6)
    requires k == j + 7 && j & 7 != 0 && j >> 3 != 7
    ensures BitAt((x & !FILE_A_WORD) << 7, k) <==> BitAt(x, j)
  {
  }

  lemma WestWhiteEdgeBits(x: Word, k: bv6)
    requires k >> 3 == 0 || k & 7 == 7
    ensures !BitAt((x & !FILE_A_WORD) << 7, k)
  {
  }

  /** White's east capture `(x & ~FILE_H) << 9`: nothing arrives on file A. */
  lemma EastWhiteBits(x: Word, j: bv6, k: bv6)
    requires k == j + 9 && j & 7 != 7 && j >> 3 != 7
    ensures BitAt((x & !FILE_H_WORD) << 9, k) <==> BitAt(x, j)
  {
  }

  lemma EastWhiteEdgeBits(x: Word, k: bv6)
    requires k >> 3 == 0 || k & 7 == 0
    ensures !BitAt((x & !FILE_H_WORD) << 9, k)
  {
  }

  /** Black's west capture `(x & ~FILE_A) >> 9`. */
  lemma WestBlackBits(x: Word, j: bv6, k: bv6)
    requires j == k + 9 && j & 7 != 0 && k >> 3 != 7
    ensures BitAt((x & !FILE_A_WORD) >> 9, k) <==> BitAt(x, j)
  {
  }

  lemma WestBlackEdgeBits(x: Word, k: bv6)
    requires k >> 3 == 7 || k & 7 == 7
    ensures !BitAt((x & !FILE_A_WORD) >> 9, k)
  {
  }

  /** Black's east capture `(x & ~FILE_H) >> 7`. */
  lemma EastBlackBits(x: Word, j: bv6, k: bv6)
    requires j == k + 7 && j & 7 != 7 && k >> 3 != 7
    ensures BitAt((x & !FILE_H_WORD) >> 7, k) <==> BitAt(x, j)
  {
  }

  lemma EastBlackEdgeBits(x: Word, k: bv6)
    requires k >> 3 == 7 || k & 7 == 0
    ensures !BitAt((x & !FILE_H_WORD) >> 7, k)
  {
  }

  /** `fileBB` shifts file A across: exactly the bits whose low three bits are the file. */
  lemma FileBits(f: bv6, k: bv6)
    requires f < 8
    ensures BitAt(FILE_A_WORD << f, k) <==> k & 7 == f
  {
  }

  /** `rankBB` shifts rank 1 up: exactly the bits whose high three bits are the rank. */
  lemma RankBits(r: bv6, k: bv6)
    requires r < 8
    ensures BitAt(RANK_1_WORD << (r * 8), k) <==> k >> 3 == r
  {
  }
}
