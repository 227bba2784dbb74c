/** The De Bruijn trailing-zero lookup the type setter uses. */
module DeBruijn {

  const DEBRUIJN: seq<bv32> := [0, 1, 28, 2, 29, 14, 24, 3, 30, 22, 20, 15, 25, 17, 4, 8,
                                31, 27, 13, 23, 21, 19, 16, 7, 26, 12, 18, 6, 11, 5, 10, 9]

  /**
   * Trailing-zero count of a power of two: multiply by the De Bruijn
   * constant modulo 2^32 (the product is exact, and `>>>` first reduces it
   * to an unsigned 32-bit value), keep the top five bits, look them up.
   */
  function TrailingZeros(value: bv32): bv32
  {
    DEBRUIJN[((value * 0x077C_B531) >> 27) as bv5 as int]
  }

  /** The lookup returns the exponent for each power of two the lexer stores as a type id. */
  lemma DeBruijnOnTypeWords()
    ensures TrailingZeros(1) == 0 && TrailingZeros(2) == 1 && TrailingZeros(4) == 2
    ensures TrailingZeros(8) == 3 && TrailingZeros(16) == 4 && TrailingZeros(32) == 5
    ensures TrailingZeros(64) == 6 && TrailingZeros(128) == 7 && TrailingZeros(256) == 8
    ensures TrailingZeros(512) == 9 && TrailingZeros(32768) == 15
  {
    assert DEBRUIJN[0] == 0 && DEBRUIJN[1] == 1 && DEBRUIJN[3] == 2 && DEBRUIJN[7] == 3;
    assert DEBRUIJN[14] == 4 && DEBRUIJN[29] == 5 && DEBRUIJN[27] == 6 && DEBRUIJN[23] == 7;
    assert DEBRUIJN[15] == 8 && DEBRUIJN[31] == 9 && DEBRUIJN[11] == 15;
  }
}

/**
 * The lexer keeps its token type, token length and three flags in one
 * 32-bit word (masked_values).  This module models that word and the
 * getters and setters over it, with JavaScript's 32-bit bitwise operators
 * written out on bv32.  The rest of the model keeps the same fields
 * unpacked; the lemmas here say when that is exact.
 */
module Packing {
  import opened LexTables
  import opened DeBruijn

  const TYPE_MASK: bv32 := 0xF
  const PARSE_STRING_MASK: bv32 := 0x10
  const IGNORE_WHITESPACE_MASK: bv32 := 0x20
  const CHARACTERS_ONLY_MASK: bv32 := 0x40
  const TOKEN_LENGTH_MASK: bv32 := 0xFFFF_FF80

  /** The type getter: one shifted left by the stored index. */
  function TypeBits(mv: bv32): bv32 {
    (1 as bv32) << (mv & TYPE_MASK)
  }

  /** The type setter, which assumes its argument is a power of two. */
  function SetTypeBits(mv: bv32, value: bv32): bv32 {
    (mv & !TYPE_MASK) | (TrailingZeros(value) & TYPE_MASK)
  }

  /** `>> 7` on a signed 32-bit value: shift right, copying the sign bit into the vacated bits. */
  function SignedShift7(x: bv32): bv32 {
    if x & 0x8000_0000 != 0 then (x >> 7) | 0xFE00_0000 else x >> 7
  }

  /** The token-length getter. */
  function TokenLengthBits(mv: bv32): bv32 {
    SignedShift7(mv & TOKEN_LENGTH_MASK)
  }

  /** The token-length setter: the value shifted left by 7 and masked. */
  function SetTokenLengthBits(mv: bv32, value: bv32): bv32 {
    (mv & !TOKEN_LENGTH_MASK) | ((value << 7) & TOKEN_LENGTH_MASK)
  }

  function Flag(mv: bv32, mask: bv32): bool { mv & mask != 0 }

  function SetFlag(mv: bv32, mask: bv32, b: bool): bv32 {
    (mv & !mask) | (if b then mask else 0)
  }

  /** A length fits the packed field when bits 24..31 all copy bit 24 (a 25-bit two's-complement value). */
  predicate FitsTokenLength(value: bv32) {
    value & 0xFF00_0000 == 0 || value & 0xFF00_0000 == 0xFF00_0000
  }

  /**
   * Storing the power of two 1 << k and reading the type back returns it,
   * and only the low four bits change, whenever the lookup gives k for it;
   * DeBruijnOnTypeWords shows that it does for every type id the lexer uses.
   */
  lemma TypeRoundTrip(mv: bv32, k: bv32)
    requires k < 16 && TrailingZeros((1 as bv32) << k) == k
    ensures SetTypeBits(mv, (1 as bv32) << k) & TYPE_MASK == k
    ensures TypeBits(SetTypeBits(mv, (1 as bv32) << k)) == (1 as bv32) << k
    ensures SetTypeBits(mv, (1 as bv32) << k) & !TYPE_MASK == mv & !TYPE_MASK
  {
  }

  lemma LengthField(mv: bv32, value: bv32)
    ensures SetTokenLengthBits(mv, value) & TOKEN_LENGTH_MASK == value << 7
    ensures SetTokenLengthBits(mv, value) & 0x7F == mv & 0x7F
  {
  }

  lemma ShiftBack(value: bv32)
    ensures SignedShift7(value << 7) == value <==> FitsTokenLength(value)
  {
    if value & 0x0100_0000 == 0 {
      assert (value << 7) & 0x8000_0000 == 0;
    } else {
      assert (value << 7) & 0x8000_0000 != 0;
    }
  }

  /**
   * A length reads back as written exactly when it fits in 25 signed bits
   * (so every length below 2^24 survives and 2^24 does not); the type and
   * flag bits are untouched.
   */
  lemma TokenLengthRoundTrip(mv: bv32, value: bv32)
    ensures TokenLengthBits(SetTokenLengthBits(mv, value)) == value <==> FitsTokenLength(value)
    ensures SetTokenLengthBits(mv, value) & 0x7F == mv & 0x7F
  {
    LengthField(mv, value);
    ShiftBack(value);
  }

  /** 2^24 is the first length that does not survive: it reads back with the sign bits set. */
  lemma LengthWrapsAt2To24(mv: bv32)
    ensures TokenLengthBits(SetTokenLengthBits(mv, 0x100_0000)) == 0xFF00_0000
  {
    LengthField(mv, 0x100_0000);
  }

  /** Each flag reads back as written and leaves every other bit alone. */
  lemma FlagRoundTrip(mv: bv32, mask: bv32, b: bool)
    requires mask in {PARSE_STRING_MASK, IGNORE_WHITESPACE_MASK, CHARACTERS_ONLY_MASK}
    ensures Flag(SetFlag(mv, mask, b), mask) == b
    ensures SetFlag(mv, mask, b) & !mask == mv & !mask
  {
  }
}
