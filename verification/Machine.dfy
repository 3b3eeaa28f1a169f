/** Machine words and character classes of the C library. */
module Machine {

  /** An unsigned 32-bit word, and the conversion of a signed value to it. */
  type u32 = x: int | 0 <= x < 0x1_0000_0000

  function U32(x: int): u32 { x % 0x1_0000_0000 }

  /** Negative values of the signed word become large ones. */
  lemma U32Is(x: int)
    requires -0x8000_0000 <= x < 0x8000_0000
    ensures U32(x) == if x >= 0 then x else x + 0x1_0000_0000
  {
  }

  /** A signed 32-bit result, which wraps. */
  function Int32(x: int): int { (x + 0x8000_0000) % 0x1_0000_0000 - 0x8000_0000 }

  /** Conversion to an unsigned 64-bit length. */
  function U64(x: int): int { x % 0x1_0000_0000_0000_0000 }

  /** The white space characters. */
  predicate IsSpace(c: char) {
    c == ' ' || 0x09 <= c as int <= 0x0d
  }

  /** They are the space, the tab, line, page and vertical feeds, and the return. */
  lemma WhiteSpace(c: char)
    ensures IsSpace(c)
            <==> c == ' ' || c == '\t' || c == '\n' || c == '\r' || c as int == 0x0b || c as int == 0x0c
  {
  }
}
