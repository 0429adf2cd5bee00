/** Fixed-width unsigned machine words as bounded integers, and their
    little-endian byte images, as an x86 CPU lays them out in memory.

    For these non-negative values, `w & (2^k - 1)` is `w % 2^k` and
    `w >> k` is `w / 2^k`; the models below use the arithmetic forms. */
module Words {

  type u8 = x: int | 0 <= x < 0x100
  type u16 = x: int | 0 <= x < 0x1_0000
  type u32 = x: int | 0 <= x < 0x1_0000_0000
  type i32 = x: int | -0x8000_0000 <= x < 0x8000_0000

  /** Little-endian bytes of a 16-bit word. */
  function Le16(w: u16): seq<u8> {
    [w % 0x100, w / 0x100]
  }

  /** The 16-bit word whose little-endian bytes are lo, hi. */
  function FromLe16(lo: u8, hi: u8): (w: u16)
    ensures Le16(w) == [lo, hi]
  {
    hi * 0x100 + lo
  }

  /** Little-endian bytes of a 32-bit word. */
  function Le32(w: u32): seq<u8> {
    [w % 0x100, (w / 0x100) % 0x100, (w / 0x1_0000) % 0x100, w / 0x100_0000]
  }

  /** The 32-bit word whose little-endian bytes are b0..b3. */
  function FromLe32(b0: u8, b1: u8, b2: u8, b3: u8): (w: u32)
    ensures Le32(w) == [b0, b1, b2, b3]
  {
    ((b3 * 0x100 + b2) * 0x100 + b1) * 0x100 + b0
  }

  /** Reassembling the bytes of Le16 gives the word back. */
  lemma Le16Inverse(w: u16)
    ensures FromLe16(Le16(w)[0], Le16(w)[1]) == w
  {
  }

  /** Reassembling the bytes of Le32 gives the word back. */
  lemma Le32Inverse(w: u32)
    ensures FromLe32(Le32(w)[0], Le32(w)[1], Le32(w)[2], Le32(w)[3]) == w
  {
    var q1, q2 := w / 0x100, w / 0x1_0000;
    assert w == q1 * 0x100 + w % 0x100;
    assert q1 == (q1 / 0x100) * 0x100 + q1 % 0x100;
    assert q1 / 0x100 == q2;
    assert q2 == (q2 / 0x100) * 0x100 + q2 % 0x100;
    assert q2 / 0x100 == w / 0x100_0000;
  }
}
