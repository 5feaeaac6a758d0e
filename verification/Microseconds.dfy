/** Times in the source's `uint`, and what becomes of milliseconds in it. */
module Microseconds {

  const UINT_RANGE := 0x1_0000_0000

  /** 32-bit unsigned. */
  type uint = x: int | 0 <= x < UINT_RANGE

  /** Milliseconds to microseconds in 32-bit unsigned arithmetic. */
  function Micros(ms: uint): uint { (ms * 1000) % UINT_RANGE }

  /** The unit conversion is exact just for delays of at most 4294967 ms. */
  lemma MicrosExact(ms: uint)
    ensures Micros(ms) == ms * 1000 <==> ms <= 4294967
  {
  }

  /** A positive delay vanishes altogether just when it is a multiple of 2^29 ms. */
  lemma MicrosVanish(ms: uint)
    ensures Micros(ms) == 0 <==> ms % 0x2000_0000 == 0
  {
    if Micros(ms) == 0 {
      // 125 * 115964117 == 1 + 27 * 2^29
      var k := ms * 1000 / UINT_RANGE;
      assert ms * 1000 == UINT_RANGE * k;
      assert ms == 0x2000_0000 * (115964117 * k - 27 * ms);
    }
  }
}
