/** The random source that feeds the generator's draws. */
module CryptoSource {

  const SignBit: bv64 := 1 << 63

  /**
   * The 63-bit value handed to the random-number library: the 64-bit word read
   * from the entropy source with its top bit cleared and every other bit kept.
   * The result is the bit pattern of the signed 64-bit integer returned; with
   * the sign bit clear, that integer is its unsigned value, in [0, 2^63).  The
   * word is a parameter, since reading it is I/O.
   */
  function Int63(word: bv64): (bits: bv64)
    ensures bits < SignBit
    ensures bits | SignBit == word | SignBit
  {
    word & !SignBit
  }

}
