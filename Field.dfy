/**
 * The scalar field of the BN254 curve, the field every constraint of the
 * circuits lives in, and the machine integer types the circuits read from.
 */
module Field {

  /** The BN254 scalar modulus (about 2^254). */
  const P: nat := 21888242871839275222246405745257275088548364400416034343698204186575808495617

  /** A field element, in canonical form. */
  type Fe = x: nat | x < P

  type Byte = x: nat | x < 0x100
  type U32 = x: nat | x < 0x1_0000_0000
  type U64 = x: nat | x < 0x1_0000_0000_0000_0000

  /** The field's addition: the integer sum, reduced once by the modulus when it overflows. */
  function Add(x: Fe, y: Fe): (r: Fe)
    ensures x + y < P ==> r == x + y
    ensures x + y >= P ==> r == x + y - P
  {
    (x + y) % P
  }

  /** `From<u64>` for the field: since every u64 is below P, the value is kept unchanged. */
  function FromU64(n: U64): (r: Fe)
    ensures r == n
  {
    n % P
  }

  /**
   * For values that fit a u32, the field's addition is the natural
   * numbers' addition: the sum stays below 2^33 < P, so it never wraps.
   */
  lemma AddU32Exact(a: U32, b: U32, c: U32)
    ensures Add(FromU64(a), FromU64(b)) == FromU64(c) <==> a + b == c
  {
  }
}
