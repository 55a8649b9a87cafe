/** Bytes, and the spans of machine words. */
module Bytes {

  type byte = x: int | 0 <= x < 256

  const U32_SPAN: nat := 0x1_0000_0000
  const U64_SPAN: nat := 0x1_0000_0000_0000_0000

  /** `as u32`. */
  function Low32(n: nat): (r: nat)
    ensures r < U32_SPAN
  {
    n % U32_SPAN
  }

  lemma LowKeeps(n: nat)
    requires n < U32_SPAN
    ensures Low32(n) == n
  {
  }

  function Zeros(n: nat): (z: seq<byte>)
    ensures |z| == n && forall i :: 0 <= i < n ==> z[i] == 0
  {
    seq(n, _ => 0)
  }
}
