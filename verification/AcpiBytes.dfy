/**
 Bytes, little-endian numbers and byte sums, as the ACPI tables use them.
 */
module AcpiBytes {
  import opened Bytes

  function Le16(n: nat): (b: seq<byte>)
    requires n < 0x1_0000
    ensures |b| == 2
  {
    var hi, lo := n / 256, n % 256;
    [lo, hi]
  }

  function Le32(n: nat): (b: seq<byte>)
    requires n < U32_SPAN
    ensures |b| == 4
  {
    Le16(n % 0x1_0000) + Le16(n / 0x1_0000)
  }

  function Le64(n: nat): (b: seq<byte>)
    requires n < U64_SPAN
    ensures |b| == 8
  {
    Le32(n % U32_SPAN) + Le32(n / U32_SPAN)
  }

  function Get16(b: seq<byte>): (n: nat)
    requires |b| == 2
    ensures n < 0x1_0000
  {
    (b[0] as int) + 256 * (b[1] as int)
  }

  function Get32(b: seq<byte>): (n: nat)
    requires |b| == 4
    ensures n < U32_SPAN
  {
    Get16(b[..2]) + 0x1_0000 * Get16(b[2..])
  }

  function Get64(b: seq<byte>): (n: nat)
    requires |b| == 8
    ensures n < U64_SPAN
  {
    Get32(b[..4]) + U32_SPAN * Get32(b[4..])
  }

  lemma Get16Le16(n: nat)
    requires n < 0x1_0000
    ensures Get16(Le16(n)) == n
  {
  }

  lemma Get32Le32(n: nat)
    requires n < U32_SPAN
    ensures Get32(Le32(n)) == n
  {
    hide Get16, Le16;
    var lo, hi := Le16(n % 0x1_0000), Le16(n / 0x1_0000);
    assert Le32(n)[..2] == lo && Le32(n)[2..] == hi;
    Get16Le16(n % 0x1_0000);
    Get16Le16(n / 0x1_0000);
  }

  lemma Get64Le64(n: nat)
    requires n < U64_SPAN
    ensures Get64(Le64(n)) == n
  {
    hide Get32, Le32;
    var lo, hi := Le32(n % U32_SPAN), Le32(n / U32_SPAN);
    assert Le64(n)[..4] == lo && Le64(n)[4..] == hi;
    Get32Le32(n % U32_SPAN);
    Get32Le32(n / U32_SPAN);
  }

  // ------------------------------------------------------------------- splicing

  /** `b` with `x` written over it from `p` on. */
  function Splice(b: seq<byte>, p: nat, x: seq<byte>): (r: seq<byte>)
    requires p + |x| <= |b|
    ensures |r| == |b|
    ensures forall i :: 0 <= i < |b| ==> r[i] == if p <= i < p + |x| then x[i - p] else b[i]
  {
    b[..p] + x + b[p + |x|..]
  }

  /** Two ranges have no byte in common. */
  predicate Apart(p: nat, n: nat, q: nat, m: nat) {
    p + n <= q || q + m <= p
  }

  lemma SpliceRead(b: seq<byte>, p: nat, x: seq<byte>)
    requires p + |x| <= |b|
    ensures Splice(b, p, x)[p..p + |x|] == x
  {
  }

  lemma SpliceElsewhere(b: seq<byte>, p: nat, x: seq<byte>, q: nat, m: nat)
    requires p + |x| <= |b| && q + m <= |b| && Apart(p, |x|, q, m)
    ensures Splice(b, p, x)[q..q + m] == b[q..q + m]
  {
  }

  // ----------------------------------------------------------------------- sums

  function Sum(b: seq<byte>): nat {
    if b == [] then 0 else Sum(b[..|b| - 1]) + (b[|b| - 1] as int)
  }

  /** `wrapping_sum`. */
  function Sum8(b: seq<byte>): byte {
    Sum(b) % 256
  }

  /** `wrapping_sub`. */
  function Sub8(x: byte, y: byte): byte {
    ((x as int) - (y as int) + 256) % 256
  }

  lemma {:induction false} SumUpdate(b: seq<byte>, i: nat, x: byte)
    requires i < |b|
    ensures Sum(b[i := x]) + (b[i] as int) == Sum(b) + (x as int)
    decreases |b|
  {
    var n := |b| - 1;
    if i < n {
      assert b[i := x][..n] == b[..n][i := x];
      SumUpdate(b[..n], i, x);
    } else {
      assert b[i := x][..n] == b[..n];
    }
  }
}
