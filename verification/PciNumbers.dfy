/** Addresses as numbers and as register bits: an address aligned to a BAR's size is one its registers can hold. */
module PciNumbers {
  import opened Powers
  import opened PciBars
  import opened PciBarTheorems
  import opened PciHeader

  // ------------------------------------------------------------------- numbers to bits

  function Push(v: bv32, one: bool): bv32 {
    (v << 1) | (if one then 1 else 0)
  }

  /** The `n` low binary digits of `a`; for 32 of them, `a as u32`. */
  function Bits(a: nat, n: nat): bv32 {
    if n == 0 then 0 else Push(Bits(a / 2, n - 1), a % 2 == 1)
  }

  /** `a >> j`. */
  function Shr(a: nat, j: nat): nat
    decreases j
  {
    if j == 0 then a else Shr(a / 2, j - 1)
  }

  function Halves(a: nat): Addr {
    Addr(Bits(a, 32), Bits(Shr(a, 32), 32))
  }

  function Ones32(k: nat): bv32 {
    if k == 0 then 0 else Push(Ones32(k - 1), true)
  }

  predicate Apart(x: bv32, o: bv32) {
    x & o == 0
  }

  lemma {:induction false} AlignedBits(a: nat, n: nat, k: nat)
    requires Aligned(a, k)
    ensures Apart(Bits(a, n), Ones32(k))
    decreases n, k
  {
    hide Push, Apart;
    if n == 0 {
      ZeroApart(Ones32(k));
    } else if k == 0 {
      ZeroApart(Bits(a, n));
    } else {
      AlignedBits(a / 2, n - 1, k - 1);
      PushApart(Bits(a / 2, n - 1), Ones32(k - 1));
    }
  }

  lemma ZeroApart(x: bv32)
    ensures Apart(0, x) && Apart(x, 0)
  {
  }

  lemma PushApart(x: bv32, o: bv32)
    requires Apart(x, o)
    ensures Apart(Push(x, false), Push(o, true))
  {
  }

  lemma {:induction false} AlignedShr(a: nat, k: nat, j: nat)
    requires Aligned(a, k) && j <= k
    ensures Aligned(Shr(a, j), k - j)
    decreases j
  {
    if j > 0 {
      AlignedShr(a / 2, k - 1, j - 1);
    }
  }

  lemma {:induction false} ShrZero(a: nat, j: nat)
    ensures Shr(a, j) == 0 <==> a < Pow2(j)
    decreases j
  {
    if j > 0 {
      ShrZero(a / 2, j - 1);
    }
  }

  /** A number below 2^n is zero exactly if its `n` low digits are. */
  lemma {:induction false} BitsZero(a: nat, n: nat)
    requires a < Pow2(n) && n <= 32
    ensures Bits(a, n) == 0 <==> a == 0
    ensures Bits(a, n) & !Ones32(n) == 0
    decreases n
  {
    if n > 0 {
      hide Push;
      BitsZero(a / 2, n - 1);
      OnesTop(n - 1);
      PushZero(Bits(a / 2, n - 1), a % 2 == 1, Ones32(n - 1));
    }
  }

  lemma PushZero(x: bv32, one: bool, o: bv32)
    requires x & !o == 0 && o & 0x8000_0000 == 0
    ensures Push(x, one) == 0 <==> x == 0 && !one
    ensures Push(x, one) & !Push(o, true) == 0
  {
  }

  function Up(m: bv32): bv32 {
    m << 1
  }

  /** A one at place `i`. */
  function OneAt(i: nat): bv32 {
    if i == 0 then 1 else Up(OneAt(i - 1))
  }

  predicate Beneath(m: bv32, o: bv32) {
    m & !o == 0
  }

  predicate Topless(m: bv32) {
    m & 0x8000_0000 == 0
  }

  predicate Has(v: bv32, m: bv32) {
    v & m != 0
  }

  lemma {:induction false} OneWithin(i: nat)
    ensures Beneath(OneAt(i), Ones32(i + 1))
  {
    if i == 0 {
      assert Ones32(1) == 1;
    } else {
      hide Push, Up, Beneath;
      OneWithin(i - 1);
      UpWithin(OneAt(i - 1), Ones32(i));
    }
  }

  lemma UpWithin(m: bv32, o: bv32)
    requires Beneath(m, o)
    ensures Beneath(Up(m), Push(o, true))
  {
  }

  lemma OneTopless(i: nat)
    requires i < 31
    ensures Topless(OneAt(i))
  {
    hide Ones32, OneAt, Beneath;
    OneWithin(i);
    OnesTop(i + 1);
    WithinTopless(OneAt(i), Ones32(i + 1));
  }

  lemma WithinTopless(m: bv32, o: bv32)
    requires Beneath(m, o) && o & 0x8000_0000 == 0
    ensures Topless(m)
  {
  }

  lemma PushHas(x: bv32, one: bool, m: bv32)
    requires Topless(m)
    ensures Has(Push(x, one), Up(m)) <==> Has(x, m)
  {
  }

  lemma PushLow(x: bv32, one: bool)
    ensures Has(Push(x, one), 1) <==> one
  {
  }

  /** Bit `i` of the digits of `a` is digit `i` of `a`. */
  lemma {:induction false} BitsAt(a: nat, n: nat, i: nat)
    requires i < n <= 32
    ensures Has(Bits(a, n), OneAt(i)) <==> Shr(a, i) % 2 == 1
    decreases n
  {
    hide Push, Has, Up, Topless;
    if i == 0 {
      PushLow(Bits(a / 2, n - 1), a % 2 == 1);
    } else {
      BitsAt(a / 2, n - 1, i - 1);
      OneTopless(i - 1);
      PushHas(Bits(a / 2, n - 1), a % 2 == 1, OneAt(i - 1));
    }
  }

  lemma {:induction false} ShrIs(a: nat, j: nat)
    ensures Shr(a, j) == a / Pow2(j)
    decreases j
  {
    if j > 0 {
      ShrIs(a / 2, j - 1);
      HalfDiv(a, Pow2(j - 1));
    }
  }

  lemma HalfDiv(x: nat, p: nat)
    requires p > 0
    ensures x / (2 * p) == (x / 2) / p
  {
    var h := x / 2;
    assert h == (h / p) * p + h % p;
    assert x == (h / p) * (2 * p) + (2 * (h % p) + x % 2);
    ModUnique(x, 2 * p, h / p, 2 * (h % p) + x % 2);
  }

  lemma {:induction false} ShrSum(a: nat, j: nat, k: nat)
    ensures Shr(Shr(a, j), k) == Shr(a, j + k)
    decreases j
  {
    if j > 0 {
      ShrSum(a / 2, j - 1, k);
    }
  }

  /** The halves of an address hold its binary digits: bit `i` of the lower half is the digit of 2^i, bit `i` of the
      upper half that of 2^(32+i). */
  lemma HalvesExact(a: nat, i: nat)
    requires i < 32
    ensures Has(Halves(a).lo, OneAt(i)) <==> a / Pow2(i) % 2 == 1
    ensures Has(Halves(a).hi, OneAt(i)) <==> a / Pow2(32 + i) % 2 == 1
  {
    hide Bits, Has, OneAt, Pow2;
    BitsAt(a, 32, i);
    ShrIs(a, i);
    BitsAt(Shr(a, 32), 32, i);
    ShrSum(a, 32, i);
    ShrIs(a, 32 + i);
  }

  // ---------------------------------------------------------------------- runs of ones

  lemma {:induction false} OnesWithin(k: nat, j: nat)
    requires k <= j
    ensures Ones32(k) & !Ones32(j) == 0
    decreases j
  {
    hide Push;
    if k > 0 {
      OnesWithin(k - 1, j - 1);
      PushWithin(Ones32(k - 1), Ones32(j - 1));
    }
    if k == 0 {
      ZeroWithin(Ones32(j));
    }
  }

  lemma ZeroWithin(o: bv32)
    ensures 0 & !o == 0
  {
  }

  lemma PushWithin(x: bv32, o: bv32)
    requires x & !o == 0
    ensures Push(x, true) & !Push(o, true) == 0
  {
  }

  lemma Ones30()
    ensures Ones32(30) == 0x3FFF_FFFF
  {
    assert Ones32(4) == 0xF;
    assert Ones32(7) == 0x7F;
    assert Ones32(10) == 0x3FF;
    assert Ones32(13) == 0x1FFF;
    assert Ones32(16) == 0xFFFF;
    assert Ones32(19) == 0x7_FFFF;
    assert Ones32(22) == 0x3F_FFFF;
    assert Ones32(25) == 0x1FF_FFFF;
    assert Ones32(28) == 0xFFF_FFFF;
  }

  lemma Ones31()
    ensures Ones32(31) == 0x7FFF_FFFF
  {
    Ones30();
  }

  lemma {:induction false} OnesTop(k: nat)
    ensures k < 32 ==> Ones32(k) & 0x8000_0000 == 0
    ensures k >= 32 ==> Ones32(k) == 0xFFFF_FFFF
  {
    hide Push;
    if k < 32 {
      Ones31();
      OnesWithin(k, 31);
      NoTop(Ones32(k));
    } else if k == 32 {
      Ones31();
      PushFull();
    } else {
      OnesTop(k - 1);
      PushFull();
    }
  }

  lemma NoTop(v: bv32)
    requires v & !0x7FFF_FFFF == 0
    ensures v & 0x8000_0000 == 0
  {
  }

  lemma PushFull()
    ensures Push(0x7FFF_FFFF, true) == 0xFFFF_FFFF && Push(0xFFFF_FFFF, true) == 0xFFFF_FFFF
  {
  }

  /** The halves of a 64-bit run of ones. */
  lemma {:induction false} OnesHalves(k: nat)
    ensures Lo(Ones(k)) == Ones32(k) && Hi(Ones(k)) == if k <= 32 then 0 else Ones32(k - 32)
  {
    hide OneMore, Push, Lo, Hi;
    if k == 0 {
      HalvesOfZero();
    } else {
      OnesHalves(k - 1);
      OneMoreHalves(Ones(k - 1));
      OnesTop(k - 1);
      if k <= 32 {
        ZeroPush();
      }
    }
  }

  lemma HalvesOfZero()
    ensures Lo(0) == 0 && Hi(0) == 0
  {
  }

  lemma ZeroPush()
    ensures Push(0, false) == 0
  {
  }

  lemma OneMoreHalves(v: bv64)
    ensures Lo(OneMore(v)) == Push(Lo(v), true)
    ensures Lo(v) & 0x8000_0000 == 0 ==> Hi(OneMore(v)) == Push(Hi(v), false)
    ensures Lo(v) == 0xFFFF_FFFF ==> Hi(OneMore(v)) == Push(Hi(v), true)
  {
  }

  function Not(v: bv32): bv32 {
    !v
  }

  function Flip(v: bv64): bv64 {
    !v
  }

  lemma MaskFlips(k: nat)
    ensures MaskOf(k) == Flip(Ones(k))
  {
  }

  lemma FlipHalves(v: bv64)
    ensures Lo(Flip(v)) == Not(Lo(v)) && Hi(Flip(v)) == Not(Hi(v))
  {
  }

  lemma CoveredByNot(v: bv32, o: bv32)
    requires Apart(v, o)
    ensures Covered(v, Not(o))
  {
  }

  /** An address that is a multiple of 2^k fits the mask of a BAR of that size. */
  lemma AlignedCovered(a: nat, k: nat)
    requires Aligned(a, k)
    ensures Covered(Halves(a).lo, Lo(MaskOf(k))) && Covered(Halves(a).hi, Hi(MaskOf(k)))
  {
    hide Lo, Hi, Covered, Bits, Ones, Ones32, Apart, Not, MaskOf, Flip;
    OnesHalves(k);
    MaskFlips(k);
    FlipHalves(Ones(k));
    AlignedBits(a, 32, k);
    CoveredByNot(Halves(a).lo, Ones32(k));
    if k <= 32 {
      ZeroApart(Halves(a).hi);
    } else {
      AlignedShr(a, k, 32);
      AlignedBits(Shr(a, 32), 32, k - 32);
    }
    CoveredByNot(Halves(a).hi, Hi(Ones(k)));
  }

  // ------------------------------------------------------------------- trailing zeros

  predicate Odd(v: bv64) {
    v & 1 == 1
  }

  function Half(v: bv64): bv64 {
    v >> 1
  }

  /** `trailing_zeros`, looking at `n` bits. */
  function TrailingZeros(v: bv64, n: nat): nat {
    if n == 0 || Odd(v) then 0 else 1 + TrailingZeros(Half(v), n - 1)
  }

  function Join(lo: bv32, hi: bv32): bv64 {
    (lo as bv64) | ((hi as bv64) << 32)
  }

  lemma JoinHalves(v: bv64)
    ensures Join(Lo(v), Hi(v)) == v
  {
  }

  /** The bits of `v` under `more` are those that `less` leaves. */
  predicate Meets(v: bv64, less: bv64, more: bv64) {
    v & more == more & !less
  }

  /** The lowest one of `v` is at `k`. */
  predicate LowestAt(v: bv64, k: nat) {
    Meets(v, Ones(k), OneMore(Ones(k)))
  }

  lemma {:induction false} TrailingAt(v: bv64, k: nat, n: nat)
    requires LowestAt(v, k) && k < n && k < 64
    ensures TrailingZeros(v, n) == k
    decreases k
  {
    hide OneMore, Meets, Odd, Half;
    if k == 0 {
      OddAt(v);
    } else {
      NoTopBits(k - 1);
      ShiftLowest(v, Ones(k - 1));
      TrailingAt(Half(v), k - 1, n - 1);
    }
  }

  lemma OddAt(v: bv64)
    requires Meets(v, 0, OneMore(0))
    ensures Odd(v)
  {
  }

  predicate Small(v: bv64) {
    v & 0xC000_0000_0000_0000 == 0
  }

  lemma NoTopBits(k: nat)
    requires k < 63
    ensures Small(Ones(k))
  {
    hide Lo, Hi, Ones32, Ones, Join, Small;
    OnesHalves(k);
    JoinHalves(Ones(k));
    if k > 32 {
      Ones30();
      OnesWithin(k - 32, 30);
    } else {
      ZeroWithin(0x3FFF_FFFF);
    }
    HighClear(Lo(Ones(k)), Hi(Ones(k)));
  }

  lemma HighClear(lo: bv32, hi: bv32)
    requires hi & !0x3FFF_FFFF == 0
    ensures Small(Join(lo, hi))
  {
  }

  lemma ShiftLowest(v: bv64, a: bv64)
    requires Meets(v, OneMore(a), OneMore(OneMore(a))) && Small(a)
    ensures !Odd(v) && Meets(Half(v), a, OneMore(a))
  {
  }

  /** The size that the allocator reads off a mask is the size the mask was built for. */
  lemma MaskGivesSize(k: nat)
    requires k < 64
    ensures TrailingZeros(Join(Lo(MaskOf(k)), Hi(MaskOf(k))), 64) == k
    ensures k < 32 ==> TrailingZeros(Join(Lo(MaskOf(k)), 0), 64) == k
  {
    hide Lo, Hi, Join, OneMore, Meets, TrailingZeros, Ones, MaskOf;
    JoinHalves(MaskOf(k));
    MaskLowest(k);
    TrailingAt(MaskOf(k), k, 64);
    if k < 32 {
      OnesHalves(k + 1);
      OneMoreOf(k);
      LowMaskLowest(k);
      TrailingAt(Join(Lo(MaskOf(k)), 0), k, 64);
    }
  }

  lemma MaskLowest(k: nat)
    ensures LowestAt(MaskOf(k), k)
  {
    hide OneMore, Ones, Meets;
    NotLowest(Ones(k), OneMore(Ones(k)));
  }

  lemma LowMaskLowest(k: nat)
    requires Hi(OneMore(Ones(k))) == 0
    ensures LowestAt(Join(Lo(MaskOf(k)), 0), k)
  {
    hide OneMore, Ones, Lo, Hi, Join, Meets;
    LowLowest(Ones(k), OneMore(Ones(k)));
  }

  lemma OneMoreOf(k: nat)
    ensures Ones(k + 1) == OneMore(Ones(k))
  {
  }

  lemma NotLowest(a: bv64, b: bv64)
    ensures Meets(!a, a, b)
  {
  }

  lemma LowLowest(a: bv64, b: bv64)
    requires Hi(b) == 0
    ensures Meets(Join(Lo(!a), 0), a, b)
  {
  }
}
