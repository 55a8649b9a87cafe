/** How much of its region a BAR decodes: what a guest reads back when it probes the registers of a new header. */
module PciSizing {
  import opened Powers
  import opened PciBars
  import opened PciBarTheorems
  import opened PciHeader
  import opened PciNumbers

  const ALL_ONES: bv32 := 0xFFFF_FFFF

  // ------------------------------------------------------------------------- the probe

  /** The address bits of a register that holds `bar`. */
  function AddressBits(kind: Kind, bar: bv32): bv32 {
    if kind.IoBar? then bar & !BAR_IO_MASK else bar & !BAR_MEM_MASK
  }

  /** Probing register `i` while nothing is mapped: write ones to it, and to the next one if it is a 64-bit one; the
      address bits that then read as ones. */
  function Probe(f: Function, i: nat): bv64
    requires Shaped(f) && i < BARS && (Wide(f.kinds, f.bars, i) ==> i + 1 < BARS)
  {
    var g := SetBar(f, i, ALL_ONES);
    var lo := AddressBits(f.kinds[i], g.bars[i]);
    if Wide(f.kinds, f.bars, i) then Join(lo, SetBar(g, i + 1, ALL_ONES).bars[i + 1]) else Join(lo, 0)
  }

  /** The bytes that a probe stands for: up to its lowest one, and none if no bit took. */
  function Bytes(probe: bv64): nat {
    if probe == 0 then 0 else Pow2(TrailingZeros(probe, 64))
  }

  /** The largest region that register `i` can decode. */
  function Limit(kinds: seq<Kind>, bars: seq<bv32>, i: nat): nat
    requires |kinds| == BARS && |bars| == BARS && i < BARS
  {
    if Wide(kinds, bars, i) then HALF else 0x8000_0000
  }

  /** The fewest bytes that register `i` decodes, as an exponent. */
  function Least(kind: Kind): nat {
    if kind.IoBar? then 2 else 12
  }

  // ------------------------------------------------------------- what the probe returns

  lemma MemProbe(bar: bv32, mask: bv32)
    requires MemBits(bar, mask) && bar & !BAR_MEM_MASK == 0
    ensures AddressBits(MemBar, MaskBits(bar, ALL_ONES, mask)) == mask
  {
  }

  lemma IoProbe(mask: bv32)
    requires IoBits(BAR_IO, mask)
    ensures AddressBits(IoBar, MaskBits(BAR_IO, ALL_ONES, mask)) == mask
  {
  }

  lemma HighProbe(mask: bv32)
    ensures MaskBits(0, ALL_ONES, mask) == mask
  {
  }

  /** A probe returns the masks that the header was built with. */
  lemma ProbeIsMask(kinds: seq<Kind>, sizes: seq<nat>, bars: seq<bv32>, masks: seq<bv32>, i: nat)
    requires Buildable(kinds, sizes, bars) && |masks| == BARS && i < BARS && !kinds[i].Empty?
    requires forall j :: 0 <= j < BARS ==> masks[j] == MaskFor(kinds, sizes, bars, j)
    ensures Wide(kinds, bars, i) ==> i + 1 < BARS
    ensures var mask := MaskOf(SizeLog(sizes[i], Least(kinds[i])));
            Probe(Function(kinds, bars, masks, 0), i)
            == Join(Lo(mask), if Wide(kinds, bars, i) then Hi(mask) else 0)
  {
    hide Is64, Lo, Hi, MaskOf, Join, SizeLog, MaskBits, MemBits, IoBits, AddressBits;
    assert BuildableAt(kinds, sizes, bars, i) && masks[i] == MaskFor(kinds, sizes, bars, i);
    if kinds[i].IoBar? {
      IoMaskBits(sizes[i]);
      IoProbe(masks[i]);
    } else {
      MemMaskBits(bars[i], sizes[i]);
      MemProbe(bars[i], masks[i]);
      if Wide(kinds, bars, i) {
        assert BuildableAt(kinds, sizes, bars, i + 1) && masks[i + 1] == MaskFor(kinds, sizes, bars, i + 1);
        HighProbe(masks[i + 1]);
      }
    }
  }

  // --------------------------------------------------------------------- masks and sizes

  lemma LogBelow(n: nat, k: nat)
    requires k < 64
    ensures SizeLog(n, k) < 64
    ensures k < 32 && n <= 0x8000_0000 ==> SizeLog(n, k) < 32
    ensures 0x8000_0000 < n <= HALF ==> SizeLog(n, k) >= 32
  {
    hide Pow2;
    var r := SizeLog(n, k);
    Pow32();
    Pow64();
    PowStep(31);
    PowStep(63);
    if r >= 64 {
      PowMono(63, r - 1);
    }
    if r >= 32 {
      PowMono(31, r - 1);
    } else {
      PowMono(r, 31);
    }
  }

  lemma NotNone(o: bv32, hi: bv32)
    ensures o & 0x8000_0000 == 0 ==> Join(Not(o), hi) != 0 && Join(hi, Not(o)) != 0
    ensures o == 0xFFFF_FFFF ==> Join(Not(o), 0) == 0
  {
  }

  /** A 64-bit register decodes the power of two it was built for. */
  lemma WideBytes(k: nat)
    requires k < 64
    ensures Bytes(Join(Lo(MaskOf(k)), Hi(MaskOf(k)))) == Pow2(k)
  {
    hide Lo, Hi, MaskOf, Join, Pow2, Not, Ones, Ones32, TrailingZeros, Flip;
    MaskGivesSize(k);
    MaskFlips(k);
    FlipHalves(Ones(k));
    OnesHalves(k);
    OnesTop(if k <= 32 then 0 else k - 32);
    OnesNone();
    NotNone(Hi(Ones(k)), Lo(MaskOf(k)));
  }

  lemma OnesNone()
    ensures Ones32(0) == 0
  {
  }

  /** Any other register decodes it if it is below 2^32, and nothing otherwise. */
  lemma NarrowBytes(k: nat)
    requires k < 64
    ensures Bytes(Join(Lo(MaskOf(k)), 0)) == if k < 32 then Pow2(k) else 0
  {
    hide Lo, Hi, MaskOf, Join, Pow2, Not, Ones, Ones32, TrailingZeros, Flip;
    MaskGivesSize(k);
    MaskFlips(k);
    FlipHalves(Ones(k));
    OnesHalves(k);
    OnesTop(k);
    NotNone(Ones32(k), 0);
  }

  // ------------------------------------------------------------------------- coverage

  /** The registers of a new header decode all of a region if and only if it has at most 2^63 bytes behind a 64-bit
      register and at most 2^31 behind any other, and then no more than the power of two above it. Of a larger one they
      decode nothing up to 2^63 bytes and the least there is above that. */
  lemma CoversIff(kinds: seq<Kind>, sizes: seq<nat>, bars: seq<bv32>, masks: seq<bv32>, i: nat)
    requires Buildable(kinds, sizes, bars) && |masks| == BARS && i < BARS && !kinds[i].Empty?
    requires forall j :: 0 <= j < BARS ==> masks[j] == MaskFor(kinds, sizes, bars, j)
    ensures Wide(kinds, bars, i) ==> i + 1 < BARS
    ensures var decoded := Bytes(Probe(Function(kinds, bars, masks, 0), i));
            && (decoded >= sizes[i] <==> sizes[i] <= Limit(kinds, bars, i))
            && (decoded >= sizes[i] ==> decoded == Pow2(Least(kinds[i])) || decoded < 2 * sizes[i])
            && (Limit(kinds, bars, i) < sizes[i] <= HALF ==> decoded == 0)
            && (sizes[i] > HALF ==> decoded == Pow2(Least(kinds[i])))
  {
    hide BuildableAt, Probe, Bytes, Lo, Hi, MaskOf, Join, SizeLog, MaskFor, Pow2, Is64;
    var n, k := sizes[i], Least(kinds[i]);
    ProbeIsMask(kinds, sizes, bars, masks, i);
    LogBelow(n, k);
    PowerCovers(n, k);
    LeastPower(n, k);
    if Wide(kinds, bars, i) {
      WideBytes(SizeLog(n, k));
    } else {
      NarrowBytes(SizeLog(n, k));
    }
  }

  lemma LeastPower(n: nat, k: nat)
    requires k < 31
    ensures n > HALF ==> SizeLog(n, k) == k
    ensures n <= HALF ==> SizeLog(n, k) == k || Pow2(SizeLog(n, k)) < 2 * n
    ensures n > HALF ==> Pow2(SizeLog(n, k)) < n
  {
    hide Pow2;
    var r := SizeLog(n, k);
    if n <= HALF && r > k {
      PowStep(r - 1);
    }
    PowMono(k, 31);
    Pow32();
    PowStep(31);
  }

  /** Above 2^31 bytes the lower half of a mask is empty. */
  lemma LowerGone(n: nat, k: nat)
    requires k < 64 && 0x8000_0000 < n <= HALF
    ensures Lo(SizeMask(n, k)) == 0
  {
    hide Lo, Hi, MaskOf, SizeLog, Ones, Ones32, Not, Flip;
    LogBelow(n, k);
    var j := SizeLog(n, k);
    MaskFlips(j);
    FlipHalves(Ones(j));
    OnesHalves(j);
    OnesTop(j);
    NotAll();
  }

  lemma NotAll()
    ensures Not(0xFFFF_FFFF) == 0
  {
  }

  /** The header of a device with one 32-bit memory register and 4 GiB behind it can be built, and all its masks are
      zero: the register decodes nothing. */
  lemma FourGiBDecodesNothing(kinds: seq<Kind>, sizes: seq<nat>, bars: seq<bv32>)
    requires kinds == [MemBar, Empty, Empty, Empty, Empty, Empty]
    requires sizes == [0x1_0000_0000, 0, 0, 0, 0, 0] && bars == [0, 0, 0, 0, 0, 0]
    ensures Buildable(kinds, sizes, bars) && !Wide(kinds, bars, 0)
    ensures forall i :: 0 <= i < BARS ==> MaskFor(kinds, sizes, bars, i) == 0
    ensures Bytes(Probe(Function(kinds, bars, [0, 0, 0, 0, 0, 0], 0), 0)) == 0
  {
    hide Is64, Lo, Hi, SizeMask, Probe, Bytes, Join;
    NoTypeBits();
    LowerGone(sizes[0], 12);
    forall i | 0 <= i < BARS ensures BuildableAt(kinds, sizes, bars, i) && MaskFor(kinds, sizes, bars, i) == 0 {
    }
    hide MaskFor, BuildableAt;
    CoversIff(kinds, sizes, bars, [0, 0, 0, 0, 0, 0], 0);
  }

  lemma NoTypeBits()
    ensures !Is64(0) && (0 as bv32) & !BAR_MEM_MASK == 0 && (0 as bv32) & BAR_IO == 0
  {
  }
}
