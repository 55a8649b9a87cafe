/** Configuration headers as the program holds them: the masks they are built with, and their writes and callbacks. */
module PciHeader {
  import opened Powers
  import opened Wrappers
  import opened PciBars
  import opened PciBarTheorems
  import opened PciBarRuns
  import PciEffects

  // ------------------------------------------------------------------------- masks

  /** `next_power_of_two`, as an exponent no less than `k`: the smallest that holds `n`. */
  function Exponent(n: nat, k: nat): (r: nat)
    ensures r >= k && Pow2(r) >= n && (r == k || Pow2(r - 1) < n)
    decreases n - Pow2(k)
  {
    if Pow2(k) >= n then k else Exponent(n, k + 1)
  }

  /** A one in each of the `k` low bits: 2^k - 1. */
  function Ones(k: nat): bv64 {
    if k == 0 then 0 else OneMore(Ones(k - 1))
  }

  function OneMore(v: bv64): bv64 {
    (v << 1) | 1
  }

  function Lo(v: bv64): bv32 {
    (v & 0xFFFF_FFFF) as bv32
  }

  function Hi(v: bv64): bv32 {
    (v >> 32) as bv32
  }

  /** The complement of 2^k - 1. */
  function MaskOf(k: nat): bv64 {
    !Ones(k)
  }

  /** The largest power of two in 64 bits. */
  const HALF: nat := 0x8000_0000_0000_0000

  /** `max(n.next_power_of_two(), 1 << k)`, as an exponent: above 2^63 the power of two is cut to zero. */
  function SizeLog(n: nat, k: nat): (r: nat)
    ensures r >= k
  {
    if n > HALF then k else Exponent(n, k)
  }

  /** The power of two is no less than the region if and only if that has at most 2^63 bytes. */
  lemma PowerCovers(n: nat, k: nat)
    requires k < 64
    ensures Pow2(SizeLog(n, k)) >= n <==> n <= HALF
  {
    hide Pow2;
    if n > HALF {
      PowMono(k, 63);
      Pow64();
      PowStep(63);
    }
  }

  /** The mask of a BAR for `n` bytes that decodes at least 2^k: the complement of its size less one. */
  function SizeMask(n: nat, k: nat): bv64 {
    MaskOf(SizeLog(n, k))
  }

  /** An I/O region whose register is of four bytes. */
  predicate FourBytes(n: nat) {
    n <= 4 || n > HALF
  }

  function MemMask(n: nat): bv64 {
    SizeMask(n, 12)
  }

  function IoMask(n: nat): bv64 {
    SizeMask(n, 2)
  }

  lemma {:induction false} PageOnes(k: nat)
    requires k >= 12
    ensures Ones(k) & 0xFFF == 0xFFF
  {
    hide OneMore;
    if k == 12 {
      TwelveOnes();
    } else {
      PageOnes(k - 1);
      PageStep(Ones(k - 1));
    }
  }

  lemma PageStep(v: bv64)
    requires v & 0xFFF == 0xFFF
    ensures OneMore(v) & 0xFFF == 0xFFF
  {
  }

  lemma ThreeOnes()
    ensures Ones(3) == 0x7
  {
  }

  lemma TwelveOnes()
    ensures Ones(12) & 0xFFF == 0xFFF
  {
    ThreeOnes();
    assert Ones(5) == 0x1F;
    assert Ones(7) == 0x7F;
    assert Ones(9) == 0x1FF;
    assert Ones(11) == 0x7FF;
  }

  lemma {:induction false} PortOnes(k: nat)
    requires k >= 2
    ensures Ones(k) & 0x3 == 0x3 && (k >= 3 ==> Ones(k) & 0x7 == 0x7)
  {
    hide OneMore;
    if k <= 3 {
      TwoOnes();
      ThreeOnes();
    } else {
      PortOnes(k - 1);
      PortStep(Ones(k - 1));
    }
  }

  lemma TwoOnes()
    ensures Ones(2) == 0x3
  {
  }

  lemma PortStep(v: bv64)
    requires v & 0x7 == 0x7
    ensures OneMore(v) & 0x7 == 0x7 && OneMore(v) & 0x3 == 0x3
  {
  }

  lemma MemMaskBits(bar: bv32, n: nat)
    requires bar & !BAR_MEM_MASK == 0 && bar & BAR_IO == 0
    ensures MemBits(bar, Lo(MemMask(n)))
  {
    PageOnes(SizeLog(n, 12));
    MaskOfPage(bar, Ones(SizeLog(n, 12)));
  }

  lemma MaskOfPage(bar: bv32, ones: bv64)
    requires ones & 0xFFF == 0xFFF && bar & !BAR_MEM_MASK == 0 && bar & BAR_IO == 0
    ensures MemBits(bar, Lo(!ones))
  {
  }

  /** I/O registers of four bytes have an address bit where a memory register has its 64-bit type bit. */
  lemma IoMaskBits(n: nat)
    ensures IoBits(BAR_IO, Lo(IoMask(n)))
    ensures Narrow(Lo(IoMask(n))) <==> FourBytes(n)
  {
    assert Pow2(2) == 4;
    var k := SizeLog(n, 2);
    PortOnes(k);
    MaskOfPort(Ones(k));
    if FourBytes(n) {
      TwoOnes();
    }
  }

  lemma MaskOfPort(ones: bv64)
    requires ones & 0x3 == 0x3
    ensures IoBits(BAR_IO, Lo(!ones))
    ensures ones & 0x7 == 0x7 ==> !Narrow(Lo(!ones))
    ensures ones == 0x3 ==> Narrow(Lo(!ones))
  {
  }

  predicate Wide(kinds: seq<Kind>, bars: seq<bv32>, i: nat)
    requires |kinds| == BARS && |bars| == BARS && i < BARS
  {
    kinds[i].MemBar? && Is64(bars[i])
  }

  /** What a device hands to the header: registers that hold type bits only, and an empty one after each 64-bit
      one. */
  predicate BuildableAt(kinds: seq<Kind>, sizes: seq<nat>, bars: seq<bv32>, i: nat)
    requires |kinds| == BARS && |sizes| == BARS && |bars| == BARS && i < BARS
  {
    match kinds[i]
    case Empty => bars[i] == 0
    case MemBar => bars[i] & !BAR_MEM_MASK == 0 && bars[i] & BAR_IO == 0
        && (Is64(bars[i]) ==> i + 1 < BARS && kinds[i + 1].Empty?)
    case IoBar => bars[i] == BAR_IO
  }

  predicate Buildable(kinds: seq<Kind>, sizes: seq<nat>, bars: seq<bv32>) {
    && |kinds| == BARS && |sizes| == BARS && |bars| == BARS
    && forall i :: 0 <= i < BARS ==> BuildableAt(kinds, sizes, bars, i)
  }

  /** The mask that register `i` must have. */
  function MaskFor(kinds: seq<Kind>, sizes: seq<nat>, bars: seq<bv32>, i: nat): bv32
    requires |kinds| == BARS && |sizes| == BARS && |bars| == BARS && i < BARS
  {
    match kinds[i]
    case Empty => if i > 0 && Wide(kinds, bars, i - 1) then Hi(MemMask(sizes[i - 1])) else 0
    case MemBar => Lo(MemMask(sizes[i]))
    case IoBar => Lo(IoMask(sizes[i]))
  }

  /** `EmulatedHeader::new`: the masks, with the upper half of a 64-bit one carried to the next register. */
  method NewMasks(kinds: seq<Kind>, sizes: seq<nat>, bars: seq<bv32>) returns (masks: seq<bv32>)
    requires Buildable(kinds, sizes, bars)
    ensures |masks| == BARS && forall i :: 0 <= i < BARS ==> masks[i] == MaskFor(kinds, sizes, bars, i)
    ensures Formed(Function(kinds, bars, masks, 0))
  {
    hide MemMask, IoMask, Lo, Hi, Is64;
    masks := [];
    var maskHi: bv32 := 0;
    for i := 0 to BARS
      invariant |masks| == i && forall j :: 0 <= j < i ==> masks[j] == MaskFor(kinds, sizes, bars, j)
      invariant maskHi == if i > 0 && Wide(kinds, bars, i - 1) then Hi(MemMask(sizes[i - 1])) else 0
      invariant i > 0 && Wide(kinds, bars, i - 1) ==> i < BARS && kinds[i].Empty?
    {
      assert BuildableAt(kinds, sizes, bars, i);
      match kinds[i] {
        case Empty =>
          masks := masks + [maskHi];
          maskHi := 0;
        case IoBar =>
          masks := masks + [Lo(IoMask(sizes[i]))];
        case MemBar =>
          var mask := MemMask(sizes[i]);
          masks := masks + [Lo(mask)];
          if Is64(bars[i]) {
            maskHi := Hi(mask);
          }
      }
    }
    NewIsWell(kinds, sizes, bars, masks);
  }

  lemma NewIsWell(kinds: seq<Kind>, sizes: seq<nat>, bars: seq<bv32>, masks: seq<bv32>)
    requires Buildable(kinds, sizes, bars) && |masks| == BARS
    requires forall i :: 0 <= i < BARS ==> masks[i] == MaskFor(kinds, sizes, bars, i)
    ensures Formed(Function(kinds, bars, masks, 0))
  {
    hide MemMask, IoMask, Lo, Hi, Is64, MemBits, IoBits, Covered, Narrow;
    var f := Function(kinds, bars, masks, 0);
    forall i | 0 <= i < BARS ensures Well(f, i) {
      assert BuildableAt(kinds, sizes, bars, i) && masks[i] == MaskFor(kinds, sizes, bars, i);
      match kinds[i]
      case Empty =>
      case MemBar =>
        MemMaskBits(bars[i], sizes[i]);
        if Is64(bars[i]) {
          assert BuildableAt(kinds, sizes, bars, i + 1);
          ZeroCovered(masks[i + 1]);
        }
      case IoBar =>
        IoMaskBits(sizes[i]);
    }
  }

  /** Which headers are safe from their ports: no four-byte I/O register comes before a register with a mask. */
  lemma NewIsSealed(kinds: seq<Kind>, sizes: seq<nat>, bars: seq<bv32>, masks: seq<bv32>)
    requires Buildable(kinds, sizes, bars) && |masks| == BARS
    requires forall i :: 0 <= i < BARS ==> masks[i] == MaskFor(kinds, sizes, bars, i)
    ensures Sealed(Function(kinds, bars, masks, 0))
            <==> forall i :: 0 <= i < BARS - 1 && kinds[i].IoBar? && FourBytes(sizes[i]) ==> masks[i + 1] == 0
  {
    hide MemMask, IoMask, Lo, Hi, Is64, IoBits, Narrow;
    var f := Function(kinds, bars, masks, 0);
    forall i | 0 <= i < BARS ensures kinds[i].IoBar? ==> (Narrow(masks[i]) <==> FourBytes(sizes[i])) {
      assert masks[i] == MaskFor(kinds, sizes, bars, i);
      IoMaskBits(sizes[i]);
    }
    if Sealed(f) {
      forall i | 0 <= i < BARS - 1 && kinds[i].IoBar? && FourBytes(sizes[i]) ensures masks[i + 1] == 0 {
        assert !Exposed(f, i);
      }
    }
  }

  lemma ZeroCovered(mask: bv32)
    ensures Covered(0, mask)
  {
  }

  // -------------------------------------------------------------------- the machine

  /** Every region is a BAR's or the board's. */
  ghost predicate Owned(w: World) {
    (forall a :: a in w.mem ==> Known(w, w.mem[a])) && (forall p :: p in w.io ==> Known(w, w.io[p]))
  }

  /** All functions with the region list and the ports they share. */
  class Machine {
    var devs: seq<Function>
    var mem: map<Addr, Owner>
    var io: map<IoPort, Owner>

    ghost function View(): World
      reads this
    {
      World(devs, mem, io)
    }

    constructor (devs: seq<Function>)
      requires forall d :: 0 <= d < |devs| ==> Formed(devs[d]) && devs[d].command == 0
      ensures View() == World(devs, map[], map[]) && Shapes(View()) && Owned(View())
      ensures AllSealed(View()) ==> Inv(View())
    {
      this.devs, mem, io := devs, map[], map[];
      FreshAgrees(devs);
    }

    /** `HeaderData::set_bar`. */
    method SetBar(d: nat, i: nat, val: bv32)
      requires DevIn(View(), d) && i < BARS
      modifies this`devs
      ensures devs == old(devs)[d := PciBars.SetBar(old(devs)[d], i, val)]
    {
      var f := devs[d];
      var masked := MaskBits(f.bars[i], val, f.masks[i]);
      devs := devs[d := f.(bars := f.bars[i := masked])];
    }

    /** `BarCallback::mapped`. */
    method BarMapped(d: nat, i: nat, a: Addr)
      requires DevIn(View(), d) && i < BARS
      modifies this`devs
      ensures devs == old(devs)[d := Mapped(old(devs)[d], i, a)]
    {
      hide MaskBits, Is64;
      var before := devs[d].bars[i];
      SetBar(d, i, a.lo);
      if Is64(before) && i + 1 < BARS {
        SetBar(d, i + 1, a.hi);
      }
    }

    /** `add_region` and the callback of the region; false on an error or where the callback panics. */
    method AddRegion(a: Addr, o: Owner) returns (ok: bool)
      requires Known(View(), o)
      modifies this`devs, this`mem
      ensures match PciBars.AddRegion(old(View()), a, o)
              case Some(w) => ok && View() == w
              case None => !ok
    {
      if a in mem || (o.Bar? && Overruns(devs[o.dev], o.index)) {
        return false;
      }
      mem := mem[a := o];
      if o.Bar? {
        BarMapped(o.dev, o.index, a);
      }
      return true;
    }

    method AddIoRegion(p: IoPort, o: Owner) returns (ok: bool)
      requires Known(View(), o)
      modifies this`devs, this`io
      ensures match PciBars.AddIoRegion(old(View()), p, o)
              case Some(w) => ok && View() == w
              case None => !ok
    {
      hide PortAddr;
      if p in io || (o.Bar? && Overruns(devs[o.dev], o.index)) {
        return false;
      }
      io := io[p := o];
      if o.Bar? {
        BarMapped(o.dev, o.index, PortAddr(p));
      }
      return true;
    }

    /** `MoveBarCallback::change`. */
    method Move(src: Addr, dst: Addr) returns (ok: bool)
      requires Owned(View())
      modifies this
      ensures match MoveBar(old(View()), src, dst)
              case Some(w) => ok && View() == w
              case None => !ok
    {
      hide Known, IsIo, MemAddr, Port, Panics, PciBars.AddRegion, PciBars.AddIoRegion;
      if IsIo(src.lo) {
        var p := Port(src.lo);
        if p !in io {
          return false;
        }
        var o := io[p];
        KnownStill(View(), World(devs, mem, io - {p}), o);
        io := io - {p};
        ok := AddIoRegion(Port(dst.lo), o);
      } else {
        var a := Addr(MemAddr(src.lo), src.hi);
        if a !in mem {
          return false;
        }
        var o := mem[a];
        KnownStill(View(), World(devs, mem - {a}, io), o);
        mem := mem - {a};
        ok := AddRegion(Addr(MemAddr(dst.lo), dst.hi), o);
      }
    }

    /** `UpdateCommandCallback::change`. */
    method UpdateCommand(d: nat, bars: seq<bv32>, changed: bv16) returns (ok: bool)
      requires Shapes(View()) && d < |devs| && |bars| == BARS
      modifies this
      ensures match UpdateFrom(old(View()), d, 0, bars, changed)
              case Some(w) => ok && View() == w
              case None => !ok
    {
      hide MemOn, IoOn, MemChanged, IoChanged, AddrOf, Port, PciBars.AddRegion, PciBars.AddIoRegion, UpdateFrom;
      ghost var first := View();
      for i := 0 to BARS
        invariant Shapes(View()) && d < |devs|
        invariant UpdateFrom(first, d, 0, bars, changed) == UpdateFrom(View(), d, i, bars, changed)
      {
        ghost var w := View();
        UpdateNext(w, d, i, bars, changed);
        var f := devs[d];
        match f.kinds[i] {
          case Empty =>
          case MemBar =>
            if !MemChanged(changed) {
              continue;
            }
            var a := AddrOf(f.(bars := bars), i);
            if MemOn(f) {
              var added := AddRegion(a, Bar(d, i));
              if !added {
                return false;
              }
            } else {
              if a !in mem {
                return false;
              }
              mem := mem - {a};
            }
          case IoBar =>
            if !IoChanged(changed) {
              continue;
            }
            var p := Port(bars[i]);
            if IoOn(f) {
              var added := AddIoRegion(p, Bar(d, i));
              if !added {
                return false;
              }
            } else {
              if p !in io {
                return false;
              }
              io := io - {p};
            }
        }
      }
      UpdateDone(View(), d, bars, changed);
      return true;
    }

    /** A four-byte write to a BAR, with the layout change it asks for: agreement is kept. */
    method WriteBar(d: nat, i: nat, val: bv32) returns (ok: bool)
      requires Shapes(View()) && Owned(View()) && d < |devs| && i < BARS
      modifies this
      ensures match PciBars.WriteBar(old(View()), d, i, val)
              case Some(w) => ok && View() == w
              case None => !ok
      ensures ok && old(Inv(View())) ==> Inv(View()) && PciEffects.Effect(old(View()), d, i, val, View())
      ensures old(Inv(View())) ==> (!ok <==> PciEffects.Blocked(old(View()), d, i, val))
    {
      hide MaskBits, Is64, MemOn, IoOn, MoveBar, Inv, Known, PciEffects.Effect, PciEffects.Blocked;
      if Inv(View()) {
        PciEffects.WriteBarEffect(View(), d, i, val);
        if PciBars.WriteBar(View(), d, i, val).Some? {
          WriteBarKeeps(View(), d, i, val);
        }
      }
      var f := devs[d];
      var before, after := f.bars[i], MaskBits(f.bars[i], val, f.masks[i]);
      if before == after {
        return true;
      }
      if f.kinds[i].IoBar? && IoOn(f) {
        ok := Move(Addr(before, 0), Addr(after, 0));
      } else if f.kinds[i].MemBar? && MemOn(f) {
        var hi: bv32 := if Is64(before) && i + 1 < BARS then f.bars[i + 1] else 0;
        ok := Move(Addr(before, hi), Addr(after, hi));
      } else if f.kinds[i].Empty? && MemOn(f) && i > 0 && Is64(f.bars[i - 1]) {
        ok := Move(Addr(f.bars[i - 1], before), Addr(f.bars[i - 1], after));
      } else {
        devs := devs[d := f.(bars := f.bars[i := after])];
        ok := true;
      }
    }

    /** A two-byte write to the command register, with the layout change it asks for: agreement is kept. */
    method WriteCommand(d: nat, val: bv16) returns (ok: bool)
      requires Shapes(View()) && d < |devs|
      modifies this
      ensures match PciBars.WriteCommand(old(View()), d, val)
              case Some(w) => ok && View() == w
              case None => !ok
      ensures ok && old(Inv(View())) ==> Inv(View()) && PciEffects.CommandEffect(old(View()), d, val, View())
    {
      hide NewCommand, Flipped, MemChanged, IoChanged, UpdateFrom, Inv, PciEffects.CommandEffect;
      if Inv(View()) && PciBars.WriteCommand(View(), d, val).Some? {
        WriteCommandKeeps(View(), d, val);
        PciEffects.WriteCommandEffect(View(), d, val);
      }
      var f := devs[d];
      var current := NewCommand(f.command, val);
      var changed := Flipped(f.command, current);
      devs := devs[d := f.(command := current)];
      ok := true;
      if MemChanged(changed) || IoChanged(changed) {
        ok := UpdateCommand(d, f.bars, changed);
      }
    }
  }

  lemma KnownStill(w: World, v: World, o: Owner)
    requires Known(w, o) && v.devs == w.devs
    ensures Known(v, o)
  {
  }

  lemma UpdateNext(w: World, d: nat, i: nat, bars: seq<bv32>, changed: bv16)
    requires Shapes(w) && d < |w.devs| && i < BARS && |bars| == BARS
    ensures var v := UpdateOne(w, d, i, bars, changed);
            v.Some? ==> Shapes(v.value) && d < |v.value.devs|
                        && UpdateFrom(w, d, i, bars, changed) == UpdateFrom(v.value, d, i + 1, bars, changed)
    ensures UpdateOne(w, d, i, bars, changed) == None ==> UpdateFrom(w, d, i, bars, changed) == None
  {
    hide UpdateOne, Kept;
    var v := UpdateOne(w, d, i, bars, changed);
    if v.Some? {
      UpdateOneKept(w, d, i, bars, changed);
      KeptShapes(w, v.value);
      KeptCount(w, v.value);
    }
  }

  lemma KeptCount(w: World, v: World)
    requires Kept(w, v)
    ensures |v.devs| == |w.devs|
  {
  }

  lemma UpdateDone(w: World, d: nat, bars: seq<bv32>, changed: bv16)
    requires Shapes(w) && d < |w.devs| && |bars| == BARS
    ensures UpdateFrom(w, d, BARS, bars, changed) == Some(w)
  {
  }

  lemma FreshAgrees(devs: seq<Function>)
    requires forall d :: 0 <= d < |devs| ==> Formed(devs[d]) && devs[d].command == 0
    ensures var w := World(devs, map[], map[]); Shapes(w) && (AllSealed(w) ==> Inv(w))
  {
    hide Well, Sealed, Inv;
    var w := World(devs, map[], map[]);
    assert Powered(w);
    if AllSealed(w) {
      InitialAgrees(w);
    }
  }
}
