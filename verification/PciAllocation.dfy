/**
 What boot-time assignment leaves in the registers: every placed BAR reads back its address, with its
 type bits intact.
 */
module PciAllocation {
  import opened Wrappers
  import opened Bytes
  import opened Powers
  import opened PciBars
  import opened PciBarTheorems
  import opened PciBarRuns
  import opened PciHeader
  import opened PciNumbers
  import opened PciSizing
  import opened PciWindows
  import opened PciSegment
  import opened PciShortfalls

  /** The masks of register `i` are those of its size. */
  ghost predicate Sized(f: Function, i: nat)
    requires Shaped(f) && i < BARS
  {
    var mask := MaskOf(LogAt(f, i));
    f.masks[i] == Lo(mask) && (Is64(f.bars[i]) && i + 1 < BARS ==> f.masks[i + 1] == Hi(mask))
  }

  /** Well formed, with masks for power-of-two sizes. */
  ghost predicate Fitted(f: Function) {
    Formed(f) && forall i :: 0 <= i < BARS && !f.kinds[i].Empty? ==> Sized(f, i)
  }

  /** A header is so fitted if every register that is not a 64-bit one has a mask within its 32 bits. */
  lemma NewIsFitted(kinds: seq<Kind>, sizes: seq<nat>, bars: seq<bv32>, masks: seq<bv32>)
    requires Buildable(kinds, sizes, bars) && |masks| == BARS
    requires forall i :: 0 <= i < BARS ==> masks[i] == MaskFor(kinds, sizes, bars, i)
    requires forall i :: 0 <= i < BARS && kinds[i].MemBar? && !Is64(bars[i]) ==> SizeLog(sizes[i], 12) < 32
    requires forall i :: 0 <= i < BARS && kinds[i].IoBar? ==> SizeLog(sizes[i], 2) < 32
    ensures Fitted(Function(kinds, bars, masks, 0))
  {
    NewIsWell(kinds, sizes, bars, masks);
    hide Is64, Lo, Hi, MaskOf, Join, TrailingZeros, SizeLog, Formed;
    var f := Function(kinds, bars, masks, 0);
    forall i | 0 <= i < BARS && !f.kinds[i].Empty? ensures Sized(f, i) {
      assert BuildableAt(kinds, sizes, bars, i) && masks[i] == MaskFor(kinds, sizes, bars, i);
      if kinds[i].IoBar? {
        PortNot64();
        MaskGivesSize(SizeLog(sizes[i], 2));
      } else {
        LogBelow(sizes[i], 12);
        MaskGivesSize(SizeLog(sizes[i], 12));
        if Is64(bars[i]) {
          assert masks[i + 1] == MaskFor(kinds, sizes, bars, i + 1);
        }
      }
    }
  }

  lemma PortNot64()
    ensures !Is64(BAR_IO)
  {
  }

  // ---------------------------------------------------------------------- one register

  /** What a memory register reads after it was given `a`; right if and only if it has no upper half, the upper half
      was written, or the upper half was zero before. */
  lemma SpellsAssigned(f: Function, i: nat, a: nat)
    requires Formed(f) && i < BARS && f.kinds[i].MemBar? && Sized(f, i) && Aligned(a, LogAt(f, i))
    requires Halves(a).hi != 0 ==> Is64(f.bars[i])
    ensures AddrOf(Assign(f, i, Halves(a)), i) == Halves(a)
            <==> !Is64(f.bars[i]) || Halves(a).hi != 0 || (i + 1 < BARS && f.bars[i + 1] == 0)
  {
    hide Outside, Covered, MemBits, IoBits, Is64, IsIo, MaskBits, MemAddr, Lo, Hi, MaskOf, Halves, Aligned, LogAt;
    WellAt(f, i);
    AlignedCovered(a, LogAt(f, i));
    var bar, mask, lo := f.bars[i], f.masks[i], Halves(a).lo;
    MaskedOutside(bar, lo, mask);
    SameMem(bar, MaskBits(bar, lo, mask), mask);
    Recover(bar, lo, mask);
    if Is64(bar) && Halves(a).hi != 0 {
      RecoverHigh(f.bars[i + 1], Halves(a).hi, f.masks[i + 1]);
    }
  }

  function PortBits(bar: bv32): bv32 {
    bar & !BAR_IO_MASK
  }

  lemma PortAssigned(f: Function, i: nat, a: nat)
    requires Formed(f) && i < BARS && f.kinds[i].IoBar? && Sized(f, i) && Aligned(a, LogAt(f, i)) && Halves(a).hi == 0
    ensures PortBits(Assign(f, i, Halves(a)).bars[i]) == Halves(a).lo
  {
    hide Outside, Covered, MemBits, IoBits, Is64, IsIo, MaskBits, PortBits, Lo, Hi, MaskOf, Halves, Aligned, LogAt;
    WellAt(f, i);
    AlignedCovered(a, LogAt(f, i));
    RecoverIo(f.bars[i], Halves(a).lo, f.masks[i]);
  }

  lemma RecoverIo(bar: bv32, lo: bv32, mask: bv32)
    requires IoBits(bar, mask) && Covered(lo, mask)
    ensures PortBits(MaskBits(bar, lo, mask)) == lo
  {
  }

  /** Only a 64-bit memory register is given an upper half. */
  ghost predicate Proper(f: Function, i: nat, a: Addr)
    requires Shaped(f) && i < BARS
  {
    !f.kinds[i].Empty? && (a.hi != 0 ==> f.kinds[i].MemBar? && Is64(f.bars[i]))
  }

  /** Register `i` of `g` is as in `f`, with its upper half if it has one. */
  ghost predicate SameAt(f: Function, g: Function, i: nat)
    requires Shaped(f) && Shaped(g) && i < BARS
  {
    SameOutside(f, g) && g.bars[i] == f.bars[i]
        && (f.kinds[i].MemBar? && Is64(f.bars[i]) && i + 1 < BARS ==> g.bars[i + 1] == f.bars[i + 1])
  }

  lemma AssignElsewhere(f: Function, i: nat, a: Addr, j: nat)
    requires Formed(f) && i < BARS && j < BARS && j != i && !f.kinds[j].Empty? && Proper(f, i, a)
    ensures Shaped(Assign(f, i, a)) && SameAt(f, Assign(f, i, a), j)
  {
    hide Outside, Covered, MemBits, IoBits, Is64, IsIo, MaskBits, SameOutside;
    WellAt(f, i);
    WellAt(f, j);
    AssignOutside(f, i, a);
    SameShape(f, Assign(f, i, a));
  }

  lemma SameAtThen(f: Function, g: Function, h: Function, i: nat)
    requires Shaped(f) && Shaped(g) && Shaped(h) && i < BARS && SameAt(f, g, i) && SameAt(g, h, i)
    ensures SameAt(f, h, i)
  {
    hide Is64, Outside;
  }

  // ------------------------------------------------------------------- all placements

  ghost predicate AllWell(devices: Devices) {
    forall b :: b in devices ==> Formed(devices[b])
  }

  ghost predicate AllProper(devices: Devices, ps: seq<Placement>)
    requires DevicesShaped(devices)
  {
    forall k :: 0 <= k < |ps| ==>
      ps[k].e.bdf in devices && ps[k].e.index < BARS && Proper(devices[ps[k].e.bdf], ps[k].e.index, Halves(ps[k].addr))
  }

  predicate SameRegister(a: Entry, b: Entry) {
    a.bdf == b.bdf && a.index == b.index
  }

  lemma {:induction false} WrittenElsewhere(devices: Devices, ps: seq<Placement>, b: nat, i: nat)
    requires DevicesShaped(devices) && AllWell(devices) && PlacedKnown(devices, ps) && AllProper(devices, ps)
    requires b in devices && i < BARS && !devices[b].kinds[i].Empty?
    requires forall k :: 0 <= k < |ps| ==> ps[k].e.bdf != b || ps[k].e.index != i
    ensures b in Written(devices, ps) && SameAt(devices[b], Written(devices, ps)[b], i)
    ensures AllWell(Written(devices, ps))
    ensures forall x :: x in devices ==> SameOutside(devices[x], Written(devices, ps)[x])
    decreases |ps|
  {
    hide Well, Outside, Is64, Assign, Halves, MaskBits;
    if ps != [] {
      var n := |ps| - 1;
      WrittenElsewhere(devices, ps[..n], b, i);
      var d, p := Written(devices, ps[..n]), ps[n];
      var f := d[p.e.bdf];
      assert Proper(devices[p.e.bdf], p.e.index, Halves(p.addr));
      StillProper(devices[p.e.bdf], f, p.e.index, Halves(p.addr));
      AssignOutside(f, p.e.index, Halves(p.addr));
      FormedStays(f, Assign(f, p.e.index, Halves(p.addr)));
      if p.e.bdf == b {
        AssignElsewhere(f, p.e.index, Halves(p.addr), i);
        SameAtThen(devices[b], f, Assign(f, p.e.index, Halves(p.addr)), i);
      }
    }
  }

  lemma StillProper(f: Function, g: Function, i: nat, a: Addr)
    requires Formed(f) && SameOutside(f, g) && i < BARS && Proper(f, i, a)
    ensures Proper(g, i, a)
  {
    FormedStays(f, g);
  }

  /** A placed register ends as if it alone had been assigned. */
  lemma {:induction false} WrittenAlone(devices: Devices, ps: seq<Placement>, k: nat)
    requires DevicesShaped(devices) && AllWell(devices) && PlacedKnown(devices, ps) && AllProper(devices, ps)
             && k < |ps|
    requires forall j :: 0 <= j < |ps| && j != k ==> !SameRegister(ps[j].e, ps[k].e)
    ensures var (f, i, a) := (devices[ps[k].e.bdf], ps[k].e.index, Halves(ps[k].addr));
            var g := Written(devices, ps)[ps[k].e.bdf];
            SameOutside(f, g) && g.bars[i] == Assign(f, i, a).bars[i]
            && (f.kinds[i].MemBar? ==> AddrOf(g, i) == AddrOf(Assign(f, i, a), i))
    decreases |ps|
  {
    hide Formed, Assign, Halves, SameOutside, Proper, AddrOf;
    var n := |ps| - 1;
    if k == n {
      WrittenLast(devices, ps);
    } else {
      WrittenAlone(devices, ps[..n], k);
      if ps[n].e.bdf == ps[k].e.bdf {
        LaterElsewhere(devices, ps, k);
      }
    }
  }

  lemma WrittenLast(devices: Devices, ps: seq<Placement>)
    requires DevicesShaped(devices) && AllWell(devices) && PlacedKnown(devices, ps) && AllProper(devices, ps)
             && ps != []
    requires forall j :: 0 <= j < |ps| - 1 ==> !SameRegister(ps[j].e, ps[|ps| - 1].e)
    ensures var p := ps[|ps| - 1];
            var (f, i, a) := (devices[p.e.bdf], p.e.index, Halves(p.addr));
            var g := Written(devices, ps)[p.e.bdf];
            SameOutside(f, g) && g.bars[i] == Assign(f, i, a).bars[i]
            && (f.kinds[i].MemBar? ==> AddrOf(g, i) == AddrOf(Assign(f, i, a), i))
  {
    hide Formed, Assign, Halves, SameOutside, Proper, AddrOf, SameAt;
    var n := |ps| - 1;
    var p, d := ps[n], Written(devices, ps[..n]);
    assert Proper(devices[p.e.bdf], p.e.index, Halves(p.addr));
    assert forall j :: 0 <= j < n ==> ps[..n][j] == ps[j] && !SameRegister(ps[j].e, p.e);
    KindOf(devices[p.e.bdf], p.e.index, Halves(p.addr));
    WrittenElsewhere(devices, ps[..n], p.e.bdf, p.e.index);
    AssignSame(devices[p.e.bdf], d[p.e.bdf], p.e.index, Halves(p.addr));
  }

  lemma KindOf(f: Function, i: nat, a: Addr)
    requires Shaped(f) && i < BARS && Proper(f, i, a)
    ensures !f.kinds[i].Empty?
  {
  }

  /** Assigning a register that has not been touched. */
  lemma AssignSame(f: Function, g: Function, i: nat, a: Addr)
    requires Formed(f) && Shaped(g) && i < BARS && SameAt(f, g, i) && Proper(f, i, a)
    ensures SameOutside(f, Assign(g, i, a)) && Assign(g, i, a).bars[i] == Assign(f, i, a).bars[i]
    ensures f.kinds[i].MemBar? ==> AddrOf(Assign(g, i, a), i) == AddrOf(Assign(f, i, a), i)
  {
    hide Outside, Is64, MaskBits, MemAddr, Covered, MemBits, IoBits;
    WellAt(f, i);
    AssignOutside(g, i, a);
    SameShape(f, g);
    if f.kinds[i].MemBar? {
      AssignIs64(f, i, a);
      AssignIs64(g, i, a);
    }
  }

  lemma AssignIs64(f: Function, i: nat, a: Addr)
    requires Shaped(f) && i < BARS && MemBits(f.bars[i], f.masks[i])
    ensures Is64(Assign(f, i, a).bars[i]) == Is64(f.bars[i])
  {
    hide Is64, MemBits, MaskBits, Outside;
    MaskedOutside(f.bars[i], a.lo, f.masks[i]);
    SameMem(f.bars[i], MaskBits(f.bars[i], a.lo, f.masks[i]), f.masks[i]);
  }

  /** The last write, to another register, leaves register `k` as it was. */
  lemma LaterElsewhere(devices: Devices, ps: seq<Placement>, k: nat)
    requires DevicesShaped(devices) && AllWell(devices) && PlacedKnown(devices, ps) && AllProper(devices, ps)
             && k < |ps| - 1
    requires ps[|ps| - 1].e.bdf == ps[k].e.bdf && ps[|ps| - 1].e.index != ps[k].e.index
    ensures var d, b, i := Written(devices, ps[..|ps| - 1]), ps[k].e.bdf, ps[k].e.index;
            var g := Written(devices, ps)[b];
            b in d && SameOutside(d[b], g) && g.bars[i] == d[b].bars[i]
            && (devices[b].kinds[i].MemBar? ==> AddrOf(g, i) == AddrOf(d[b], i)) && SameOutside(devices[b], g)
  {
    hide Formed, SameOutside, AddrOf, Assign, Halves, Proper;
    var n, b, i := |ps| - 1, ps[k].e.bdf, ps[k].e.index;
    var d, p := Written(devices, ps[..n]), ps[n];
    WrittenKeeps(devices, ps[..n]);
    assert Proper(devices[b], i, Halves(ps[k].addr)) && Proper(devices[b], p.e.index, Halves(p.addr));
    KindOf(devices[b], i, Halves(ps[k].addr));
    AssignLater(devices[b], d[b], p.e.index, Halves(p.addr), i);
  }

  lemma AssignLater(f: Function, g: Function, i: nat, a: Addr, j: nat)
    requires Formed(f) && SameOutside(f, g) && i < BARS && j < BARS && j != i && Proper(f, i, a) && !f.kinds[j].Empty?
    ensures var h := Assign(g, i, a);
            && Shaped(h) && SameOutside(g, h) && SameOutside(f, h) && h.bars[j] == g.bars[j]
            && (f.kinds[j].MemBar? ==> AddrOf(h, j) == AddrOf(g, j))
  {
    hide Well, Outside, Is64, Assign, MaskBits, MemAddr;
    FormedStays(f, g);
    StillProper(f, g, i, a);
    AssignElsewhere(g, i, a, j);
    FormedStays(g, Assign(g, i, a));
  }

  lemma {:induction false} WrittenKeeps(devices: Devices, ps: seq<Placement>)
    requires DevicesShaped(devices) && AllWell(devices) && PlacedKnown(devices, ps)
    ensures forall x :: x in devices ==>
              SameOutside(devices[x], Written(devices, ps)[x]) && Formed(Written(devices, ps)[x])
    decreases |ps|
  {
    hide Well, Outside, Assign, Halves;
    if ps != [] {
      var n := |ps| - 1;
      WrittenKeeps(devices, ps[..n]);
      var d, p := Written(devices, ps[..n]), ps[n];
      AssignOutside(d[p.e.bdf], p.e.index, Halves(p.addr));
      FormedStays(d[p.e.bdf], Assign(d[p.e.bdf], p.e.index, Halves(p.addr)));
    }
  }

  // --------------------------------------------------------------------- the registers

  /** Register `i` is no upper half. */
  ghost predicate Starts(f: Function, i: nat)
    requires Shaped(f)
  {
    0 < i < BARS ==> !(f.kinds[i - 1].MemBar? && Is64(f.bars[i - 1]))
  }

  /** No I/O register that looks like a 64-bit one comes before another BAR. */
  predicate Passable(f: Function)
    requires Shaped(f)
  {
    forall i :: 0 <= i < BARS - 1 && f.kinds[i].IoBar? && Is64(f.bars[i]) ==> f.kinds[i + 1].Empty?
  }

  /** Whoever looks at a register that seems to be a 64-bit one passes over the next. */
  lemma {:induction false} PassesOver(f: Function, i: nat, j: nat)
    requires Shaped(f) && j in Visited(f, i) && j < BARS && Is64(f.bars[j])
    ensures j + 1 !in Visited(f, i)
    decreases BARS - i
  {
    hide Is64;
    VisitedFrom(f, i);
    VisitedFrom(f, After(f, i));
    if i < j {
      PassesOver(f, After(f, i), j);
    }
  }

  lemma {:induction false} VisitsRest(f: Function, i: nat, j: nat)
    requires Formed(f) && Passable(f) && Starts(f, i) && i <= j < BARS && !f.kinds[j].Empty?
    ensures j in Visited(f, i)
    decreases BARS - i
  {
    hide Is64, IsIo, MemBits, IoBits, Covered;
    WellAt(f, i);
    EmptyNothing();
    if i < j {
      VisitsRest(f, After(f, i), j);
    }
  }

  /** The allocator looks at every BAR of a function if and only if no I/O register that looks like a 64-bit one comes
      before another BAR. */
  lemma VisitsAllIff(f: Function)
    requires Formed(f)
    ensures (forall j :: 0 <= j < BARS && !f.kinds[j].Empty? ==> j in Visited(f, 0)) <==> Passable(f)
  {
    hide Is64, Well, Visited;
    if Passable(f) {
      forall j | 0 <= j < BARS && !f.kinds[j].Empty? ensures j in Visited(f, 0) {
        VisitsRest(f, 0, j);
      }
    } else {
      var i :| 0 <= i < BARS - 1 && f.kinds[i].IoBar? && Is64(f.bars[i]) && !f.kinds[i + 1].Empty?;
      if i in Visited(f, 0) {
        PassesOver(f, 0, i);
      }
    }
  }

  /** A four-byte port register that holds port 4, and a memory register after it: the second gets no address. */
  lemma PortHidesNext()
    ensures var f := FourBytePort(0, 0); Formed(f) && !f.kinds[1].Empty? && 1 !in Visited(f, 0) && !Passable(f)
  {
    var f := FourBytePort(0, 0);
    assert Is64(f.bars[0]) && !Is64(0);
    assert After(f, 0) == 2;
    VisitedFrom(f, 2);
    forall i | 0 <= i < BARS ensures Well(f, i) {
    }
  }

  ghost predicate Real(f: Function, e: Entry, c: nat)
    requires Shaped(f)
  {
    e.index < BARS && !f.kinds[e.index].Empty? && e.log == LogAt(f, e.index) && WindowOf(f.bars[e.index]) == c
  }

  /** Every register in a list belongs to a BAR, with the size that its mask says. */
  lemma {:induction false} EntriesReal(bdf: nat, f: Function, i: nat, c: nat)
    requires Formed(f) && Starts(f, i) && Passable(f)
    ensures forall k :: 0 <= k < |EntriesFrom(bdf, f, i, c)| ==>
              EntriesFrom(bdf, f, i, c)[k].bdf == bdf && Real(f, EntriesFrom(bdf, f, i, c)[k], c)
    decreases BARS - i
  {
    hide Is64, IsIo, MemBits, IoBits, Covered, Join, TrailingZeros, WindowOf;
    if i < BARS {
      WellAt(f, i);
      EmptyNothing();
      EntriesReal(bdf, f, After(f, i), c);
    }
  }

  lemma EmptyNothing()
    ensures !Is64(0) && Join(0, 0) == 0
  {
  }

  ghost predicate AllPassable(devices: Devices)
    requires DevicesShaped(devices)
  {
    forall b :: b in devices ==> Passable(devices[b])
  }

  ghost predicate AllFitted(devices: Devices) {
    forall b :: b in devices ==> Fitted(devices[b])
  }

  lemma ListReal(devices: Devices, es: seq<Entry>, c: nat, e: Entry)
    requires AllWell(devices) && DevicesShaped(devices) && AllPassable(devices) && SetOf(es) == ForWindow(devices, c)
             && e in es
    ensures e.bdf in devices && Real(devices[e.bdf], e, c)
  {
    hide Well, EntriesFrom, Real;
    assert e in SetOf(es);
    var b :| b in devices && e in EntriesFrom(b, devices[b], 0, c);
    EntriesReal(b, devices[b], 0, c);
    var k :| 0 <= k < |EntriesFrom(b, devices[b], 0, c)| && EntriesFrom(b, devices[b], 0, c)[k] == e;
    assert EntriesFrom(b, devices[b], 0, c)[k].bdf == b;
  }

  /** Windows with room below 2^64 for the largest register of each; all but the last within 32 bits. */
  ghost predicate Fit(lists: seq<seq<Entry>>, windows: seq<(nat, nat)>) {
    && |lists| == WINDOWS && |windows| == WINDOWS
    && forall c :: 0 <= c < WINDOWS ==>
         windows[c].0 <= windows[c].1 < U64_SPAN && Headroom(lists[c], windows[c].0, windows[c].1)
             && (c < 3 ==> windows[c].1 <= 0x1_0000_0000)
  }

  /** Which window placement `k` is in, and where. */
  lemma {:induction false} Locate(lists: seq<seq<Entry>>, windows: seq<(nat, nat)>, n: nat, k: nat)
      returns (c: nat, m: nat)
    requires |lists| == WINDOWS && |windows| == WINDOWS && n <= WINDOWS && k < |Placed(lists, windows, n)|
    ensures c < n && k == |Placed(lists, windows, c)| + m
    ensures var ps := Place(lists[c], windows[c].0, windows[c].1); m < |ps| && Placed(lists, windows, n)[k] == ps[m]
    decreases n
  {
    hide Place;
    if k < |Placed(lists, windows, n - 1)| {
      c, m := Locate(lists, windows, n - 1, k);
    } else {
      c, m := n - 1, k - |Placed(lists, windows, n - 1)|;
    }
  }

  /** Every placed BAR lies in its window, naturally aligned, and belongs to a register for that window. */
  lemma PlacementSafe(devices: Devices, lists: seq<seq<Entry>>, windows: seq<(nat, nat)>, c: nat)
    requires AllWell(devices) && DevicesShaped(devices) && AllPassable(devices) && Listed(devices, lists)
             && Fit(lists, windows) && c < WINDOWS
    ensures Safe(Place(lists[c], windows[c].0, windows[c].1), windows[c].0, windows[c].1)
    ensures forall m :: 0 <= m < |Place(lists[c], windows[c].0, windows[c].1)| ==>
              var e := Place(lists[c], windows[c].0, windows[c].1)[m].e;
                e in lists[c] && e.bdf in devices && Real(devices[e.bdf], e, c)
  {
    hide Place, Safe, Real, Headroom, AllWell, Ordered;
    PlaceSafe(lists[c], windows[c].0, windows[c].1);
    var ps := Place(lists[c], windows[c].0, windows[c].1);
    forall m | 0 <= m < |ps|
      ensures ps[m].e in lists[c] && ps[m].e.bdf in devices && Real(devices[ps[m].e.bdf], ps[m].e, c)
    {
      ListReal(devices, lists[c], c, ps[m].e);
    }
  }

  predicate InWindow(p: Placement, window: (nat, nat)) {
    window.0 <= p.addr && p.addr + Pow2(p.e.log) <= window.1
  }

  /** Every placement is in the window that the type bits of its register name, and they name one. */
  lemma PlacedByType(devices: Devices, lists: seq<seq<Entry>>, windows: seq<(nat, nat)>, k: nat)
    requires DevicesShaped(devices) && Supported(devices) && Listed(devices, lists) && Fit(lists, windows)
    requires k < |Placed(lists, windows, WINDOWS)|
    ensures var p := Placed(lists, windows, WINDOWS)[k];
            && p.e.bdf in devices && p.e.index in Visited(devices[p.e.bdf], 0) && p.e.index < BARS
            && var bar := devices[p.e.bdf].bars[p.e.index];
            && (bar & 0x1 == 0x1 || bar & 0xD == 0x0 || bar & 0xD == 0x8 || bar & 0xD == 0xC)
            && (bar & 0x1 == 0x1 ==> InWindow(p, windows[0])) && (bar & 0xD == 0x0 ==> InWindow(p, windows[1]))
            && (bar & 0xD == 0x8 ==> InWindow(p, windows[2])) && (bar & 0xD == 0xC ==> InWindow(p, windows[3]))
  {
    hide Place, Placed, Headroom, Sound, EntriesFrom, Visited, MaskAt, LogAt, Aligned, Ordered, Pow2, ForType;
    var c, m := Locate(lists, windows, WINDOWS, k);
    PlaceSafe(lists[c], windows[c].0, windows[c].1);
    var ps := Place(lists[c], windows[c].0, windows[c].1);
    var p := ps[m];
    assert Inside(ps[m], windows[c].0, windows[c].1) && p.e in lists[c];
    assert p.e in SetOf(lists[c]);
    var b :| b in devices && p.e in EntriesFrom(b, devices[b], 0, c);
    EntriesTyped(b, devices[b], 0, c, p.e);
    TypeIs(devices[b].bars[p.e.index], c);
  }

  lemma TypeIs(bar: bv32, c: nat)
    requires ForType(bar, c)
    ensures bar & 0x1 == 0x1 || bar & 0xD == 0x0 || bar & 0xD == 0x8 || bar & 0xD == 0xC
    ensures (bar & 0x1 == 0x1 ==> c == 0) && (bar & 0xD == 0x0 ==> c == 1)
    ensures (bar & 0xD == 0x8 ==> c == 2) && (bar & 0xD == 0xC ==> c == 3)
  {
  }

  /** Two placements are of different registers, and apart if their windows are the same or apart. */
  lemma PlacementsApart(devices: Devices, lists: seq<seq<Entry>>, windows: seq<(nat, nat)>, j: nat, k: nat)
    requires AllWell(devices) && DevicesShaped(devices) && AllPassable(devices) && Listed(devices, lists)
             && Fit(lists, windows)
    requires j < k < |Placed(lists, windows, WINDOWS)|
    ensures var p, q := Placed(lists, windows, WINDOWS)[j], Placed(lists, windows, WINDOWS)[k];
            && !SameRegister(p.e, q.e)
            && (WindowsApart(windows) ==> p.addr + Pow2(p.e.log) <= q.addr || q.addr + Pow2(q.e.log) <= p.addr)
  {
    hide Place, Placed, Pow2, LogAt, WindowOf, Aligned, Headroom, AllWell, Listed;
    var c, m := Locate(lists, windows, WINDOWS, j);
    var d, n := Locate(lists, windows, WINDOWS, k);
    PlacementSafe(devices, lists, windows, c);
    PlacementSafe(devices, lists, windows, d);
    var ps, qs := Place(lists[c], windows[c].0, windows[c].1), Place(lists[d], windows[d].0, windows[d].1);
    assert Inside(ps[m], windows[c].0, windows[c].1) && Inside(qs[n], windows[d].0, windows[d].1);
    assert Real(devices[ps[m].e.bdf], ps[m].e, c) && Real(devices[qs[n].e.bdf], qs[n].e, d);
    if c == d {
      assert m != n;
      SafeApart(ps, windows[c].0, windows[c].1, m, n);
    }
  }

  lemma SafeApart(ps: seq<Placement>, start: nat, end: nat, m: nat, n: nat)
    requires Safe(ps, start, end) && m < |ps| && n < |ps| && m != n
    ensures ps[m].e != ps[n].e
    ensures ps[m].addr + Pow2(ps[m].e.log) <= ps[n].addr || ps[n].addr + Pow2(ps[n].e.log) <= ps[m].addr
  {
    hide Pow2, Aligned;
    assert m < n || n < m;
  }

  predicate WindowsApart(windows: seq<(nat, nat)>) {
    forall c, d :: 0 <= c < d < |windows| ==> windows[c].1 <= windows[d].0 || windows[d].1 <= windows[c].0
  }

  lemma AboveIsLast(devices: Devices, lists: seq<seq<Entry>>, windows: seq<(nat, nat)>, k: nat)
    requires AllWell(devices) && DevicesShaped(devices) && AllPassable(devices) && Listed(devices, lists)
             && Fit(lists, windows)
    requires k < |Placed(lists, windows, WINDOWS)|
    ensures var p := Placed(lists, windows, WINDOWS)[k];
            && p.e.bdf in devices && p.e.index < BARS && p.addr < U64_SPAN
            && Proper(devices[p.e.bdf], p.e.index, Halves(p.addr))
            && Aligned(p.addr, p.e.log) && p.e.log == LogAt(devices[p.e.bdf], p.e.index)
            && (Halves(p.addr).hi != 0 <==> p.addr >= 0x1_0000_0000)
            && (devices[p.e.bdf].kinds[p.e.index].IoBar? ==> Halves(p.addr).hi == 0)
  {
    hide Place, Placed, Pow2, LogAt, Aligned, Listed, Halves, Well;
    var c, m := Locate(lists, windows, WINDOWS, k);
    PlacementSafe(devices, lists, windows, c);
    var ps := Place(lists[c], windows[c].0, windows[c].1);
    var p := ps[m];
    assert Inside(ps[m], windows[c].0, windows[c].1) && Real(devices[p.e.bdf], p.e, c);
    EndsBelow(lists, windows, c, p);
    UpperHalf(p.addr);
    WellAt(devices[p.e.bdf], p.e.index);
    ForMemory(devices[p.e.bdf], p.e.index);
  }

  lemma EndsBelow(lists: seq<seq<Entry>>, windows: seq<(nat, nat)>, c: nat, p: Placement)
    requires Fit(lists, windows) && c < WINDOWS && Inside(p, windows[c].0, windows[c].1)
    ensures p.addr < U64_SPAN && (c < 3 ==> p.addr < 0x1_0000_0000)
  {
    hide Aligned;
  }

  lemma ForMemory(f: Function, i: nat)
    requires Shaped(f) && i < BARS && Well(f, i) && !f.kinds[i].Empty?
    ensures WindowOf(f.bars[i]) == 3 ==> f.kinds[i].MemBar? && Is64(f.bars[i])
    ensures f.kinds[i].IoBar? ==> WindowOf(f.bars[i]) == 0
  {
    if f.kinds[i].IoBar? {
      SameIo(f.bars[i], f.bars[i], f.masks[i]);
    }
  }

  /** With such windows the allocator gives no last register an upper half, so it does not panic while placing. */
  lemma FitIsWithin(devices: Devices, lists: seq<seq<Entry>>, windows: seq<(nat, nat)>)
    requires AllWell(devices) && DevicesShaped(devices) && AllPassable(devices) && Listed(devices, lists)
             && Fit(lists, windows)
    ensures Within(Placed(lists, windows, WINDOWS))
  {
    hide Placed, Listed, Place, Headroom, Halves, Well, LogAt, Aligned, Is64;
    var ps := Placed(lists, windows, WINDOWS);
    forall k | 0 <= k < |ps| ensures !Exceeds(ps[k]) {
      AboveIsLast(devices, lists, windows, k);
      if ps[k].addr >= 0x1_0000_0000 { WideEnds(devices[ps[k].e.bdf], ps[k].e.index); }
    }
  }

  lemma WideEnds(f: Function, i: nat)
    requires Formed(f) && i < BARS && f.kinds[i].MemBar? && Is64(f.bars[i])
    ensures i + 1 < BARS
  {
    hide MemBits, IoBits, Covered, Is64;
    WellAt(f, i);
  }

  /** After assignment every placed register reads back its address and keeps its other bits: a port always, a memory
      register unless it has an upper half that held something and was left alone, the address being below 4 GiB. */
  lemma AssignmentReadsBack(devices: Devices, lists: seq<seq<Entry>>, windows: seq<(nat, nat)>, k: nat)
    requires AllFitted(devices) && AllWell(devices) && DevicesShaped(devices) && AllPassable(devices)
             && Listed(devices, lists) && Fit(lists, windows)
    requires k < |Placed(lists, windows, WINDOWS)| && PlacedKnown(devices, Placed(lists, windows, WINDOWS))
    ensures var ps := Placed(lists, windows, WINDOWS);
            var (f, i, a) := (devices[ps[k].e.bdf], ps[k].e.index, ps[k].addr);
            var g := Written(devices, ps)[ps[k].e.bdf];
            && SameOutside(f, g)
            && (f.kinds[i].IoBar? ==> PortBits(g.bars[i]) == Halves(a).lo)
            && (f.kinds[i].MemBar? ==>
                  (AddrOf(g, i) == Halves(a) <==>
                    !Is64(f.bars[i]) || a >= 0x1_0000_0000 || (i + 1 < BARS && f.bars[i + 1] == 0)))
  {
    hide Place, Placed, Pow2, LogAt, Aligned, Listed, Halves, Well, Headroom, Written, AddrOf, Assign, PortBits,
         SameOutside, Is64;
    var ps := Placed(lists, windows, WINDOWS);
    forall j | 0 <= j < |ps| ensures Proper(devices[ps[j].e.bdf], ps[j].e.index, Halves(ps[j].addr)) {
      AboveIsLast(devices, lists, windows, j);
    }
    AboveIsLast(devices, lists, windows, k);
    forall j | 0 <= j < |ps| && j != k ensures !SameRegister(ps[j].e, ps[k].e) {
      if j < k {
        PlacementsApart(devices, lists, windows, j, k);
      } else {
        PlacementsApart(devices, lists, windows, k, j);
      }
    }
    WrittenAlone(devices, ps, k);
    var f, i, a := devices[ps[k].e.bdf], ps[k].e.index, ps[k].addr;
    assert Fitted(f);
    if f.kinds[i].MemBar? {
      SpellsAssigned(f, i, a);
    } else if f.kinds[i].IoBar? {
      PortAssigned(f, i, a);
    }
  }

  /** A 64-bit register of 16 KiB that was last above 4 GiB. */
  function Moved(): Function {
    Function([MemBar, Empty, Empty, Empty, Empty, Empty], [0xC, 1, 0, 0, 0, 0],
             [0xFFFF_C000, 0xFFFF_FFFF, 0, 0, 0, 0], 0)
  }

  lemma MovedMasks()
    ensures Lo(MaskOf(14)) == 0xFFFF_C000 && Hi(MaskOf(14)) == 0xFFFF_FFFF
  {
    assert Ones(4) == 0xF;
    assert Ones(7) == 0x7F;
    assert Ones(10) == 0x3FF;
    assert Ones(13) == 0x1FFF;
    assert Ones(14) == 0x3FFF;
  }

  lemma MovedBits()
    ensures Is64(0xC) && !Is64(0) && !Is64(1) && WindowOf(0xC) == 3 && Prefetchable(0xC)
    ensures MemBits(0xC, 0xFFFF_C000) && Covered(1, 0xFFFF_FFFF) && Join(0xFFFF_C000, 0xFFFF_FFFF) != 0
  {
  }

  lemma StaysWide(lo: bv32)
    ensures Is64(MaskBits(0xC, lo, 0xFFFF_C000))
  {
  }

  lemma MovedFormed()
    ensures Formed(Moved()) && Passable(Moved())
  {
    hide Is64, MemBits, Covered;
    var f := Moved();
    MovedBits();
    forall i | 0 <= i < BARS ensures Well(f, i) {
    }
  }

  lemma MovedWell()
    ensures Fitted(Moved()) && Passable(Moved()) && LogAt(Moved(), 0) == 14 && MaskAt(Moved(), 0) != 0
  {
    hide Is64, TrailingZeros, MaskOf, Join, Lo, Hi, Formed, Passable, MemBits, Covered;
    MovedBits();
    MovedFormed();
    MovedMasks();
    MaskGivesSize(14);
  }

  /** It is the only entry, of the last window. */
  lemma MovedEntries(c: nat)
    ensures EntriesFrom(0, Moved(), 0, c) == if c == 3 then [Entry(0, 0, 14)] else []
  {
    hide Is64, IsIo, Join, LogAt, WindowOf, Fitted, Passable;
    MovedBits();
    MovedWell();
    EmptyNothing();
    var f := Moved();
    assert EntriesFrom(0, f, 5, c) == [];
    assert EntriesFrom(0, f, 4, c) == [];
    assert EntriesFrom(0, f, 3, c) == [];
    assert EntriesFrom(0, f, 2, c) == [];
  }

  /** In a 64-bit window below 4 GiB it is placed, keeps its old upper half, and does not read back its address. */
  lemma OldUpperHalfStays(devices: Devices, lists: seq<seq<Entry>>, windows: seq<(nat, nat)>)
    requires devices == map[0 := Moved()] && lists == [[], [], [], [Entry(0, 0, 14)]]
    requires windows == [(0, 0), (0, 0), (0, 0), (0xE000_0000, 0xE000_4000)]
    ensures DevicesShaped(devices) && Supported(devices) && Listed(devices, lists) && Fit(lists, windows)
    ensures Placed(lists, windows, WINDOWS) == [At(Entry(0, 0, 14), 0xE000_0000)]
    ensures var g := Written(devices, Placed(lists, windows, WINDOWS))[0];
            AddrOf(g, 0) != Halves(0xE000_0000) && AddrOf(g, 0).hi == 1 && Halves(0xE000_0000).hi == 0
  {
    hide Listed, Fit, Place, Placed, Halves, Supported, Is64, MaskBits;
    MovedListed(devices, lists);
    MovedPlaced(lists, windows);
    UpperHalf(0xE000_0000);
    StaysWide(Halves(0xE000_0000).lo);
    var ps := [At(Entry(0, 0, 14), 0xE000_0000)];
    assert ps[..0] == [];
  }

  lemma MovedListed(devices: Devices, lists: seq<seq<Entry>>)
    requires devices == map[0 := Moved()] && lists == [[], [], [], [Entry(0, 0, 14)]]
    ensures DevicesShaped(devices) && Supported(devices) && Listed(devices, lists)
  {
    hide EntriesFrom, Is64, IsIo, Join, WindowOf, LogAt, Prefetchable;
    MovedBits();
    EmptyNothing();
    assert Sound(Moved(), 4);
    assert Sound(Moved(), 2);
    forall c | 0 <= c < WINDOWS ensures Ordered(lists[c]) && SetOf(lists[c]) == ForWindow(devices, c) {
      MovedEntries(c);
      var es := EntriesFrom(0, devices[0], 0, c);
      assert es == lists[c];
      assert forall e :: e in ForWindow(devices, c) <==> e in es;
    }
  }

  lemma MovedPlaced(lists: seq<seq<Entry>>, windows: seq<(nat, nat)>)
    requires lists == [[], [], [], [Entry(0, 0, 14)]]
    requires windows == [(0, 0), (0, 0), (0, 0), (0xE000_0000, 0xE000_4000)]
    ensures Fit(lists, windows) && Placed(lists, windows, WINDOWS) == [At(Entry(0, 0, 14), 0xE000_0000)]
  {
    hide Aligned, AlignUp, Place;
    Page();
    PowStep(12);
    PowStep(13);
    AlignedIff(0xE000_0000, 14);
    AlignUpExact(0xE000_0000, 14);
    PlaceNothing(0, 0);
    PlaceStep(lists[3], 0xE000_0000, 0xE000_4000);
    PlaceNothing(0xE000_4000, 0xE000_4000);
    assert lists[3][1..] == [];
    assert Placed(lists, windows, 1) == [];
    assert Placed(lists, windows, 2) == [];
    assert Placed(lists, windows, 3) == [];
  }

  // ------------------------------------------------------------------- as steps of a run

  /** The functions in the order `keys`. */
  function Row(devices: Devices, keys: seq<nat>): seq<Function>
    requires forall k :: 0 <= k < |keys| ==> keys[k] in devices
  {
    seq(|keys|, k requires 0 <= k < |keys| => devices[keys[k]])
  }

  /** `keys` names every function once. */
  ghost predicate Names(devices: Devices, keys: seq<nat>) {
    && (forall k :: 0 <= k < |keys| ==> keys[k] in devices) && (forall b :: b in devices ==> b in keys)
    && (forall j, k :: 0 <= j < k < |keys| ==> keys[j] != keys[k])
  }

  ghost function Spot(keys: seq<nat>, b: nat): (k: nat)
    requires b in keys
    ensures k < |keys| && keys[k] == b
  {
    var k :| 0 <= k < |keys| && keys[k] == b;
    k
  }

  /** The assignment as steps of the machine. */
  ghost function Boot(keys: seq<nat>, ps: seq<Placement>): seq<Step>
    requires forall k :: 0 <= k < |ps| ==> ps[k].e.bdf in keys
  {
    if ps == [] then []
    else
      var n := |ps| - 1;
      Boot(keys, ps[..n]) + [BootAssign(Spot(keys, ps[n].e.bdf), ps[n].e.index, Halves(ps[n].addr))]
  }

  ghost predicate AllOff(devices: Devices) {
    forall b :: b in devices ==> devices[b].command == 0
  }

  lemma RowUpdate(devices: Devices, keys: seq<nat>, b: nat, g: Function)
    requires Names(devices, keys) && b in devices
    ensures Row(devices[b := g], keys) == Row(devices, keys)[Spot(keys, b) := g]
  {
    var k := Spot(keys, b);
    forall j | 0 <= j < |keys| && j != k ensures keys[j] != b {
      assert j < k || k < j;
    }
  }

  /** While the functions decode nothing, an assignment is a run of boot steps: what holds of every run holds of those
      that begin with it. */
  lemma {:induction false} AssignmentIsRun(devices: Devices, keys: seq<nat>, ps: seq<Placement>, w: World)
    requires DevicesShaped(devices) && AllWell(devices) && PlacedKnown(devices, ps) && AllProper(devices, ps)
    requires Names(devices, keys) && AllOff(devices) && w.devs == Row(devices, keys)
    ensures (forall k :: 0 <= k < |ps| ==> ps[k].e.bdf in keys) && Names(Written(devices, ps), keys)
    ensures Run(w, Boot(keys, ps)) == Some(w.(devs := Row(Written(devices, ps), keys))) && AllOff(Written(devices, ps))
    decreases |ps|
  {
    hide Well, Outside, Is64, Assign, Halves, MaskBits, Do, Proper, Row, AllOff;
    if ps == [] {
      assert w.devs == Row(Written(devices, ps), keys);
    } else {
      var n := |ps| - 1;
      AssignmentIsRun(devices, keys, ps[..n], w);
      WrittenKeeps(devices, ps[..n]);
      var d, p := Written(devices, ps[..n]), ps[n];
      var f, v := d[p.e.bdf], w.(devs := Row(d, keys));
      assert Proper(devices[p.e.bdf], p.e.index, Halves(p.addr));
      StillProper(devices[p.e.bdf], f, p.e.index, Halves(p.addr));
      BootStep(d, keys, p, v);
      RunSnoc(w, Boot(keys, ps[..n]), BootAssign(Spot(keys, p.e.bdf), p.e.index, Halves(p.addr)));
    }
  }

  lemma BootStep(d: Devices, keys: seq<nat>, p: Placement, v: World)
    requires DevicesShaped(d) && Names(d, keys) && AllOff(d) && p.e.bdf in d && p.e.index < BARS && p.e.bdf in keys
    requires v.devs == Row(d, keys) && Proper(d[p.e.bdf], p.e.index, Halves(p.addr))
    ensures var after := d[p.e.bdf := Assign(d[p.e.bdf], p.e.index, Halves(p.addr))];
            && Names(after, keys) && AllOff(after)
            && Do(v, BootAssign(Spot(keys, p.e.bdf), p.e.index, Halves(p.addr))) == Some(v.(devs := Row(after, keys)))
  {
    hide Outside, Is64, Assign, Halves, MaskBits, Do, Proper;
    var f := d[p.e.bdf];
    AssignOutside(f, p.e.index, Halves(p.addr));
    RowUpdate(d, keys, p.e.bdf, Assign(f, p.e.index, Halves(p.addr)));
    OneBoot(v, Spot(keys, p.e.bdf), p.e.index, Halves(p.addr));
  }

  lemma OneBoot(v: World, d: nat, i: nat, a: Addr)
    requires DevIn(v, d) && i < BARS && v.devs[d].command == 0 && Proper(v.devs[d], i, a)
    ensures Do(v, BootAssign(d, i, a)) == Some(v.(devs := v.devs[d := Assign(v.devs[d], i, a)]))
  {
    hide Assign, Is64;
  }
}
