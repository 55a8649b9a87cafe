/**
 Regions of the guest address space and the ranges inside them: which range is at each address,
 and what the buses must hold to agree.
 */
module MemoryMap {
  import opened Bytes
  import opened Wrappers
  import opened SlotIndex
  import opened FlatRam

  datatype Range =
    | RamRange(pages: Pages)
    | DevMem(pages: Pages)
    | Emulated(device: nat, length: nat)
    | Span(length: nat)
  {
    function Size(): nat {
      match this
      case RamRange(pages) => pages.size
      case DevMem(pages) => pages.size
      case Emulated(_, length) => length
      case Span(length) => length
    }
  }

  /** `entries` are the sizes shown to the guest; the ranges back their front part. */
  datatype Region = Region(ranges: seq<Range>, entries: seq<nat>)

  function Sum(sizes: seq<nat>): nat {
    if sizes == [] then 0 else sizes[0] + Sum(sizes[1..])
  }

  function Total(ranges: seq<Range>): nat {
    if ranges == [] then 0 else ranges[0].Size() + Total(ranges[1..])
  }

  function Validate(region: Region): Result<(), Error> {
    if Total(region.ranges) > Sum(region.entries)
        then Err(BackendTooBig(Total(region.ranges), Sum(region.entries))) else Ok(())
  }

  datatype Bus = Mmio | RamBus

  predicate On(bus: Bus, r: Range) {
    match bus
    case Mmio => r.Emulated?
    case RamBus => r.RamRange?
  }

  predicate Bussed(r: Range) {
    On(Mmio, r) || On(RamBus, r)
  }

  /** No range that goes on a bus is empty. */
  predicate NoEmpty(ranges: seq<Range>) {
    forall i :: 0 <= i < |ranges| ==> Bussed(ranges[i]) ==> ranges[i].Size() > 0
  }

  /** A region list as adding and removing leave it. */
  predicate GoodRegion(s: Slot<Region>) {
    s.size == Sum(s.backend.entries) && Validate(s.backend).Ok? && NoEmpty(s.backend.ranges)
  }

  predicate Good(regions: seq<Slot<Region>>) {
    Sorted(regions) && forall i :: 0 <= i < |regions| ==> GoodRegion(regions[i])
  }

  // ------------------------------------------------------------------------ lookups

  /** The range at `offset` from the start of the first one, and the offset into it. */
  function RangeIn(ranges: seq<Range>, offset: nat): Option<(Range, nat)> {
    if ranges == [] then None
    else if offset < ranges[0].Size() then Some((ranges[0], offset))
    else RangeIn(ranges[1..], offset - ranges[0].Size())
  }

  /** What the region list says about address `a`. */
  function RangeAt(regions: seq<Slot<Region>>, a: nat): Option<(Range, nat)>
    requires Sorted(regions)
  {
    match Search(regions, a)
    case None => None
    case Some(s) =>
      SearchRefines(regions, a);
      RangeIn(s.backend.ranges, a - s.addr)
  }

  /** The ranges of a region lie one after another from its start: `starts` says where each does. */
  ghost predicate LaidAt(addr: nat, ranges: seq<Range>, starts: seq<nat>) {
    && |starts| == |ranges| + 1 && starts[0] == addr
    && forall j :: 0 <= j < |ranges| ==> starts[j + 1] == starts[j] + ranges[j].Size()
  }

  lemma {:induction false} RangeInAt(ranges: seq<Range>, addr: nat, starts: seq<nat>, j: nat, x: nat)
    requires LaidAt(addr, ranges, starts) && j < |ranges| && starts[j] <= x < starts[j + 1]
    ensures addr <= x && RangeIn(ranges, x - addr) == Some((ranges[j], x - starts[j]))
    decreases |ranges|
  {
    if j > 0 {
      assert starts[1] == starts[0] + ranges[0].Size();
      assert LaidAt(starts[1], ranges[1..], starts[1..]);
      RangeInAt(ranges[1..], starts[1], starts[1..], j - 1, x);
    }
  }

  /** Address `x` of range `j` of a listed region is byte `x - starts[j]` of that range. */
  lemma RangeAtIs(regions: seq<Slot<Region>>, i: nat, starts: seq<nat>, j: nat, x: nat)
    requires Sorted(regions) && i < |regions| && LaidAt(regions[i].addr, regions[i].backend.ranges, starts)
    requires j < |regions[i].backend.ranges| && starts[j] <= x < starts[j + 1] && x < regions[i].addr + regions[i].size
    ensures RangeAt(regions, x) == Some((regions[i].backend.ranges[j], x - starts[j]))
  {
    hide Sorted, Search;
    RangeInAt(regions[i].backend.ranges, regions[i].addr, starts, j, x);
    HeldBy(regions, i, x);
  }

  /** The same, when the range is one for `bus`: its slot there. */
  function SlotFor(bus: Bus, regions: seq<Slot<Region>>, a: nat): Option<Slot<Range>>
    requires Sorted(regions)
  {
    match RangeAt(regions, a)
    case None => None
    case Some(at) =>
      OffsetSmall(regions, a);
      if On(bus, at.0) then Some(Slot(a - at.1, at.0.Size(), at.0)) else None
  }

  lemma {:induction false} RangeInSmall(ranges: seq<Range>, offset: nat)
    ensures RangeIn(ranges, offset).Some? ==> RangeIn(ranges, offset).value.1 <= offset
  {
    if ranges != [] && offset >= ranges[0].Size() {
      RangeInSmall(ranges[1..], offset - ranges[0].Size());
    }
  }

  lemma OffsetSmall(regions: seq<Slot<Region>>, a: nat)
    requires Sorted(regions)
    ensures RangeAt(regions, a).Some? ==> RangeAt(regions, a).value.1 <= a
  {
    SearchRefines(regions, a);
    if Search(regions, a).Some? {
      var s := Search(regions, a).value;
      RangeInSmall(s.backend.ranges, a - s.addr);
    }
  }

  // -------------------------------------------------------------- what a bus must hold

  function Pick(bus: Bus, addr: nat, ranges: seq<Range>): seq<Slot<Range>>
    decreases |ranges|
  {
    if ranges == [] then []
    else
      (if On(bus, ranges[0]) then [Slot(addr, ranges[0].Size(), ranges[0])] else [])
      + Pick(bus, addr + ranges[0].Size(), ranges[1..])
  }

  function Placed(bus: Bus, regions: seq<Slot<Region>>): seq<Slot<Range>> {
    if regions == [] then [] else Pick(bus, regions[0].addr, regions[0].backend.ranges) + Placed(bus, regions[1..])
  }

  lemma {:induction false} TotalSplit(a: seq<Range>, b: seq<Range>)
    ensures Total(a + b) == Total(a) + Total(b)
    decreases |a|
  {
    if a == [] {
      assert a + b == b;
    } else {
      assert (a + b)[1..] == a[1..] + b;
      TotalSplit(a[1..], b);
    }
  }

  lemma {:induction false} PickSplit(bus: Bus, addr: nat, a: seq<Range>, b: seq<Range>)
    ensures Pick(bus, addr, a + b) == Pick(bus, addr, a) + Pick(bus, addr + Total(a), b)
    decreases |a|
  {
    if a == [] {
      assert a + b == b;
    } else {
      assert (a + b)[1..] == a[1..] + b;
      PickSplit(bus, addr + a[0].Size(), a[1..], b);
    }
  }

  lemma {:induction false} PlacedSplit(bus: Bus, a: seq<Slot<Region>>, b: seq<Slot<Region>>)
    ensures Placed(bus, a + b) == Placed(bus, a) + Placed(bus, b)
    decreases |a|
  {
    if a == [] {
      assert a + b == b;
    } else {
      assert (a + b)[1..] == a[1..] + b;
      PlacedSplit(bus, a[1..], b);
    }
  }

  lemma PlacedOne(bus: Bus, s: Slot<Region>)
    ensures Placed(bus, [s]) == Pick(bus, s.addr, s.backend.ranges)
  {
    assert Placed(bus, [s][1..]) == [];
  }

  // ----------------------------------------------------------------------------- order

  ghost predicate Within(slots: seq<Slot<Range>>, lo: nat, hi: nat) {
    forall i :: 0 <= i < |slots| ==> lo <= slots[i].addr && slots[i].addr + slots[i].size <= hi
  }

  lemma Append<B>(a: seq<Slot<B>>, b: seq<Slot<B>>, x: nat)
    requires Sorted(a) && Sorted(b)
    requires forall i :: 0 <= i < |a| ==> a[i].addr + a[i].size <= x
    requires forall i :: 0 <= i < |b| ==> x <= b[i].addr
    ensures Sorted(a + b)
  {
  }

  lemma {:induction false} PickSorted(bus: Bus, addr: nat, ranges: seq<Range>)
    requires NoEmpty(ranges) && addr + Total(ranges) <= U64_SPAN
    ensures Sorted(Pick(bus, addr, ranges)) && Within(Pick(bus, addr, ranges), addr, addr + Total(ranges))
    decreases |ranges|
  {
    if ranges != [] {
      var next := addr + ranges[0].Size();
      PickSorted(bus, next, ranges[1..]);
      var head := if On(bus, ranges[0]) then [Slot(addr, ranges[0].Size(), ranges[0])] else [];
      assert Bussed(ranges[0]) ==> ranges[0].Size() > 0;
      assert Sorted(head);
      Append(head, Pick(bus, next, ranges[1..]), next);
    }
  }

  lemma {:induction false} PlacedSorted(bus: Bus, regions: seq<Slot<Region>>, lo: nat, hi: nat)
    requires Good(regions)
    requires forall i :: 0 <= i < |regions| ==> lo <= regions[i].addr && regions[i].addr + regions[i].size <= hi
    ensures Sorted(Placed(bus, regions)) && Within(Placed(bus, regions), lo, hi)
    decreases |regions|
  {
    if regions != [] {
      var s, rest := regions[0], regions[1..];
      assert GoodRegion(s) && Fits(s);
      var mid := s.addr + s.size;
      assert forall i :: 0 <= i < |rest| ==> rest[i] == regions[i + 1];
      PlacedSorted(bus, rest, mid, hi);
      PickSorted(bus, s.addr, s.backend.ranges);
      Append(Pick(bus, s.addr, s.backend.ranges), Placed(bus, rest), mid);
    }
  }

  // -------------------------------------------------------------------- agreement

  lemma {:induction false} PickHas(bus: Bus, addr: nat, ranges: seq<Range>, offset: nat)
    requires RangeIn(ranges, offset).Some? && On(bus, RangeIn(ranges, offset).value.0)
    ensures var (r, o) := RangeIn(ranges, offset).value;
            o <= offset && o < r.Size() && Slot(addr + offset - o, r.Size(), r) in Pick(bus, addr, ranges)
    decreases |ranges|
  {
    if offset >= ranges[0].Size() {
      PickHas(bus, addr + ranges[0].Size(), ranges[1..], offset - ranges[0].Size());
    }
  }

  /** A slot picked from the ranges that holds an address is the one the ranges have there. */
  lemma {:induction false} PickOnly(bus: Bus, addr: nat, ranges: seq<Range>, t: Slot<Range>, a: nat)
    requires t in Pick(bus, addr, ranges) && t.Holds(a)
    ensures addr <= t.addr && RangeIn(ranges, a - addr) == Some((t.backend, a - t.addr)) && On(bus, t.backend)
    ensures t.size == t.backend.Size()
    decreases |ranges|
  {
    var rest := Pick(bus, addr + ranges[0].Size(), ranges[1..]);
    if t in rest {
      PickOnly(bus, addr + ranges[0].Size(), ranges[1..], t, a);
    }
  }

  lemma {:induction false} PlacedFrom(bus: Bus, regions: seq<Slot<Region>>, t: Slot<Range>) returns (i: nat)
    requires t in Placed(bus, regions)
    ensures i < |regions| && t in Pick(bus, regions[i].addr, regions[i].backend.ranges)
    decreases |regions|
  {
    if t in Pick(bus, regions[0].addr, regions[0].backend.ranges) {
      i := 0;
    } else {
      var j := PlacedFrom(bus, regions[1..], t);
      i := j + 1;
    }
  }

  lemma {:induction false} PlacedHas(bus: Bus, regions: seq<Slot<Region>>, i: nat, t: Slot<Range>)
    requires i < |regions| && t in Pick(bus, regions[i].addr, regions[i].backend.ranges)
    ensures t in Placed(bus, regions)
    decreases |regions|
  {
    if i > 0 {
      PlacedHas(bus, regions[1..], i - 1, t);
    }
  }

  lemma GoodSorted(bus: Bus, regions: seq<Slot<Region>>)
    requires Good(regions)
    ensures Sorted(Placed(bus, regions))
  {
    forall i | 0 <= i < |regions| ensures regions[i].addr + regions[i].size <= U64_SPAN {
      assert Fits(regions[i]);
    }
    PlacedSorted(bus, regions, 0, U64_SPAN);
  }

  lemma PlacedIsSlot(bus: Bus, regions: seq<Slot<Region>>, a: nat, t: Slot<Range>)
    requires Good(regions) && t in Placed(bus, regions) && t.Holds(a)
    ensures SlotFor(bus, regions, a) == Some(t)
  {
    hide Sorted, Search, Placed, Pick;
    var i := PlacedFrom(bus, regions, t);
    PickOnly(bus, regions[i].addr, regions[i].backend.ranges, t, a);
    PickEnds(bus, regions, i, t);
    HeldBy(regions, i, a);
  }

  lemma SlotIsPlaced(bus: Bus, regions: seq<Slot<Region>>, a: nat)
    requires Good(regions) && SlotFor(bus, regions, a).Some?
    ensures SlotFor(bus, regions, a).value in Placed(bus, regions) && SlotFor(bus, regions, a).value.Holds(a)
  {
    hide Sorted, Search, Placed, Pick;
    SearchRefines(regions, a);
    var s := Search(regions, a).value;
    var i :| 0 <= i < |regions| && regions[i] == s;
    PickHas(bus, s.addr, s.backend.ranges, a - s.addr);
    PlacedHas(bus, regions, i, SlotFor(bus, regions, a).value);
  }

  /** At every address a bus that holds exactly the placed ranges finds what the region list says. */
  lemma BusAgrees(bus: Bus, regions: seq<Slot<Region>>, a: nat)
    requires Good(regions)
    ensures Sorted(Placed(bus, regions)) && Search(Placed(bus, regions), a) == SlotFor(bus, regions, a)
  {
    GoodSorted(bus, regions);
    hide Good, Sorted, Search, Placed, SlotFor;
    var slots := Placed(bus, regions);
    SearchRefines(slots, a);
    if SlotFor(bus, regions, a).Some? {
      SlotIsPlaced(bus, regions, a);
      assert SlotFor(bus, regions, a).value in SetOf(slots);
    }
    if Search(slots, a).Some? {
      PlacedIsSlot(bus, regions, a, Search(slots, a).value);
    }
  }

  lemma PickEnds(bus: Bus, regions: seq<Slot<Region>>, i: nat, t: Slot<Range>)
    requires Good(regions) && i < |regions| && t in Pick(bus, regions[i].addr, regions[i].backend.ranges)
    ensures regions[i].addr <= t.addr && t.addr + t.size <= regions[i].addr + regions[i].size
  {
    assert GoodRegion(regions[i]) && Fits(regions[i]);
    PickSorted(bus, regions[i].addr, regions[i].backend.ranges);
  }

  lemma HeldBy(regions: seq<Slot<Region>>, i: nat, a: nat)
    requires Sorted(regions) && i < |regions| && regions[i].Holds(a)
    ensures Search(regions, a) == Some(regions[i])
  {
    hide Sorted, Search;
    SearchRefines(regions, a);
    assert regions[i] in SetOf(regions);
  }

  // ------------------------------------------------------------------ the RAM bus as RAM

  function ViewSlot(s: Slot<Range>): Slot<Pages> {
    Slot(s.addr, s.size, if s.backend.RamRange? then s.backend.pages else Pages(0, 0))
  }

  /** The RAM bus as the slots of host pages that reads and writes go through. */
  function RamView(slots: seq<Slot<Range>>): (v: RamSlots)
    ensures |v| == |slots| && forall i :: 0 <= i < |slots| ==> v[i] == ViewSlot(slots[i])
  {
    seq(|slots|, i requires 0 <= i < |slots| => ViewSlot(slots[i]))
  }

  lemma ViewFinds(slots: seq<Slot<Range>>, a: nat)
    requires Sorted(slots)
    ensures Sorted(RamView(slots))
    ensures Search(RamView(slots), a) == if Search(slots, a).Some? then Some(ViewSlot(Search(slots, a).value)) else None
  {
    var v := RamView(slots);
    assert Sorted(v) by {
      forall i | 0 <= i < |v| ensures Fits(v[i]) {
        assert Fits(slots[i]);
      }
    }
    PositionIs(v, a, Position(slots, a));
  }

  lemma GoodIsSorted(regions: seq<Slot<Region>>)
    requires Good(regions)
    ensures Sorted(regions)
  {
  }

  /** Guest RAM reaches, at every address, the host byte of the pages that the region list has there. */
  lemma RamAgrees(regions: seq<Slot<Region>>, a: nat)
    requires Good(regions)
    ensures Sorted(RamView(Placed(RamBus, regions)))
    ensures var at := RangeAt(regions, a);
            HostAt(RamView(Placed(RamBus, regions)), a)
            == if at.Some? && at.value.0.RamRange? then Some(at.value.0.pages.host + at.value.1) else None
  {
    hide Good, Sorted, Placed, Search, RangeAt, RamView;
    BusAgrees(RamBus, regions, a);
    assert Sorted(regions) by {
      GoodIsSorted(regions);
    }
    ViewFinds(Placed(RamBus, regions), a);
    OffsetSmall(regions, a);
  }
}
