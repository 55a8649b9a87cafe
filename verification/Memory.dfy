/** The guest's memory: a list of regions and the buses kept in step with it. */
module Memory {
  import opened Bytes
  import opened Wrappers
  import opened SlotIndex
  import opened MemoryMap

  // ------------------------------------------------------------------ one bus at a time

  lemma InsertBetween<B>(a: seq<Slot<B>>, b: seq<Slot<B>>, s: Slot<B>)
    requires Sorted(a + b) && Fits(s)
    requires forall i :: 0 <= i < |a| ==> a[i].addr + a[i].size <= s.addr
    requires forall i :: 0 <= i < |b| ==> s.addr + s.size <= b[i].addr
    ensures Insert(a + b, s.addr, s.size, s.backend) == Ok(a + [s] + b)
  {
    var slots := a + b;
    forall k | 0 <= k < |a| ensures slots[k].addr < s.addr {
      assert Fits(slots[k]) && slots[k] == a[k];
    }
    forall k | |a| <= k < |slots| ensures slots[k].addr >= s.addr {
      assert slots[k] == b[k - |a|];
    }
    PositionIs(slots, s.addr, |a|);
    assert slots[..|a|] == a && slots[|a|..] == b;
  }

  lemma DeleteBetween<B>(a: seq<Slot<B>>, b: seq<Slot<B>>, s: Slot<B>)
    requires Sorted(a + [s] + b)
    ensures Delete(a + [s] + b, s.addr) == Ok((a + b, s.backend))
  {
    var slots := a + [s] + b;
    assert slots[|a|] == s;
    forall k | 0 <= k < |a| ensures slots[k].addr < s.addr {
      assert Fits(slots[k]) && slots[k].addr + slots[k].size <= slots[|a|].addr;
    }
    forall k | |a| <= k < |slots| ensures slots[k].addr >= s.addr {
      assert k > |a| ==> slots[|a|].addr + slots[|a|].size <= slots[k].addr;
    }
    PositionIs(slots, s.addr, |a|);
    assert slots[..|a|] == a && slots[|a| + 1..] == b;
  }

  /** Regions `left` and `right` leave room for a valid region in slot `s`. */
  ghost predicate Room(left: seq<Slot<Region>>, right: seq<Slot<Region>>, s: Slot<Region>) {
    && Good(left) && Good(right) && Fits(s) && s.size == Sum(s.backend.entries) && Validate(s.backend).Ok?
    && (forall i :: 0 <= i < |left| ==> left[i].addr + left[i].size <= s.addr)
    && (forall i :: 0 <= i < |right| ==> s.addr + s.size <= right[i].addr)
  }

  /** A bus with the first `k` ranges of the region in slot `s` added. */
  ghost function Partly(bus: Bus, left: seq<Slot<Region>>, right: seq<Slot<Region>>, s: Slot<Region>,
      k: nat): seq<Slot<Range>>
    requires k <= |s.backend.ranges|
  {
    Placed(bus, left) + Pick(bus, s.addr, s.backend.ranges[..k]) + Placed(bus, right)
  }

  /** A bus from which the first `k` ranges are gone again. */
  ghost function Rest(bus: Bus, left: seq<Slot<Region>>, right: seq<Slot<Region>>, s: Slot<Region>,
      k: nat): seq<Slot<Range>>
    requires k <= |s.backend.ranges|
  {
    Placed(bus, left) + Pick(bus, s.addr + Total(s.backend.ranges[..k]), s.backend.ranges[k..]) + Placed(bus, right)
  }

  lemma RangeFits(s: Slot<Region>, k: nat)
    requires Validate(s.backend).Ok? && k < |s.backend.ranges| && s.size == Sum(s.backend.entries)
    ensures var ranges := s.backend.ranges;
            Total(ranges[..k + 1]) == Total(ranges[..k]) + ranges[k].Size() && Total(ranges[..k + 1]) <= s.size
  {
    var ranges := s.backend.ranges;
    assert ranges[..k + 1] == ranges[..k] + [ranges[k]] && ranges == ranges[..k + 1] + ranges[k + 1..];
    TotalSplit(ranges[..k], [ranges[k]]);
    TotalSplit(ranges[..k + 1], ranges[k + 1..]);
  }

  lemma PartSorted(bus: Bus, left: seq<Slot<Region>>, right: seq<Slot<Region>>, s: Slot<Region>, from: nat,
      ranges: seq<Range>)
    requires Room(left, right, s) && NoEmpty(ranges) && s.addr <= from && from + Total(ranges) <= s.addr + s.size
    ensures Sorted(Placed(bus, left) + Pick(bus, from, ranges) + Placed(bus, right))
    ensures Within(Placed(bus, left), 0, s.addr) && Within(Pick(bus, from, ranges), from, from + Total(ranges))
    ensures Within(Placed(bus, right), s.addr + s.size, U64_SPAN)
  {
    hide Sorted, Pick, Placed, Total;
    PlacedSorted(bus, left, 0, s.addr);
    forall i | 0 <= i < |right| ensures right[i].addr + right[i].size <= U64_SPAN {
      SortedFits(right, i);
    }
    PlacedSorted(bus, right, s.addr + s.size, U64_SPAN);
    PickSorted(bus, from, ranges);
    Append(Placed(bus, left), Pick(bus, from, ranges), s.addr);
    Append(Placed(bus, left) + Pick(bus, from, ranges), Placed(bus, right), s.addr + s.size);
  }

  lemma SortedFits<B>(slots: seq<Slot<B>>, i: nat)
    requires Sorted(slots) && i < |slots|
    ensures Fits(slots[i])
  {
  }

  lemma PickStep(bus: Bus, addr: nat, ranges: seq<Range>, k: nat)
    requires k < |ranges|
    ensures Pick(bus, addr, ranges[..k + 1])
            == Pick(bus, addr, ranges[..k])
               + (if On(bus, ranges[k]) then [Slot(addr + Total(ranges[..k]), ranges[k].Size(), ranges[k])] else [])
  {
    var r := [ranges[k]];
    assert ranges[..k + 1] == ranges[..k] + r;
    PickSplit(bus, addr, ranges[..k], r);
    assert r[1..] == [];
  }

  /** Adding one range to its bus never overlaps. */
  lemma AddRange(bus: Bus, left: seq<Slot<Region>>, right: seq<Slot<Region>>, s: Slot<Region>, k: nat)
    requires Room(left, right, s) && k < |s.backend.ranges| && NoEmpty(s.backend.ranges[..k])
    ensures Sorted(Partly(bus, left, right, s, k))
    ensures var r := s.backend.ranges[k];
            var added := Insert(Partly(bus, left, right, s, k), s.addr + Total(s.backend.ranges[..k]), r.Size(), r);
            On(bus, r) ==> added == if r.Size() == 0 then Err(ZeroSizedSlot) else Ok(Partly(bus, left, right, s, k + 1))
    ensures !On(bus, s.backend.ranges[k]) ==> Partly(bus, left, right, s, k + 1) == Partly(bus, left, right, s, k)
  {
    hide Sorted, Insert, Placed, Pick, Total, Room, NoEmpty, Validate, On, Within;
    var ranges, r := s.backend.ranges, s.backend.ranges[k];
    RoomFits(left, right, s);
    RangeFits(s, k);
    PickStep(bus, s.addr, ranges, k);
    PartSorted(bus, left, right, s, s.addr, ranges[..k]);
    if On(bus, r) {
      if r.Size() == 0 {
        InsertNothing(Partly(bus, left, right, s, k), s.addr + Total(ranges[..k]), r);
      } else {
        AddFits(Placed(bus, left), Pick(bus, s.addr, ranges[..k]), Placed(bus, right),
                Slot(s.addr + Total(ranges[..k]), r.Size(), r), s.addr, s.addr + s.size);
      }
    }
  }

  lemma InsertNothing<B>(slots: seq<Slot<B>>, addr: nat, backend: B)
    requires Sorted(slots)
    ensures Insert(slots, addr, 0, backend) == Err(ZeroSizedSlot)
  {
  }

  lemma AddFits(before: seq<Slot<Range>>, part: seq<Slot<Range>>, after: seq<Slot<Range>>, t: Slot<Range>, lo: nat,
      hi: nat)
    requires Sorted(before + part + after) && t.size > 0 && lo <= t.addr && t.addr + t.size <= hi <= U64_SPAN
    requires Within(before, 0, lo) && Within(part, lo, t.addr) && Within(after, hi, U64_SPAN)
    ensures Insert(before + part + after, t.addr, t.size, t.backend) == Ok(before + (part + [t]) + after)
  {
    hide Sorted, Insert;
    InsertBetween(before + part, after, t);
    assert before + part + [t] + after == before + (part + [t]) + after;
  }

  lemma RoomFits(left: seq<Slot<Region>>, right: seq<Slot<Region>>, s: Slot<Region>)
    requires Room(left, right, s)
    ensures s.addr + s.size <= U64_SPAN && s.size == Sum(s.backend.entries) && Validate(s.backend).Ok?
  {
  }

  /** Removing one range from its bus always finds it. */
  lemma RemoveRange(bus: Bus, left: seq<Slot<Region>>, right: seq<Slot<Region>>, s: Slot<Region>, k: nat)
    requires Room(left, right, s) && k < |s.backend.ranges| && NoEmpty(s.backend.ranges)
    ensures Sorted(Rest(bus, left, right, s, k))
    ensures var r := s.backend.ranges[k];
            var removed := Delete(Rest(bus, left, right, s, k), s.addr + Total(s.backend.ranges[..k]));
            On(bus, r) ==> removed == Ok((Rest(bus, left, right, s, k + 1), r))
    ensures !On(bus, s.backend.ranges[k]) ==> Rest(bus, left, right, s, k + 1) == Rest(bus, left, right, s, k)
  {
    hide Sorted, Delete, Placed, Total, Room, NoEmpty, Validate, On, Within;
    var ranges, r := s.backend.ranges, s.backend.ranges[k];
    RoomFits(left, right, s);
    RangeFits(s, k);
    var from := s.addr + Total(ranges[..k]);
    TailFits(s, k);
    PartSorted(bus, left, right, s, from, ranges[k..]);
    assert ranges[k..][1..] == ranges[k + 1..];
    if On(bus, r) {
      RemoveFits(Placed(bus, left), Pick(bus, from + r.Size(), ranges[k + 1..]), Placed(bus, right),
          Slot(from, r.Size(), r));
    }
  }

  lemma TailFits(s: Slot<Region>, k: nat)
    requires Validate(s.backend).Ok? && k < |s.backend.ranges| && s.size == Sum(s.backend.entries)
             && NoEmpty(s.backend.ranges)
    ensures Total(s.backend.ranges[..k]) + Total(s.backend.ranges[k..]) <= s.size && NoEmpty(s.backend.ranges[k..])
  {
    assert s.backend.ranges == s.backend.ranges[..k] + s.backend.ranges[k..];
    TotalSplit(s.backend.ranges[..k], s.backend.ranges[k..]);
  }

  lemma RemoveFits(before: seq<Slot<Range>>, part: seq<Slot<Range>>, after: seq<Slot<Range>>, t: Slot<Range>)
    requires Sorted(before + ([t] + part) + after)
    ensures Delete(before + ([t] + part) + after, t.addr) == Ok((before + part + after, t.backend))
  {
    hide Sorted, Delete;
    assert before + ([t] + part) + after == before + [t] + (part + after);
    DeleteBetween(before, part + after, t);
    assert before + (part + after) == before + part + after;
  }

  // ---------------------------------------------------------------------- the object

  /** What `validate` and the region list make of a new region. */
  function Admit(regions: seq<Slot<Region>>, addr: nat, region: Region): Result<seq<Slot<Region>>, Error>
    requires Sorted(regions)
  {
    match Validate(region)
    case Err(e) => Err(e)
    case Ok(_) => Insert(regions, addr, Sum(region.entries), region)
  }

  lemma AdmitRoom(regions: seq<Slot<Region>>, addr: nat, region: Region)
    requires Good(regions) && Admit(regions, addr, region).Ok?
    ensures var i, s := Position(regions, addr), Slot(addr, Sum(region.entries), region);
            Room(regions[..i], regions[i..], s) && Admit(regions, addr, region).value == regions[..i] + [s]
                + regions[i..]
  {
    hide Sorted, GoodRegion;
    var i := Position(regions, addr);
    Around(regions, i);
    GoodPart(regions, 0, i);
    GoodPart(regions, i, |regions|);
    assert regions[0..i] == regions[..i] && regions[i..|regions|] == regions[i..];
  }

  lemma GoodPart(regions: seq<Slot<Region>>, i: nat, j: nat)
    requires Good(regions) && i <= j <= |regions|
    ensures Good(regions[i..j])
  {
  }

  /** With the region's ranges in place the buses hold what the longer list says. */
  lemma Whole(bus: Bus, left: seq<Slot<Region>>, right: seq<Slot<Region>>, s: Slot<Region>)
    ensures Placed(bus, left + [s] + right)
            == Placed(bus, left) + Pick(bus, s.addr, s.backend.ranges) + Placed(bus, right)
  {
    PlacedSplit(bus, left + [s], right);
    PlacedSplit(bus, left, [s]);
    PlacedOne(bus, s);
  }

  lemma GoodWhole(left: seq<Slot<Region>>, right: seq<Slot<Region>>, s: Slot<Region>)
    requires Room(left, right, s) && NoEmpty(s.backend.ranges)
    ensures Good(left + [s] + right)
  {
    Append(left, [s], s.addr);
    Append(left + [s], right, s.addr + s.size);
    assert GoodRegion(s);
  }

  lemma DeleteRoom(regions: seq<Slot<Region>>, i: nat)
    requires Good(regions) && i < |regions|
    ensures Room(regions[..i], regions[i + 1..], regions[i]) && NoEmpty(regions[i].backend.ranges)
    ensures Good(regions[..i] + regions[i + 1..])
    ensures regions == regions[..i] + [regions[i]] + regions[i + 1..]
  {
    assert GoodRegion(regions[i]) && Fits(regions[i]);
    GoodPart(regions, 0, i);
    GoodPart(regions, i + 1, |regions|);
    assert regions[0..i] == regions[..i] && regions[i + 1..|regions|] == regions[i + 1..];
  }

  class Memory {
    var regions: seq<Slot<Region>>
    var mmio: seq<Slot<Range>>
    var ram: seq<Slot<Range>>
    var ioRegions: seq<Slot<nat>>
    var io: seq<Slot<nat>>

    ghost predicate Valid()
      reads this
    {
      && Good(regions) && mmio == Placed(Mmio, regions) && ram == Placed(RamBus, regions)
      && Sorted(ioRegions) && io == ioRegions && forall i :: 0 <= i < |ioRegions| ==> ioRegions[i].addr < 0x1_0000
    }

    constructor ()
      ensures Valid() && regions == [] && ioRegions == []
    {
      regions, mmio, ram, ioRegions, io := [], [], [], [], [];
    }

    /** `add_region`: an admitted region fails only on an empty range, never on a bus that is taken. */
    method AddRegion(addr: nat, region: Region) returns (r: Result<(), Error>)
      requires Valid()
      modifies this`regions, this`mmio, this`ram
      ensures match Admit(old(regions), addr, region)
              case Err(e) => r == Err(e) && Valid() && regions == old(regions)
              case Ok(list) =>
                regions == list && if NoEmpty(region.ranges) then r == Ok(()) && Valid() else r == Err(ZeroSizedSlot)
    {
      hide Sorted, Insert, Placed, Pick, Total, Room, Partly, GoodRegion, NoEmpty;
      var valid := Validate(region);
      if valid.Err? {
        return Err(valid.error);
      }
      var added := Insert(regions, addr, Sum(region.entries), region);
      if added.Err? {
        return Err(added.error);
      }
      ghost var i, s := Position(regions, addr), Slot(addr, Sum(region.entries), region);
      ghost var left, right := regions[..i], regions[i..];
      AdmitRoom(regions, addr, region);
      StartPartly(left, right, s);
      assert left + right == regions;
      regions := added.value;
      var ranges, offset := region.ranges, 0;
      for k := 0 to |ranges|
        invariant regions == added.value && offset == Total(ranges[..k]) && NoEmpty(ranges[..k])
        invariant mmio == Partly(Mmio, left, right, s, k) && ram == Partly(RamBus, left, right, s, k)
      {
        AddRange(Mmio, left, right, s, k);
        AddRange(RamBus, left, right, s, k);
        RangeFits(s, k);
        OneMore(ranges, k);
        match ranges[k] {
          case Emulated(_, _) =>
            var onBus := Insert(mmio, addr + offset, ranges[k].Size(), ranges[k]);
            if onBus.Err? {
              return Err(onBus.error);
            }
            mmio := onBus.value;
          case RamRange(_) =>
            var onBus := Insert(ram, addr + offset, ranges[k].Size(), ranges[k]);
            if onBus.Err? {
              return Err(onBus.error);
            }
            ram := onBus.value;
          case _ =>
        }
        offset := offset + ranges[k].Size();
      }
      EndPartly(left, right, s);
      return Ok(());
    }

    /** `unmap_region`: every range of a listed region comes off its bus. */
    method UnmapRegion(addr: nat, region: Region, ghost left: seq<Slot<Region>>, ghost right: seq<Slot<Region>>)
      returns (r: Result<(), Error>)
      requires Room(left, right, Slot(addr, Sum(region.entries), region)) && NoEmpty(region.ranges)
      requires mmio == Placed(Mmio, left) + Pick(Mmio, addr, region.ranges) + Placed(Mmio, right)
      requires ram == Placed(RamBus, left) + Pick(RamBus, addr, region.ranges) + Placed(RamBus, right)
      modifies this`mmio, this`ram
      ensures r == Ok(()) && mmio == Placed(Mmio, left) + Placed(Mmio, right)
              && ram == Placed(RamBus, left) + Placed(RamBus, right)
    {
      hide Sorted, Delete, Placed, Pick, Total, Room, Rest, NoEmpty;
      ghost var s := Slot(addr, Sum(region.entries), region);
      StartRest(left, right, s);
      var ranges, offset := region.ranges, 0;
      for k := 0 to |ranges|
        invariant offset == Total(ranges[..k])
        invariant mmio == Rest(Mmio, left, right, s, k) && ram == Rest(RamBus, left, right, s, k)
      {
        RemoveRange(Mmio, left, right, s, k);
        RemoveRange(RamBus, left, right, s, k);
        RoomRange(left, right, s, k);
        match ranges[k] {
          case Emulated(_, _) =>
            var off := Delete(mmio, addr + offset);
            mmio := off.value.0;
          case RamRange(_) =>
            var off := Delete(ram, addr + offset);
            ram := off.value.0;
          case _ =>
        }
        offset := offset + ranges[k].Size();
      }
      EndRest(left, right, s);
      return Ok(());
    }

    /** `remove_region`. */
    method RemoveRegion(addr: nat) returns (r: Result<Region, Error>)
      requires Valid()
      modifies this`regions, this`mmio, this`ram
      ensures Valid()
      ensures match Delete(old(regions), addr)
              case Ok(v) => regions == v.0 && r == Ok(v.1)
              case Err(e) => regions == old(regions) && r == Err(e)
    {
      var removed := Delete(regions, addr);
      if removed.Err? {
        return Err(removed.error);
      }
      ghost var i := Position(regions, addr);
      hide Good, Sorted, Delete, Placed, Pick, Total, Room, NoEmpty;
      DeleteRoom(regions, i);
      SlotWhole(regions, i);
      ghost var left, right := regions[..i], regions[i + 1..];
      Whole(Mmio, left, right, regions[i]);
      Whole(RamBus, left, right, regions[i]);
      PlacedSplit(Mmio, left, right);
      PlacedSplit(RamBus, left, right);
      regions := removed.value.0;
      var unmapped := UnmapRegion(addr, removed.value.1, left, right);
      return Ok(removed.value.1);
    }

    /** `clear`: every region and every port goes, and nothing fails on the way. */
    method Clear() returns (r: Result<(), Error>)
      requires Valid()
      modifies this
      ensures r == Ok(()) && Valid() && regions == [] && ioRegions == []
    {
      hide Good, Sorted, Placed, Pick, Room, NoEmpty, Delete;
      var all := regions;
      regions := [];
      assert all[0..] == all;
      for j := 0 to |all|
        invariant regions == [] && ioRegions == old(ioRegions) && io == ioRegions
        invariant Good(all[j..]) && mmio == Placed(Mmio, all[j..]) && ram == Placed(RamBus, all[j..])
      {
        HeadRegion(all, j);
        var unmapped := UnmapRegion(all[j].addr, all[j].backend, [], all[j + 1..]);
        NoLeft(all[j + 1..]);
      }
      NothingPlaced(all);
      var ports := ioRegions;
      ioRegions := [];
      assert ports[0..] == ports;
      for j := 0 to |ports|
        invariant regions == [] && ioRegions == [] && mmio == [] && ram == []
        invariant Sorted(ports[j..]) && io == ports[j..]
      {
        assert ports[j..] == [] + [ports[j]] + ports[j + 1..];
        DeleteBetween([], ports[j + 1..], ports[j]);
        assert ports[j].addr % 0x1_0000 == ports[j].addr;
        var off := Delete(io, ports[j].addr % 0x1_0000);
        io := off.value.0;
        SortedTail(ports, j);
      }
      Empty();
      return Ok(());
    }

    /** `add_io_region`. */
    method AddIoRegion(port: nat, device: nat, length: nat) returns (r: Result<(), Error>)
      requires Valid() && port < 0x1_0000
      modifies this`ioRegions, this`io
      ensures Valid()
      ensures match Insert(old(ioRegions), port, length, device)
              case Ok(v) => ioRegions == v && r == Ok(())
              case Err(e) => ioRegions == old(ioRegions) && r == Err(e)
    {
      InsertRefines(ioRegions, port, length, device);
      var added := Insert(ioRegions, port, length, device);
      if added.Err? {
        return Err(added.error);
      }
      ioRegions := added.value;
      var onBus := Insert(io, port, length, device);
      io := onBus.value;
      return Ok(());
    }

    /** `remove_io_region`. */
    method RemoveIoRegion(port: nat) returns (r: Result<nat, Error>)
      requires Valid() && port < 0x1_0000
      modifies this`ioRegions, this`io
      ensures Valid()
      ensures match Delete(old(ioRegions), port)
              case Ok(v) => ioRegions == v.0 && r == Ok(v.1)
              case Err(e) => ioRegions == old(ioRegions) && r == Err(e)
    {
      DeleteRefines(ioRegions, port);
      var removed := Delete(ioRegions, port);
      if removed.Err? {
        return Err(removed.error);
      }
      ioRegions := removed.value.0;
      var off := Delete(io, port);
      io := off.value.0;
      return Ok(removed.value.1);
    }

    /** Where `handle_mmio` sends an access: the device and the offset in it that the region list gives. */
    method Dispatch(a: nat) returns (target: Option<(nat, nat)>)
      requires Valid()
      ensures var at := RangeAt(regions, a);
              target == if at.Some? && at.value.0.Emulated? then Some((at.value.0.device, at.value.1)) else None
    {
      BusAgrees(Mmio, regions, a);
      OffsetSmall(regions, a);
      SearchRefines(mmio, a);
      match Search(mmio, a)
      case None => return None;
      case Some(s) => return Some((s.backend.device, a - s.addr));
    }
  }

  lemma StartPartly(left: seq<Slot<Region>>, right: seq<Slot<Region>>, s: Slot<Region>)
    ensures Total(s.backend.ranges[..0]) == 0 && NoEmpty(s.backend.ranges[..0])
    ensures forall bus :: Partly(bus, left, right, s, 0) == Placed(bus, left + right)
  {
    forall bus ensures Partly(bus, left, right, s, 0) == Placed(bus, left + right) {
      PlacedSplit(bus, left, right);
    }
  }

  lemma EndPartly(left: seq<Slot<Region>>, right: seq<Slot<Region>>, s: Slot<Region>)
    requires Room(left, right, s) && NoEmpty(s.backend.ranges[..|s.backend.ranges|])
    ensures NoEmpty(s.backend.ranges) && Good(left + [s] + right)
    ensures forall bus :: Partly(bus, left, right, s, |s.backend.ranges|) == Placed(bus, left + [s] + right)
  {
    assert s.backend.ranges[..|s.backend.ranges|] == s.backend.ranges;
    GoodWhole(left, right, s);
    forall bus ensures Partly(bus, left, right, s, |s.backend.ranges|) == Placed(bus, left + [s] + right) {
      Whole(bus, left, right, s);
    }
  }

  lemma OneMore(ranges: seq<Range>, k: nat)
    requires k < |ranges| && NoEmpty(ranges[..k])
    ensures NoEmpty(ranges[..k + 1]) <==> Bussed(ranges[k]) ==> ranges[k].Size() > 0
    ensures !NoEmpty(ranges[..k + 1]) ==> !NoEmpty(ranges)
  {
    assert ranges[..k + 1][k] == ranges[k];
  }

  lemma StartRest(left: seq<Slot<Region>>, right: seq<Slot<Region>>, s: Slot<Region>)
    ensures Total(s.backend.ranges[..0]) == 0
    ensures forall bus :: Rest(bus, left, right, s, 0)
                          == Placed(bus, left) + Pick(bus, s.addr, s.backend.ranges) + Placed(bus, right)
  {
    assert s.backend.ranges[0..] == s.backend.ranges;
  }

  lemma EndRest(left: seq<Slot<Region>>, right: seq<Slot<Region>>, s: Slot<Region>)
    ensures forall bus :: Rest(bus, left, right, s, |s.backend.ranges|) == Placed(bus, left) + Placed(bus, right)
  {
  }

  lemma RoomRange(left: seq<Slot<Region>>, right: seq<Slot<Region>>, s: Slot<Region>, k: nat)
    requires Room(left, right, s) && k < |s.backend.ranges|
    ensures Total(s.backend.ranges[..k + 1]) == Total(s.backend.ranges[..k]) + s.backend.ranges[k].Size()
  {
    RangeFits(s, k);
  }

  lemma SlotWhole(regions: seq<Slot<Region>>, i: nat)
    requires Good(regions) && i < |regions|
    ensures regions[i] == Slot(regions[i].addr, Sum(regions[i].backend.entries), regions[i].backend)
  {
    assert GoodRegion(regions[i]);
  }

  lemma HeadRegion(all: seq<Slot<Region>>, j: nat)
    requires j < |all| && Good(all[j..])
    ensures var s := all[j];
            Room([], all[j + 1..], Slot(s.addr, Sum(s.backend.entries), s.backend)) && NoEmpty(s.backend.ranges)
            && Good(all[j + 1..])
            && forall bus :: Placed(bus, all[j..]) == Placed(bus, []) + Pick(bus, s.addr, s.backend.ranges)
                + Placed(bus, all[j + 1..])
  {
    var rest := all[j..];
    DeleteRoom(rest, 0);
    SlotWhole(rest, 0);
    assert rest[..0] == [] && rest[1..] == all[j + 1..] && rest[..0] + rest[1..] == all[j + 1..];
    forall bus
      ensures Placed(bus, rest) == Placed(bus, []) + Pick(bus, all[j].addr, all[j].backend.ranges)
              + Placed(bus, all[j + 1..])
    {
      Whole(bus, [], rest[1..], all[j]);
    }
  }

  lemma NoLeft(right: seq<Slot<Region>>)
    ensures forall bus :: Placed(bus, []) + Placed(bus, right) == Placed(bus, right)
  {
  }

  lemma NothingPlaced(all: seq<Slot<Region>>)
    ensures forall bus :: Placed(bus, all[|all|..]) == []
  {
  }

  lemma SortedTail<B>(slots: seq<Slot<B>>, j: nat)
    requires j < |slots| && Sorted(slots[j..])
    ensures Sorted(slots[j + 1..])
  {
    assert slots[j + 1..] == slots[j..][1..];
  }

  lemma Empty()
    ensures Good([]) && Sorted<nat>([]) && forall bus :: Placed(bus, []) == []
  {
  }
}
