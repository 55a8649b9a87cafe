/**
 The split and packed rings as they lie in guest memory, and the device's accesses
 to them. `Ring` plays the part of the `VirtQueue` trait: one operation per trait
 method, split where the method touches memory more than once.
 */
module Rings {
  import opened Wrappers
  import opened RingIndex
  import opened QueueSpec

  /** A set of descriptor flags; `rest` keeps the bits the device does not know. */
  datatype DescFlag = DescFlag(next: bool, write: bool, indirect: bool, avail: bool, used: bool, rest: nat)

  datatype PackedDesc = PackedDesc(addr: nat, len: nat, id: nat, flag: DescFlag)

  const EVENT_ENABLE: nat := 0
  const EVENT_DISABLE: nat := 1
  const EVENT_DESC: nat := 2

  datatype DescEvent = DescEvent(index: WrappedIndex, flag: nat)

  datatype SplitDesc = SplitDesc(addr: nat, len: nat, flag: DescFlag, next: nat)

  datatype UsedElem = UsedElem(id: nat, len: nat)

  datatype Ring =
    | PackedRing(
        size: nat,
        desc: seq<PackedDesc>,
        eventIdx: bool,
        notification: nat,
        interrupt: DescEvent)
    | SplitRing(
        size: nat,
        table: seq<SplitDesc>,
        availFlags: nat,
        availIdx: nat,
        availRing: seq<nat>,
        usedEvent: Option<nat>,
        usedFlags: nat,
        usedIdx: nat,
        usedRing: seq<UsedElem>,
        availEvent: Option<nat>)

  function KindOf(r: Ring): Kind {
    if r.PackedRing? then Packed else Split
  }

  /** The ring's areas have the sizes the queue was set up with. */
  ghost predicate Laid(r: Ring) {
    match r
    case PackedRing(size, desc, _, _, interrupt) =>
      0 < size <= 0x8000 && |desc| == size && interrupt.index.offset < size
    case SplitRing(size, table, _, availIdx, availRing, usedEvent, _, usedIdx, usedRing, availEvent) =>
      && PowerOfTwo(size) && size <= 0x8000
      && |table| == size && |availRing| == size && |usedRing| == size
      && availIdx < U16_SPAN && usedIdx < U16_SPAN
      && (usedEvent.Some? <==> availEvent.Some?)
      && (usedEvent.Some? ==> usedEvent.value < U16_SPAN && availEvent.value < U16_SPAN)
  }

  ghost predicate Fits(r: Ring, index: Code) {
    && Laid(r)
    && (r.PackedRing? ==> index.Wrapped? && index.w.offset < r.size)
    && (r.SplitRing? ==> index.Plain? && index.n < U16_SPAN)
  }

  // ------------------------------------------------------------ packed: flags

  /** `flag_is_avail`. */
  predicate FlagIsAvail(flag: DescFlag, wrap: bool) {
    flag.avail == wrap && flag.used != wrap
  }

  /** How a driver reads a slot the device has returned, section 2.8.1 of Virtio 1.2. */
  predicate FlagIsUsed(flag: DescFlag, wrap: bool) {
    flag.avail == wrap && flag.used == wrap
  }

  /** `set_flag_used`. */
  function SetFlagUsed(flag: DescFlag, wrap: bool): DescFlag {
    if wrap then flag.(used := true, avail := true) else flag.(used := false, avail := false)
  }

  // ------------------------------------------------------------ the accesses

  /** `desc_avail`. The subtraction is only reached when it cannot underflow. */
  predicate DescAvail(r: Ring, index: Code)
    requires Fits(r, index)
  {
    match r
    case PackedRing(_, desc, _, _, _) => FlagIsAvail(desc[index.w.offset].flag, index.w.wrap)
    case SplitRing(size, _, _, availIdx, _, _, _, _, _, _) =>
      index.n < availIdx || index.n - availIdx >= U16_SPAN - 1 - (size - 1)
  }

  /** Collecting a packed chain from slot `off`: its id and its buffers. A chain that does not
      end within `fuel` slots has none. */
  function PackedWalk(desc: seq<PackedDesc>, off: nat, fuel: nat): Option<(nat, seq<Buf>)>
    requires off < |desc|
    decreases fuel
  {
    if fuel == 0 then None
    else
      var d := desc[off];
      var buf := Buf(d.addr, d.len, d.flag.write, d.flag.indirect);
      if !d.flag.next then Some((d.id, [buf]))
      else
        match PackedWalk(desc, (off + 1) % |desc|, fuel - 1)
        case None => None
        case Some((id, bufs)) => Some((id, [buf] + bufs))
  }

  /** Collecting a split chain from descriptor `id`: its buffers and the descriptors passed. An id
      outside the table is `InvalidDescriptor`. */
  function SplitWalk(table: seq<SplitDesc>, id: nat, fuel: nat): Option<(seq<Buf>, seq<nat>)>
    decreases fuel
  {
    if fuel == 0 || id >= |table| then None
    else
      var d := table[id];
      var buf := Buf(d.addr, d.len, d.flag.write, d.flag.indirect);
      if !d.flag.next then Some(([buf], [id]))
      else
        match SplitWalk(table, d.next, fuel - 1)
        case None => None
        case Some((bufs, path)) => Some(([buf] + bufs, [id] + path))
  }

  /** `get_avail` once `desc_avail` has answered yes. No chain that ends is longer than the ring. */
  function GetChain(r: Ring, index: Code): Option<Chain>
    requires Fits(r, index)
  {
    match r
    case PackedRing(size, desc, _, _, _) =>
      (match PackedWalk(desc, index.w.offset, size)
       case None => None
       case Some((id, bufs)) => Some(Chain(id, |bufs|, bufs, [])))
    case SplitRing(size, table, _, _, availRing, _, _, _, _, _) =>
      var slot := BitAnd(index.n, size - 1);
      if slot < |availRing| then
        var head := availRing[slot];
        match SplitWalk(table, head, size)
        case None => None
        case Some((bufs, path)) => Some(Chain(head, 1, bufs, path))
      else None
  }

  /** The first half of `set_used`: the element. */
  function PutElem(r: Ring, index: Code, id: nat, len: nat): Ring
    requires Fits(r, index)
  {
    match r
    case PackedRing(_, desc, _, _, _) =>
      var o := index.w.offset;
      r.(desc := desc[o := desc[o].(id := id, len := len)])
    case SplitRing(size, _, _, _, _, _, _, _, usedRing, _) =>
      var slot := BitAnd(index.n, size - 1);
      if slot < |usedRing| then r.(usedRing := usedRing[slot := UsedElem(id, len)]) else r
  }

  /** The second half of `set_used`: what makes the element visible. */
  function PutVisible(r: Ring, index: Code): Ring
    requires Fits(r, index)
  {
    match r
    case PackedRing(_, desc, _, _, _) =>
      var o := index.w.offset;
      r.(desc := desc[o := desc[o].(flag := SetFlagUsed(desc[o].flag, index.w.wrap))])
    case SplitRing(_, _, _, _, _, _, _, _, _, _) => r.(usedIdx := (index.n + 1) % U16_SPAN)
  }

  predicate UsesEvents(r: Ring) {
    r.SplitRing? && r.availEvent.Some?
  }

  /** Writing the notification flag: `set_flag_notification`, or the packed `enable_notification`. */
  function WriteFlag(r: Ring, enabled: bool): Ring {
    match r
    case PackedRing(_, _, _, _, _) => r.(notification := if enabled then EVENT_ENABLE else EVENT_DISABLE)
    case SplitRing(_, _, _, _, _, _, _, _, _, _) => r.(usedFlags := if enabled then 0 else 1)
  }

  function WriteAvailEvent(r: Ring, v: nat): Ring
    requires UsesEvents(r)
  {
    r.(availEvent := Some(v))
  }

  /** `interrupt_enabled` after `index` has been advanced by `delta`. */
  function InterruptEnabled(r: Ring, index: Code, delta: nat): bool
    requires Fits(r, index) && delta <= r.size
  {
    match r
    case PackedRing(size, _, eventIdx, _, interrupt) =>
      if eventIdx && interrupt.flag == EVENT_DESC then
        var before := WrappingSub(index.w, delta, size);
        var base := before.offset;
        var end := base + delta;
        var offset := interrupt.index.offset + (if interrupt.index.wrap != before.wrap then size else 0);
        base <= offset < end
      else interrupt.flag == EVENT_ENABLE
    case SplitRing(_, _, availFlags, _, _, usedEvent, _, _, _, _) =>
      match usedEvent
      case Some(event) => event == U16Dec(index.n)
      case None => availFlags == 0
  }

  /** `index_add`. */
  function IndexAdd(r: Ring, index: Code, delta: nat): Code
    requires Fits(r, index)
  {
    match r
    case PackedRing(size, _, _, _, _) => Wrapped(WrappingAdd(index.w, delta, size))
    case SplitRing(_, _, _, _, _, _, _, _, _, _) => Plain((index.n + 1) % U16_SPAN)
  }

  // -------------------------------------------------- what the memory stands for

  function ArmOf(r: Ring): Arm {
    match r
    case PackedRing(_, _, eventIdx, _, interrupt) =>
      if eventIdx && interrupt.flag == EVENT_DESC then AtCode(Wrapped(interrupt.index))
      else if interrupt.flag == EVENT_ENABLE then Always
      else Never
    case SplitRing(_, _, availFlags, _, _, usedEvent, _, _, _, _) =>
      match usedEvent
      case Some(event) => AtCode(Plain(event))
      case None => if availFlags == 0 then Always else Never
  }

  function NotifyOf(r: Ring): Notify {
    match r
    case PackedRing(_, _, _, notification, _) => Flag(notification == EVENT_ENABLE)
    case SplitRing(_, _, _, _, _, _, usedFlags, _, _, availEvent) =>
      match availEvent
      case Some(event) => Event(event)
      case None => Flag(usedFlags == 0)
  }

  /** The event areas in numbers, sections 2.7.7, 2.7.10 and 2.8.10 of Virtio 1.2: 0 asks for events and 1 for none; in
      a packed ring 2 asks for one at an index. The device writes 0 or 1 and leaves the rest of the ring alone. */
  lemma EventNumbers(r: Ring, enabled: bool)
    ensures r.PackedRing? ==> WriteFlag(r, enabled) == r.(notification := if enabled then 0 else 1)
    ensures r.SplitRing? ==> WriteFlag(r, enabled) == r.(usedFlags := if enabled then 0 else 1)
    ensures r.PackedRing? ==>
              && (r.interrupt.flag == 0 ==> ArmOf(r) == Always) && (r.interrupt.flag == 1 ==> ArmOf(r) == Never)
              && (r.interrupt.flag == 2 && r.eventIdx ==> ArmOf(r) == AtCode(Wrapped(r.interrupt.index)))
              && (NotifyOf(r) == Flag(true) <==> r.notification == 0)
    ensures r.SplitRing? && r.usedEvent == None ==> (ArmOf(r) == Always <==> r.availFlags == 0)
    ensures r.SplitRing? && r.availEvent == None ==> (NotifyOf(r) == Flag(true) <==> r.usedFlags == 0)
  {
  }

  // ------------------------------------------------------- arithmetic of the rings

  lemma IndexAddRefines(r: Ring, p: nat, delta: nat)
    requires Laid(r) && delta <= r.size && (r.SplitRing? ==> delta == 1)
    ensures Fits(r, Encode(KindOf(r), r.size, p))
    ensures IndexAdd(r, Encode(KindOf(r), r.size, p), delta) == Encode(KindOf(r), r.size, p + delta)
  {
    if r.PackedRing? { AddRefines(p, delta, r.size); }
  }

  /** The packed decision: the offset test holds exactly when some returned position has the
      driver's index. */
  lemma PackedIrqExact(r: Ring, used: nat, delta: nat)
    requires Laid(r) && r.PackedRing? && r.eventIdx && r.interrupt.flag == EVENT_DESC
    requires delta <= used && delta <= r.size
    ensures InterruptEnabled(r, Wrapped(At(used, r.size)), delta)
       <==> exists q: nat :: used - delta <= q < used && At(q, r.size) == r.interrupt.index
  {
    var size, lo := r.size, used - delta;
    SubRefines(used, delta, size);
    var ev, from := r.interrupt.index, At(lo, size);
    if InterruptEnabled(r, Wrapped(At(used, size)), delta) {
      var ahead := ev.offset + (if ev.wrap != from.wrap then size else 0) - from.offset;
      AddRefines(lo, ahead, size);
      assert At(lo + ahead, size) == ev;
    }
    if q: nat :| lo <= q < used && At(q, size) == ev {
      AddRefines(lo, q - lo, size);
    }
  }

  /** `interrupt_enabled` asks exactly whether the driver's event lies among the returned positions. */
  lemma IrqExact(r: Ring, used: nat, delta: nat)
    requires Laid(r) && 0 < delta <= used && delta <= r.size && (r.SplitRing? ==> delta == 1)
    ensures InterruptEnabled(r, Encode(KindOf(r), r.size, used), delta)
       <==> Wants(KindOf(r), r.size, ArmOf(r), used - delta, used)
  {
    if r.PackedRing? && r.eventIdx && r.interrupt.flag == EVENT_DESC {
      PackedIrqExact(r, used, delta);
      forall q: nat
        ensures Encode(Packed, r.size, q) == Wrapped(r.interrupt.index) <==> At(q, r.size) == r.interrupt.index
      {
      }
    } else if r.SplitRing? && r.usedEvent.Some? {
      assert U16Dec(U16(used)) == U16(used - 1);
      assert Encode(Split, r.size, used - 1) == Plain(U16(used - 1));
    }
  }

  /** The split decision: with an event index, exactly if that is the position just returned. */
  lemma SplitIrqExact(r: Ring, used: nat)
    requires Laid(r) && r.SplitRing? && r.usedEvent.Some? && used > 0
    ensures InterruptEnabled(r, Plain(U16(used)), 1) <==> r.usedEvent.value == (used - 1) % 0x1_0000
  {
  }

  /** The split ring's index comparison, for counters at most a ring apart. */
  lemma SplitAvailExact(r: Ring, avail: nat, posted: nat)
    requires Laid(r) && r.SplitRing? && r.availIdx == U16(posted) && avail <= posted <= avail + r.size
    ensures DescAvail(r, Plain(U16(avail))) <==> avail < posted
  {
  }
}
