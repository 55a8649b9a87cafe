/**
 Every step of the machine on ring memory is the same step of the unbounded protocol.
 */
module QueueSimulation {
  import opened Wrappers
  import opened RingIndex
  import opened QueueSpec
  import opened QueueTheorems
  import opened Rings
  import opened QueueMachine
  import opened QueueRefinement
  import P = PackedContent
  import S = SplitContent
  import PackedSteps
  import SplitSteps

  // ------------------------------------------------------- what memory reads give

  lemma IndexFits(r: Ring, p: nat)
    requires Laid(r)
    ensures Fits(r, Encode(KindOf(r), r.size, p))
  {
  }

  lemma PackedAvailTruth(w: World, a: State)
    requires Rel(w, a) && w.ring.PackedRing? && !Holding(a.pc)
    ensures Fits(w.ring, w.avail)
    ensures DescAvail(w.ring, w.avail) <==> |a.tape.fates| < |a.tape.posted|
  {
    hide DistinctIds, Balance, Kicks, Irqs, DeferredLink, InflightLink;
    Parts(w, a);
    var t, desc := a.tape, w.ring.desc;
    IndexFits(w.ring, a.avail);
    if |t.fates| < |t.posted| {
      assert P.ChainFrom(desc, t.posted[|t.fates|], 0, a.avail);
      assert P.SlotHolds(desc, t.posted[|t.fates|], 0, a.avail);
    } else {
      assert t.posted[..|t.fates|] == t.posted;
      assert desc[Off(a.avail, a.size)].flag.avail != Wrap(a.avail, a.size);
    }
  }

  lemma SplitAvailTruth(w: World, a: State)
    requires Rel(w, a) && w.ring.SplitRing? && !Holding(a.pc)
    ensures Fits(w.ring, w.avail)
    ensures DescAvail(w.ring, w.avail) <==> |a.tape.fates| < |a.tape.posted|
  {
    hide DistinctIds, Balance, Kicks, Irqs, DeferredLink, InflightLink;
    Parts(w, a);
    IndexFits(w.ring, a.avail);
    SplitSteps.SplitCounts(a.tape, a.size);
    Order(a.tape, a.size, a.used);
    SplitAvailExact(w.ring, a.avail, |a.tape.posted|);
  }

  /** Ring truth: the device sees a chain exactly when the driver has published past its index. */
  lemma AvailTruth(w: World, a: State)
    requires Rel(w, a) && !Holding(a.pc)
    ensures Fits(w.ring, w.avail)
    ensures DescAvail(w.ring, w.avail) <==> |a.tape.fates| < |a.tape.posted|
  {
    hide Rel, DescAvail, Fits, Holding;
    if w.ring.PackedRing? { PackedAvailTruth(w, a); } else { SplitAvailTruth(w, a); }
  }

  lemma PackedFetch(r: Ring, chain: Chain, avail: nat)
    requires Laid(r) && r.PackedRing? && WellFormed(Packed, r.size, chain) && P.ChainFrom(r.desc, chain, 0, avail)
    ensures Fits(r, Wrapped(At(avail, r.size))) && GetChain(r, Wrapped(At(avail, r.size))) == Some(chain)
  {
    hide Off, Wrap, P.ChainFrom;
    P.WalkFinds(r.desc, chain, avail, 0, r.size);
    assert chain.bufs[0..] == chain.bufs;
  }

  lemma SplitFetch(r: Ring, chain: Chain, avail: nat)
    requires Laid(r) && r.SplitRing? && WellFormed(Split, r.size, chain)
             && S.Entered(r.table, r.availRing, chain, avail)
    ensures Fits(r, Plain(U16(avail))) && GetChain(r, Plain(U16(avail))) == Some(chain)
  {
    hide BitAnd, Off, PowerOfTwo, S.TableHolds;
    MaskRefines(avail, r.size);
    S.WalkFinds(r.table, chain, 0, r.size);
    assert chain.bufs[0..] == chain.bufs && chain.path[0..] == chain.path;
  }

  /** What `get_avail` collects is the next published chain, whole. */
  lemma FetchTruth(w: World, a: State)
    requires Rel(w, a) && !Holding(a.pc) && |a.tape.fates| < |a.tape.posted|
    ensures Fits(w.ring, w.avail)
    ensures GetChain(w.ring, w.avail) == Some(a.tape.posted[|a.tape.fates|])
  {
    hide DistinctIds, Balance, PcFits, Kicks, Irqs, DeferredLink, InflightLink, GetChain, Fits, Laid, S.Entered,
         P.ChainFrom;
    Parts(w, a);
    var i := |a.tape.fates|;
    assert WellFormed(a.kind, a.size, a.tape.posted[i]);
    if w.ring.PackedRing? {
      PackedFetch(w.ring, a.tape.posted[i], a.avail);
    } else {
      SplitSteps.SplitCounts(a.tape, a.size);
      SplitFetch(w.ring, a.tape.posted[i], a.avail);
    }
  }

  lemma PackedUsedTruth(w: World, a: State)
    requires Rel(w, a) && w.ring.PackedRing?
    ensures Ledger(a.tape) && Fits(w.ring, w.guest.used)
    ensures SeesUsed(w.ring, w.guest.used) <==> a.tape.reclaimed < |a.tape.returned|
    ensures a.tape.reclaimed < |a.tape.returned| ==>
              UsedAt(w.ring, w.guest.used) == BackElem(a.tape, a.tape.reclaimed)
  {
    hide DistinctIds, Kicks, Irqs, DeferredLink, InflightLink, AvailFits;
    Parts(w, a);
    var t, desc := a.tape, w.ring.desc;
    IndexFits(w.ring, BackTo(t));
    Order(t, a.size, a.used);
    if t.reclaimed < |t.returned| {
      assert P.BackAt(desc, SlotsBack(t.posted, t.returned[..t.reclaimed]), BackElem(t, t.reclaimed));
    } else {
      assert t.returned[..t.reclaimed] == t.returned;
      if a.used < Slots(t.posted) {
        assert desc[Off(a.used, a.size)].flag.used != Wrap(a.used, a.size);
      } else {
        assert desc[Off(a.used, a.size)].flag.avail != Wrap(a.used, a.size);
      }
    }
  }

  lemma SplitUsedTruth(w: World, a: State)
    requires Rel(w, a) && w.ring.SplitRing?
    ensures Ledger(a.tape) && Fits(w.ring, w.guest.used)
    ensures SeesUsed(w.ring, w.guest.used) <==> a.tape.reclaimed < |a.tape.returned|
    ensures a.tape.reclaimed < |a.tape.returned| ==>
              UsedAt(w.ring, w.guest.used) == BackElem(a.tape, a.tape.reclaimed)
  {
    hide DistinctIds, Balance, Kicks, Irqs, DeferredLink, InflightLink, AvailFits, PcFits, S.Untaken, SplitStage, U16,
         BitAnd, PowerOfTwo, Off, Slots, SlotsOf, SlotsBack, Formed, PcLink;
    Parts(w, a);
    var t := a.tape;
    IndexFits(w.ring, BackTo(t));
    SplitSteps.SplitOrder(a);
    SplitSteps.SplitCounts(t, a.size);
    U16Distinct(t.reclaimed, |t.returned|);
    MaskRefines(t.reclaimed, a.size);
  }

  /** The driver sees a returned chain exactly when there is one it has not read, and reads its id. */
  lemma UsedTruth(w: World, a: State)
    requires Rel(w, a)
    ensures Ledger(a.tape) && Fits(w.ring, w.guest.used)
    ensures SeesUsed(w.ring, w.guest.used) <==> a.tape.reclaimed < |a.tape.returned|
    ensures a.tape.reclaimed < |a.tape.returned| ==>
              UsedAt(w.ring, w.guest.used) == BackElem(a.tape, a.tape.reclaimed)
  {
    hide Rel, SeesUsed, Fits, UsedAt, Ledger;
    if w.ring.PackedRing? { PackedUsedTruth(w, a); } else { SplitUsedTruth(w, a); }
  }

  // -------------------------------------------------------------- quiet steps

  /** The descriptors and ring entries of two rings agree. */
  predicate SameSlots(r: Ring, q: Ring) {
    match r
    case PackedRing(_, desc, _, _, _) => q.PackedRing? && q.desc == desc
    case SplitRing(_, table, _, availIdx, availRing, _, _, usedIdx, usedRing, _) =>
      && q.SplitRing? && q.table == table && q.availIdx == availIdx && q.availRing == availRing
      && q.usedIdx == usedIdx && q.usedRing == usedRing
  }

  lemma SameSlotsRefl(r: Ring)
    ensures SameSlots(r, r)
  {
  }

  lemma ContentSame(w: World, a: State, v: World, b: State)
    requires Ledger(a.tape) && ContentLink(w, a)
    requires SameSlots(w.ring, v.ring) && v.guest.stage == w.guest.stage
    requires b.tape == a.tape && b.used == a.used && b.size == a.size && First(b) == First(a)
    requires b.pc.Publishing? ==> b.pc == a.pc
    ensures ContentLink(v, b)
  {
    hide Ledger, P.Untaken, P.Stale, P.Fresh, P.Backed, S.Untaken, S.Backed;
  }

  /** A step of the driver that memory allows is a step of the protocol, and afterwards the two still agree. */
  ghost predicate DriverFollows(w: World, a: State, l: Label) {
    DriverReady(w, l) ==> Enabled(a, l) && Rel(DriverDo(w, l), Next(a, l))
  }

  /** The same for a step of the device. */
  ghost predicate DeviceFollows(w: World, a: State, l: Label) {
    DeviceReady(w, l) ==> Enabled(a, l) && Rel(DeviceDo(w, l), Next(a, l))
  }

  /** The protocol may take the step `l`, and its invariant survives. */
  ghost predicate Sound(a: State, l: Label) {
    Enabled(a, l) && Inv(Next(a, l))
  }

  /** What the driver's step writes to the ring is what the protocol says. */
  ghost predicate DriverWrites(w: World, a: State, l: Label) {
    DriverReady(w, l) && Sound(a, l) ==>
      ContentLink(DriverDo(w, l), Next(a, l)) && RingLink(DriverDo(w, l).ring, Next(a, l))
  }

  /** The same for the device. */
  ghost predicate DeviceWrites(w: World, a: State, l: Label) {
    DeviceReady(w, l) && Sound(a, l) ==>
      ContentLink(DeviceDo(w, l), Next(a, l)) && RingLink(DeviceDo(w, l).ring, Next(a, l))
  }

  lemma SimCheck(w: World, a: State)
    requires Rel(w, a) && DriverReady(w, DCheck)
    ensures DriverFollows(w, a, DCheck)
  {
    hide Ledger, DistinctIds, Balance, PcFits, AvailFits, Kicks, Irqs, PcLink, DeferredLink, InflightLink, Formed,
         P.Untaken, P.Stale, P.Fresh, P.Backed, S.Untaken, S.Backed, SplitStage, PackedStage;
    Parts(w, a);
    InvKept(a, DCheck);
    ContentSame(w, a, DriverDo(w, DCheck), Next(a, DCheck));
    assert WantsKick(w.ring, w.guest.checked) == NeedKick(a.bell.notify, |a.tape.posted|, a.bell.checked);
    Whole(DriverDo(w, DCheck), Next(a, DCheck));
  }

  lemma SimKick(w: World, a: State)
    requires Rel(w, a) && DriverReady(w, DKick)
    ensures DriverFollows(w, a, DKick)
  {
    hide Ledger, DistinctIds, Balance, PcFits, AvailFits, Kicks, Irqs, PcLink, DeferredLink, InflightLink, Formed,
         ContentLink;
    Parts(w, a);
    InvKept(a, DKick);
    ContentSame(w, a, DriverDo(w, DKick), Next(a, DKick));
    Whole(DriverDo(w, DKick), Next(a, DKick));
  }

  lemma SimArm(w: World, a: State, arm: Arm)
    requires Rel(w, a) && DriverReady(w, DArm(arm))
    ensures DriverFollows(w, a, DArm(arm))
  {
    hide Ledger, DistinctIds, Balance, PcFits, AvailFits, Kicks, Irqs, PcLink, DeferredLink, InflightLink, Formed,
         ContentLink;
    Parts(w, a);
    InvKept(a, DArm(arm));
    ContentSame(w, a, DriverDo(w, DArm(arm)), Next(a, DArm(arm)));
    Whole(DriverDo(w, DArm(arm)), Next(a, DArm(arm)));
  }

  /** Taking, parking and dropping chains changes nothing the driver keeps account of. */
  lemma GuestSame(g: Guest, a: State, b: State)
    requires a.size > 0 && Ledger(a.tape) && Ledger(b.tape) && GuestLink(g, a) && InflightLink(g.inflight, a.tape)
    requires b.tape.posted == a.tape.posted && b.tape.returned == a.tape.returned && b.tape.lens == a.tape.lens
             && b.tape.reclaimed == a.tape.reclaimed
    requires b.kind == a.kind && b.size == a.size && b.bell.checked == a.bell.checked && b.bell.due == a.bell.due
    ensures GuestLink(g, b) && InflightLink(g.inflight, b.tape)
  {
    hide Ledger;
    forall i: nat
      ensures Outstanding(a.tape, i) <==> Outstanding(b.tape, i)
    {
    }
  }

  // -------------------------------------------------------- device: control steps

  lemma SimControl(w: World, a: State, l: Label)
    requires Rel(w, a) && DeviceReady(w, l) && (l.VStart? || l.VLeave?)
    ensures DeviceFollows(w, a, l)
  {
    hide Ledger, DistinctIds, Balance, PcFits, AvailFits, Kicks, Irqs, DeferredLink, InflightLink, Formed, ContentLink,
         RingLink;
    Parts(w, a);
    InvKept(a, l);
    ContentSame(w, a, DeviceDo(w, l), Next(a, l));
    RingSame(w.ring, a, Next(a, l));
    Whole(DeviceDo(w, l), Next(a, l));
  }

  lemma RingSame(r: Ring, a: State, b: State)
    requires RingLink(r, a) && b.kind == a.kind && b.size == a.size && b.line.arm == a.line.arm
             && b.bell.notify == a.bell.notify
    ensures RingLink(r, b)
  {
  }

  lemma SimTop(w: World, a: State)
    requires Rel(w, a) && DeviceReady(w, VTop)
    ensures DeviceFollows(w, a, VTop)
  {
    hide Ledger, DistinctIds, Balance, PcFits, AvailFits, Kicks, Irqs, DeferredLink, InflightLink, Formed, ContentLink,
         RingLink, DescAvail;
    Parts(w, a);
    InvKept(a, VTop);
    AvailTruth(w, a);
    ContentSame(w, a, DeviceDo(w, VTop), Next(a, VTop));
    RingSame(w.ring, a, Next(a, VTop));
    Whole(DeviceDo(w, VTop), Next(a, VTop));
  }

  lemma SimFetchFail(w: World, a: State)
    requires Rel(w, a) && DeviceReady(w, VFetchFail)
    ensures DeviceFollows(w, a, VFetchFail)
  {
    hide Ledger, DistinctIds, Balance, PcFits, AvailFits, Kicks, Irqs, DeferredLink, InflightLink, Formed, ContentLink,
         RingLink, DescAvail;
    Parts(w, a);
    AvailTruth(w, a);
    InvKept(a, VFetchFail);
    ContentSame(w, a, DeviceDo(w, VFetchFail), Next(a, VFetchFail));
    RingSame(w.ring, a, Next(a, VFetchFail));
    Whole(DeviceDo(w, VFetchFail), Next(a, VFetchFail));
  }

  /** The published index as the device reads it from a split ring. */
  lemma IndexRead(w: World, a: State)
    requires Rel(w, a)
    ensures w.ring.SplitRing? ==> w.ring.availIdx == U16(|a.tape.posted|)
  {
    Parts(w, a);
  }

  lemma NotifyKinds(r: Ring, a: State)
    requires RingLink(r, a)
    ensures UsesEvents(r) <==> a.bell.notify.Event?
  {
  }

  lemma WriteFlagLink(r: Ring, a: State, b: State, enabled: bool)
    requires RingLink(r, a) && !UsesEvents(r)
    requires b.kind == a.kind && b.size == a.size && b.line.arm == a.line.arm && b.bell.notify == Flag(enabled)
    ensures RingLink(WriteFlag(r, enabled), b) && SameSlots(r, WriteFlag(r, enabled))
  {
  }

  lemma WriteEventLink(r: Ring, a: State, b: State, v: nat)
    requires RingLink(r, a) && UsesEvents(r) && v < U16_SPAN
    requires b.kind == a.kind && b.size == a.size && b.line.arm == a.line.arm && b.bell.notify == Event(v)
    ensures RingLink(WriteAvailEvent(r, v), b) && SameSlots(r, WriteAvailEvent(r, v))
  {
  }

  lemma SimDisable(w: World, a: State)
    requires Rel(w, a) && DeviceReady(w, VDisable)
    ensures DeviceFollows(w, a, VDisable)
  {
    hide Ledger, DistinctIds, Balance, PcFits, AvailFits, Kicks, Irqs, DeferredLink, InflightLink, Formed, ContentLink,
         RingLink, WriteFlag, WriteAvailEvent, SameSlots;
    Parts(w, a);
    IndexRead(w, a);
    NotifyKinds(w.ring, a);
    InvKept(a, VDisable);
    var b := Next(a, VDisable);
    if a.pc.DisableWrite? {
      WriteEventLink(w.ring, a, b, U16Dec(U16(a.pc.v)));
    } else if !UsesEvents(w.ring) {
      WriteFlagLink(w.ring, a, b, false);
    } else {
      RingSame(w.ring, a, b);
      SameSlotsRefl(w.ring);
    }
    ContentSame(w, a, DeviceDo(w, VDisable), b);
    Whole(DeviceDo(w, VDisable), Next(a, VDisable));
  }

  /** The driver is never more than a ring ahead. */
  lemma PostedAhead(t: Tape, size: nat, used: nat)
    requires Ledger(t) && Balance(t, size, used)
    ensures |t.posted| <= |t.fates| + size
  {
    Order(t, size, used);
    SlotsGap(t.posted, |t.fates|);
  }

  /** The stability test of `enable_notification` compares stored indices, yet is exact. */
  lemma RereadExact(w: World, a: State)
    requires Rel(w, a) && UsesEvents(w.ring) && a.pc.EnableReread?
    ensures w.ring.availIdx == U16(a.pc.v) <==> |a.tape.posted| == a.pc.v
  {
    hide Ledger, DistinctIds, Balance, PcFits, AvailFits, Irqs, DeferredLink, InflightLink, ContentLink;
    Parts(w, a);
    IndexRead(w, a);
    PostedAhead(a.tape, a.size, a.used);
    U16Distinct(a.pc.v, |a.tape.posted|);
  }

  /** The ring after a step of re-enabling. */
  lemma EnableRing(w: World, a: State)
    requires Rel(w, a) && DeviceReady(w, VEnable)
    ensures Enabled(a, VEnable) && RingLink(DeviceDo(w, VEnable).ring, Next(a, VEnable))
            && SameSlots(w.ring, DeviceDo(w, VEnable).ring)
  {
    hide Ledger, DistinctIds, Balance, PcFits, AvailFits, Kicks, Irqs, DeferredLink, InflightLink, Formed, ContentLink,
         RingLink, WriteFlag, WriteAvailEvent, SameSlots, GuestLink;
    Parts(w, a);
    IndexRead(w, a);
    NotifyKinds(w.ring, a);
    var b := Next(a, VEnable);
    if a.pc.EnableWrite? {
      WriteEventLink(w.ring, a, b, U16(a.pc.v));
    } else if a.pc.EnableReread? {
      RingSame(w.ring, a, b);
      SameSlotsRefl(w.ring);
    } else if !UsesEvents(w.ring) {
      WriteFlagLink(w.ring, a, b, true);
    } else {
      RingSame(w.ring, a, b);
      SameSlotsRefl(w.ring);
    }
  }

  lemma SimEnable(w: World, a: State)
    requires Rel(w, a) && DeviceReady(w, VEnable)
    ensures DeviceFollows(w, a, VEnable)
  {
    hide Ledger, DistinctIds, Balance, PcFits, AvailFits, Kicks, Irqs, DeferredLink, InflightLink, Formed, ContentLink,
         RingLink, WriteFlag, WriteAvailEvent, SameSlots, GuestLink, StageLink;
    Parts(w, a);
    EnableRing(w, a);
    IndexRead(w, a);
    NotifyKinds(w.ring, a);
    InvKept(a, VEnable);
    if a.pc.EnableReread? {
      RereadExact(w, a);
    }
    GuestSame(w.guest, a, Next(a, VEnable));
    ContentSame(w, a, DeviceDo(w, VEnable), Next(a, VEnable));
    Whole(DeviceDo(w, VEnable), Next(a, VEnable));
  }

  // ------------------------------------------------- device: taking and parking

  lemma ContentTaken(w: World, a: State, v: World, b: State)
    requires Ledger(a.tape) && Ledger(b.tape) && ContentLink(w, a)
    requires v.ring == w.ring && v.guest == w.guest
    requires b.tape.posted == a.tape.posted && b.tape.returned == a.tape.returned && b.tape.lens == a.tape.lens
             && b.tape.reclaimed == a.tape.reclaimed
    requires b.used == a.used && b.size == a.size && First(a) <= First(b) && !b.pc.Publishing?
    ensures ContentLink(v, b)
  {
    hide Ledger, P.Stale, P.Fresh, SplitStage, PackedStage, P.ChainFrom, S.Entered, P.BackAt;
  }

  /** The driver's and the ring's side of a step that only takes, parks or drops a chain. */
  lemma TapeEdit(w: World, a: State, v: World, b: State)
    requires Rel(w, a) && Inv(b)
    requires v.ring == w.ring && v.guest == w.guest
    requires b.tape.posted == a.tape.posted && b.tape.returned == a.tape.returned && b.tape.lens == a.tape.lens
             && b.tape.reclaimed == a.tape.reclaimed
    requires b.used == a.used && First(a) <= First(b) && !b.pc.Publishing?
    requires b.kind == a.kind && b.size == a.size && b.line == a.line
    requires b.bell.notify == a.bell.notify && b.bell.checked == a.bell.checked && b.bell.due == a.bell.due
    ensures RingLink(v.ring, b) && Formed(b.tape, b.kind, b.size) && ContentLink(v, b)
    ensures GuestLink(v.guest, b) && InflightLink(v.guest.inflight, b.tape) && StageLink(v.guest, b.kind, b.size)
  {
    hide Ledger, DistinctIds, Balance, PcFits, AvailFits, Kicks, Irqs, DeferredLink, InflightLink, ContentLink,
         RingLink, GuestLink, PcLink;
    Parts(w, a);
    GuestSame(w.guest, a, b);
    ContentTaken(w, a, v, b);
    RingSame(w.ring, a, b);
  }

  lemma DeferredSame(deferred: map<nat, Chain>, t: Tape, u: Tape)
    requires DeferredLink(deferred, t) && u.posted == t.posted
    requires forall i: nat :: IsParked(t, i) <==> IsParked(u, i)
    ensures DeferredLink(deferred, u)
  {
    forall id | id in deferred
      ensures exists i: nat :: ParkedAs(u, id, i)
    {
      var i: nat :| ParkedAs(t, id, i);
      assert IsParked(t, i);
      assert ParkedAs(u, id, i);
    }
  }

  lemma SimFetch(w: World, a: State)
    requires Rel(w, a) && DeviceReady(w, VFetch)
    ensures DeviceFollows(w, a, VFetch)
  {
    hide Ledger, DistinctIds, Balance, PcFits, AvailFits, Kicks, Irqs, DeferredLink, InflightLink, Formed, ContentLink,
         RingLink, GuestLink, StageLink, DescAvail, GetChain, Fits;
    Parts(w, a);
    var v, b := DeviceDo(w, VFetch), Next(a, VFetch);
    AvailTruth(w, a);
    InvKept(a, VFetch);
    if |a.tape.fates| < |a.tape.posted| {
      FetchTruth(w, a);
      DeferredSame(w.deferred, a.tape, b.tape);
    }
    TapeEdit(w, a, v, b);
    Whole(DeviceDo(w, VFetch), Next(a, VFetch));
  }

  lemma InHandFacts(a: State)
    requires Inv(a)
    ensures HasInHand(a.pc) ==>
              && a.pc.c < |a.tape.fates| && a.tape.fates[a.pc.c] == InHand
                  && (!a.pc.late ==> a.pc.c == |a.tape.fates| - 1)
              && 0 < a.tape.posted[a.pc.c].delta <= a.size
    ensures |a.tape.fates| <= |a.tape.posted|
    ensures a.pc.AskIrq? ==> 0 < a.pc.delta <= a.used && a.pc.delta <= a.size
  {
    hide DistinctIds, Kicks, Irqs, AvailFits;
  }

  lemma UnitDelta(a: State, i: nat)
    requires Formed(a.tape, a.kind, a.size) && i < |a.tape.posted|
    ensures a.kind == Split ==> a.tape.posted[i].delta == 1
  {
    assert WellFormed(a.kind, a.size, a.tape.posted[i]);
  }

  lemma SimPark(w: World, a: State)
    requires Rel(w, a) && DeviceReady(w, VOp(Deferred))
    ensures DeviceFollows(w, a, VOp(Deferred))
  {
    hide Ledger, DistinctIds, Balance, PcFits, AvailFits, Kicks, Irqs, DeferredLink, InflightLink, Formed, ContentLink,
         RingLink, GuestLink, StageLink, Fits;
    Parts(w, a);
    InHandFacts(a);
    InvKept(a, VOp(Deferred));
    var v, b, i := DeviceDo(w, VOp(Deferred)), Next(a, VOp(Deferred)), a.pc.c;
    RingFacts(w.ring, a);
    UnitDelta(a, i);
    IndexAddRefines(w.ring, a.avail, a.tape.posted[i].delta);
    NotParkedTwice(w, a, i);
    ParkedAdded(w.deferred, a.tape, i);
    TapeEdit(w, a, v, b);
    Whole(DeviceDo(w, VOp(Deferred)), Next(a, VOp(Deferred)));
  }

  lemma RingFacts(r: Ring, a: State)
    requires RingLink(r, a)
    ensures Laid(r) && KindOf(r) == a.kind && r.size == a.size
  {
  }

  /** No parked chain has the id of the chain in hand. */
  lemma NotParkedTwice(w: World, a: State, i: nat)
    requires Rel(w, a) && i < |a.tape.fates| && a.tape.fates[i] == InHand
    ensures |a.tape.fates| <= |a.tape.posted|
    ensures forall j: nat :: IsParked(a.tape, j) ==> a.tape.posted[j].id != a.tape.posted[i].id
  {
    hide Balance, PcFits, AvailFits, Kicks, Irqs, DeferredLink, InflightLink, ContentLink, RingLink;
    Parts(w, a);
    assert Outstanding(a.tape, i);
    forall j: nat | IsParked(a.tape, j)
      ensures a.tape.posted[j].id != a.tape.posted[i].id
    {
      assert Outstanding(a.tape, j);
    }
  }

  lemma ParkedAdded(deferred: map<nat, Chain>, t: Tape, i: nat)
    requires DeferredLink(deferred, t) && i < |t.fates| <= |t.posted| && t.fates[i] == InHand
    requires forall j: nat :: IsParked(t, j) ==> t.posted[j].id != t.posted[i].id
    ensures DeferredLink(deferred[t.posted[i].id := t.posted[i]], SetFate(t, i, Parked))
  {
    var d, u := deferred[t.posted[i].id := t.posted[i]], SetFate(t, i, Parked);
    forall j: nat | IsParked(u, j)
      ensures t.posted[j].id in d && d[t.posted[j].id] == t.posted[j]
    {
      if j != i { assert IsParked(t, j); }
    }
    forall id | id in d
      ensures exists j: nat :: ParkedAs(u, id, j)
    {
      if id == t.posted[i].id {
        assert ParkedAs(u, id, i);
      } else {
        var j: nat :| ParkedAs(t, id, j);
        assert ParkedAs(u, id, j);
      }
    }
  }

  lemma SimOpOther(w: World, a: State, status: Status)
    requires Rel(w, a) && DeviceReady(w, VOp(status)) && !status.Deferred?
    ensures DeviceFollows(w, a, VOp(status))
  {
    hide Ledger, DistinctIds, Balance, PcFits, AvailFits, Kicks, Irqs, DeferredLink, InflightLink, Formed, ContentLink,
         RingLink, GuestLink, StageLink, Fits;
    Parts(w, a);
    InHandFacts(a);
    InvKept(a, VOp(status));
    var v, b := DeviceDo(w, VOp(status)), Next(a, VOp(status));
    DeferredSame(w.deferred, a.tape, b.tape);
    TapeEdit(w, a, v, b);
    Whole(DeviceDo(w, VOp(status)), Next(a, VOp(status)));
  }

  lemma UniqueParked(w: World, a: State, i: nat, j: nat)
    requires Rel(w, a) && IsParked(a.tape, i) && IsParked(a.tape, j) && a.tape.posted[i].id == a.tape.posted[j].id
    ensures i == j
  {
    hide Balance, PcFits, AvailFits, Kicks, Irqs, DeferredLink, InflightLink, ContentLink, RingLink;
    Parts(w, a);
    assert Outstanding(a.tape, i) && Outstanding(a.tape, j);
  }

  lemma ParkedRemoved(deferred: map<nat, Chain>, t: Tape, i: nat)
    requires DeferredLink(deferred, t) && IsParked(t, i)
    requires forall j: nat :: IsParked(t, j) && t.posted[j].id == t.posted[i].id ==> j == i
    ensures DeferredLink(deferred - {t.posted[i].id}, SetFate(t, i, InHand))
  {
    var d, u := deferred - {t.posted[i].id}, SetFate(t, i, InHand);
    forall j: nat | IsParked(u, j)
      ensures t.posted[j].id in d && d[t.posted[j].id] == t.posted[j]
    {
      assert IsParked(t, j);
    }
    forall id | id in d
      ensures exists j: nat :: ParkedAs(u, id, j)
    {
      var j: nat :| ParkedAs(t, id, j);
      assert ParkedAs(u, id, j);
    }
  }

  lemma SimLate(w: World, a: State, id: nat)
    requires Rel(w, a) && DeviceReady(w, VLate(id))
    ensures DeviceFollows(w, a, VLate(id))
  {
    hide Ledger, DistinctIds, Balance, PcFits, AvailFits, Kicks, Irqs, InflightLink, Formed, ContentLink, RingLink,
         GuestLink, StageLink;
    Parts(w, a);
    InvKept(a, VLate(id));
    var v, b := DeviceDo(w, VLate(id)), Next(a, VLate(id));
    if i: nat :| ParkedAs(a.tape, id, i) {
      var k := b.pc.c;
      assert IsParked(a.tape, k) && a.tape.posted[k].id == id;
      forall j: nat | IsParked(a.tape, j) && a.tape.posted[j].id == id
        ensures j == k
      {
        UniqueParked(w, a, j, k);
      }
      ParkedRemoved(w.deferred, a.tape, k);
      TapeEdit(w, a, v, b);
    }
    Whole(DeviceDo(w, VLate(id)), Next(a, VLate(id)));
  }

  // ------------------------------------------------- device: returning a chain

  lemma SimAsk(w: World, a: State)
    requires Rel(w, a) && DeviceReady(w, VAsk)
    ensures DeviceFollows(w, a, VAsk)
  {
    hide Ledger, DistinctIds, Balance, PcFits, AvailFits, Kicks, Irqs, DeferredLink, InflightLink, Formed, ContentLink,
         GuestLink, StageLink, Wants, InterruptEnabled, Fits, Laid;
    Parts(w, a);
    InHandFacts(a);
    InvKept(a, VAsk);
    var v, b := DeviceDo(w, VAsk), Next(a, VAsk);
    AskUnit(w, a);
    IrqExact(w.ring, a.used, a.pc.delta);
    IndexAddRefines(w.ring, a.avail, a.pc.delta);
    GuestSame(w.guest, a, b);
    ContentSame(w, a, v, b);
    Whole(DeviceDo(w, VAsk), Next(a, VAsk));
  }

  /** On a split ring the question is always about one entry. */
  lemma AskUnit(w: World, a: State)
    requires Rel(w, a) && a.pc.AskIrq?
    ensures w.ring.SplitRing? ==> a.pc.delta == 1
  {
    hide DistinctIds, Balance, AvailFits, Kicks, Irqs, DeferredLink, InflightLink, ContentLink, GuestLink, Formed;
    Parts(w, a);
    UnitDelta(a, a.tape.returned[|a.tape.returned| - 1]);
  }

  lemma PackedElem(w: World, a: State)
    requires Rel(w, a) && DeviceReady(w, VPut) && w.ring.PackedRing? && Sound(a, VPut)
    ensures DeviceWrites(w, a, VPut)
  {
    hide Ledger, DistinctIds, Balance, PcFits, AvailFits, Kicks, Irqs, DeferredLink, InflightLink, P.Untaken, P.Stale,
         P.Fresh, P.Backed, P.ChainFrom, StageLink, Formed, PackedStage;
    Parts(w, a);
    InHandFacts(a);
    PackedSteps.ElemWritten(w.ring.desc, w.guest, a, w.pc.c.id, w.pc.len);
  }

  lemma SplitElem(w: World, a: State)
    requires Rel(w, a) && DeviceReady(w, VPut) && w.ring.SplitRing? && Sound(a, VPut)
    ensures DeviceWrites(w, a, VPut)
  {
    hide Ledger, DistinctIds, Balance, PcFits, AvailFits, Kicks, Irqs, DeferredLink, InflightLink, S.Untaken, S.Backed,
         SplitStage, StageLink, Formed;
    Parts(w, a);
    InHandFacts(a);
    MaskRefines(a.used, a.size);
    SplitSteps.ElemWritten(w.ring, w.guest, a, w.pc.c.id, w.pc.len);
  }

  lemma SimPut(w: World, a: State)
    requires Rel(w, a) && DeviceReady(w, VPut)
    ensures DeviceFollows(w, a, VPut)
  {
    hide Ledger, DistinctIds, Balance, PcFits, AvailFits, Kicks, Irqs, DeferredLink, InflightLink, Formed, ContentLink,
         RingLink, StageLink, Fits, PutElem;
    Parts(w, a);
    InvKept(a, VPut);
    if w.ring.PackedRing? { PackedElem(w, a); } else { SplitElem(w, a); }
    Whole(DeviceDo(w, VPut), Next(a, VPut));
  }

  lemma PackedVisible(w: World, a: State)
    requires Rel(w, a) && DeviceReady(w, VPublish) && w.ring.PackedRing? && Sound(a, VPublish)
    ensures DeviceWrites(w, a, VPublish)
  {
    hide Ledger, DistinctIds, Balance, PcFits, AvailFits, Kicks, Irqs, DeferredLink, InflightLink, P.Untaken, P.Stale,
         P.Fresh, P.Backed, P.ChainFrom, StageLink, Formed, PackedStage;
    Parts(w, a);
    PackedSteps.VisibleWritten(w.ring.desc, w.guest, a);
  }

  lemma SplitVisible(w: World, a: State)
    requires Rel(w, a) && DeviceReady(w, VPublish) && w.ring.SplitRing? && Sound(a, VPublish)
    ensures DeviceWrites(w, a, VPublish)
  {
    hide Ledger, DistinctIds, Balance, PcFits, AvailFits, Kicks, Irqs, DeferredLink, InflightLink, S.Untaken, S.Backed,
         SplitStage, StageLink, Formed;
    Parts(w, a);
    SplitSteps.VisibleWritten(w.ring, w.guest, a);
  }

  /** Returning a chain gives the driver nothing until it reads it. */
  lemma GuestReturned(g: Guest, a: State, b: State, i: nat, len: nat)
    requires a.size > 0 && Ledger(a.tape) && Ledger(b.tape) && GuestLink(g, a) && InflightLink(g.inflight, a.tape)
    requires i < |a.tape.fates| && b.tape == Return(a.tape, i, len)
    requires b.kind == a.kind && b.size == a.size && b.bell == a.bell
    ensures GuestLink(g, b) && InflightLink(g.inflight, b.tape)
  {
    var t, u := a.tape, b.tape;
    assert u.returned[..u.reclaimed] == t.returned[..t.reclaimed];
    ReturnedOutstanding(t, i, len);
    hide Ledger;
  }

  lemma ReturnedOutstanding(t: Tape, i: nat, len: nat)
    requires t.reclaimed <= |t.returned| && i < |t.fates|
    ensures forall j: nat :: Outstanding(t, j) <==> Outstanding(Return(t, i, len), j)
  {
    var u := Return(t, i, len);
    assert forall k :: 0 <= k < |t.returned| ==> u.returned[k] == t.returned[k];
  }

  lemma SimPublish(w: World, a: State)
    requires Rel(w, a) && DeviceReady(w, VPublish)
    ensures DeviceFollows(w, a, VPublish)
  {
    hide Ledger, DistinctIds, Balance, PcFits, AvailFits, Kicks, Irqs, DeferredLink, InflightLink, Formed, ContentLink,
         RingLink, GuestLink, StageLink, Fits, PutVisible;
    Parts(w, a);
    InHandFacts(a);
    InvKept(a, VPublish);
    var v, b, i := DeviceDo(w, VPublish), Next(a, VPublish), a.pc.c;
    if w.ring.PackedRing? { PackedVisible(w, a); } else { SplitVisible(w, a); }
    RingFacts(w.ring, a);
    UnitDelta(a, i);
    IndexAddRefines(w.ring, a.used, a.tape.posted[i].delta);
    DeferredSame(w.deferred, a.tape, b.tape);
    GuestReturned(w.guest, a, b, i, a.pc.len);
    FormedSame(a, b);
    Whole(DeviceDo(w, VPublish), Next(a, VPublish));
  }

  lemma FormedSame(a: State, b: State)
    requires Formed(a.tape, a.kind, a.size) && b.tape.posted == a.tape.posted && b.kind == a.kind && b.size == a.size
    ensures Formed(b.tape, b.kind, b.size)
  {
  }

  // ------------------------------------------------------------ driver: publishing

  lemma StageFacts(w: World, a: State)
    requires Rel(w, a) && w.guest.stage.Some?
    ensures Inv(a) && WellFormed(a.kind, a.size, w.guest.stage.value.chain) && StageLink(w.guest, a.kind, a.size)
    ensures w.guest.free + Slots(a.tape.posted) == BackTo(a.tape) + a.size
    ensures w.guest.stage.value.chain.delta <= w.guest.free
  {
    hide Ledger, DistinctIds, Balance, PcFits, AvailFits, Kicks, Irqs, DeferredLink, InflightLink, ContentLink,
         RingLink, Formed;
    Parts(w, a);
  }

  lemma SimBegin(w: World, a: State, chain: Chain)
    requires Rel(w, a) && DriverReady(w, DBegin(chain))
    ensures DriverFollows(w, a, DBegin(chain))
  {
    hide Ledger, DistinctIds, Balance, PcFits, AvailFits, Kicks, Irqs, DeferredLink, InflightLink, Formed, P.Untaken,
         P.Fresh, P.Backed, S.Untaken, S.Backed;
    Parts(w, a);
    Whole(DriverDo(w, DBegin(chain)), Next(a, DBegin(chain)));
  }

  lemma PackedTail(w: World, a: State, junk: nat)
    requires Rel(w, a) && DriverReady(w, DWrite(junk)) && w.ring.PackedRing? && Sound(a, DWrite(junk))
    ensures DriverWrites(w, a, DWrite(junk))
  {
    hide Ledger, DistinctIds, Balance, PcFits, AvailFits, Kicks, Irqs, DeferredLink, InflightLink, P.Untaken, P.Stale,
         P.Fresh, P.Backed, P.ChainFrom, Formed, Off, Wrap;
    Parts(w, a);
    StageFacts(w, a);
    var Stage(chain, done) := w.guest.stage.value;
    var j, tail := |chain.bufs| - 1 - done, Slots(a.tape.posted);
    AddRefines(tail, j, a.size);
    var d := PackedEntry(chain, j, Wrap(tail + j, a.size), if j + 1 == |chain.bufs| then chain.id else junk);
    PackedSteps.TailWritten(w.ring.desc, w.guest, DriverDo(w, DWrite(junk)).guest, a, d);
  }

  lemma SplitTail(w: World, a: State, junk: nat)
    requires Rel(w, a) && DriverReady(w, DWrite(junk)) && w.ring.SplitRing? && Sound(a, DWrite(junk))
    ensures DriverWrites(w, a, DWrite(junk))
  {
    hide Ledger, DistinctIds, Balance, PcFits, AvailFits, Kicks, Irqs, DeferredLink, InflightLink, S.Untaken, S.Backed,
         SplitStage, Formed, Off, U16, BitAnd, PowerOfTwo, NoRepeats, Apart, PcLink;
    Parts(w, a);
    StageFacts(w, a);
    if w.guest.stage.value.done < |w.guest.stage.value.chain.path| {
      SplitSteps.TableWritten(w.ring, w.guest, DriverDo(w, DWrite(junk)).guest, a);
    } else {
      SplitSteps.SplitCounts(a.tape, a.size);
      MaskRefines(|a.tape.posted|, a.size);
      SplitSteps.EntryWritten(w.ring, w.guest, DriverDo(w, DWrite(junk)).guest, a);
    }
  }

  lemma SimWrite(w: World, a: State, junk: nat)
    requires Rel(w, a) && DriverReady(w, DWrite(junk))
    ensures DriverFollows(w, a, DWrite(junk))
  {
    hide Ledger, DistinctIds, Balance, PcFits, AvailFits, Kicks, Irqs, DeferredLink, InflightLink, Formed, ContentLink,
         RingLink, Fits, StageWrite;
    Parts(w, a);
    RingFacts(w.ring, a);
    if w.ring.PackedRing? { PackedTail(w, a, junk); } else { SplitTail(w, a, junk); }
    Whole(DriverDo(w, DWrite(junk)), Next(a, DWrite(junk)));
  }

  lemma MayPostStaged(w: World, a: State, chain: Chain)
    requires Rel(w, a) && DriverReady(w, DPublish(chain))
    ensures Enabled(a, DPublish(chain))
  {
    hide DistinctIds, Balance, PcFits, AvailFits, Kicks, Irqs, DeferredLink, ContentLink, RingLink, Formed;
    Parts(w, a);
    StageFacts(w, a);
    forall i: nat | Outstanding(a.tape, i)
      ensures a.tape.posted[i].id != chain.id
    {
    }
  }

  lemma PackedHead(w: World, a: State, chain: Chain)
    requires Rel(w, a) && DriverReady(w, DPublish(chain)) && w.ring.PackedRing? && Sound(a, DPublish(chain))
    ensures DriverWrites(w, a, DPublish(chain))
  {
    hide Ledger, DistinctIds, Balance, PcFits, AvailFits, Kicks, Irqs, DeferredLink, InflightLink, P.Untaken, P.Stale,
         P.Fresh, P.Backed, P.ChainFrom, Formed, Off, Wrap, MayPost;
    Parts(w, a);
    StageFacts(w, a);
    PackedSteps.HeadWritten(w.ring.desc, w.guest, DriverDo(w, DPublish(chain)).guest, a, chain);
  }

  lemma SplitHead(w: World, a: State, chain: Chain)
    requires Rel(w, a) && DriverReady(w, DPublish(chain)) && w.ring.SplitRing? && Sound(a, DPublish(chain))
    ensures DriverWrites(w, a, DPublish(chain))
  {
    hide Ledger, DistinctIds, Balance, PcFits, AvailFits, Kicks, Irqs, DeferredLink, InflightLink, S.Untaken, S.Backed,
         SplitStage, Formed, Off, U16, MayPost, PowerOfTwo;
    Parts(w, a);
    StageFacts(w, a);
    SplitSteps.SplitCounts(a.tape, a.size);
    SplitSteps.IndexWritten(w.ring, w.guest, DriverDo(w, DPublish(chain)).guest, a, chain);
  }

  lemma GuestPublished(w: World, a: State, chain: Chain)
    requires Rel(w, a) && DriverReady(w, DPublish(chain)) && Sound(a, DPublish(chain))
    ensures GuestLink(DriverDo(w, DPublish(chain)).guest, Next(a, DPublish(chain)))
  {
    hide Ledger, DistinctIds, Balance, PcFits, AvailFits, Kicks, Irqs, DeferredLink, InflightLink, ContentLink,
         MayPost, Fits, PublishWrite, PcLink;
    Parts(w, a);
    var t := a.tape;
    StageFacts(w, a);
    PackedSteps.KnownReturned(a);
    SlotsAppend(t.posted, chain);
    SlotsBackPosted(t.posted, chain, t.returned[..t.reclaimed]);
    IndexAddRefines(w.ring, Slots(t.posted), chain.delta);
  }

  lemma InflightPublished(inflight: map<nat, Chain>, t: Tape, chain: Chain)
    requires InflightLink(inflight, t) && chain.id !in inflight
    requires t.reclaimed <= |t.returned| && Known(t.posted, t.returned)
    ensures InflightLink(inflight[chain.id := chain], t.(posted := t.posted + [chain]))
  {
    var m, u := inflight[chain.id := chain], t.(posted := t.posted + [chain]);
    forall i: nat | Outstanding(u, i)
      ensures u.posted[i].id in m && m[u.posted[i].id] == u.posted[i]
    {
      if i < |t.posted| { assert Outstanding(t, i); }
    }
    forall id | id in m
      ensures exists i: nat :: Outstanding(u, i) && u.posted[i].id == id
    {
      if id == chain.id {
        assert Outstanding(u, |t.posted|);
      } else {
        var i: nat :| Outstanding(t, i) && t.posted[i].id == id;
        assert Outstanding(u, i);
      }
    }
  }

  lemma DeferredPublished(deferred: map<nat, Chain>, t: Tape, chain: Chain)
    requires DeferredLink(deferred, t) && |t.fates| <= |t.posted|
    ensures DeferredLink(deferred, t.(posted := t.posted + [chain]))
  {
    var u := t.(posted := t.posted + [chain]);
    forall i: nat | IsParked(u, i)
      ensures u.posted[i].id in deferred && deferred[u.posted[i].id] == u.posted[i]
    {
      assert IsParked(t, i);
    }
    forall id | id in deferred
      ensures exists i: nat :: ParkedAs(u, id, i)
    {
      var i: nat :| ParkedAs(t, id, i);
      assert ParkedAs(u, id, i);
    }
  }

  lemma SimPost(w: World, a: State, chain: Chain)
    requires Rel(w, a) && DriverReady(w, DPublish(chain))
    ensures DriverFollows(w, a, DPublish(chain))
  {
    hide Ledger, DistinctIds, Balance, PcFits, AvailFits, Kicks, Irqs, DeferredLink, InflightLink, ContentLink,
         RingLink, GuestLink, Fits, PublishWrite, MayPost, NoRepeats, Apart;
    Parts(w, a);
    MayPostStaged(w, a, chain);
    InvKept(a, DPublish(chain));
    StageFacts(w, a);
    PackedSteps.KnownReturned(a);
    if w.ring.PackedRing? { PackedHead(w, a, chain); } else { SplitHead(w, a, chain); }
    GuestPublished(w, a, chain);
    InflightPublished(w.guest.inflight, a.tape, chain);
    DeferredPublished(w.deferred, a.tape, chain);
    Whole(DriverDo(w, DPublish(chain)), Next(a, DPublish(chain)));
  }

  // ------------------------------------------------------------ driver: reading back

  /** Reading back takes exactly the next returned chain out of the outstanding ones. */
  lemma ReclaimedOutstanding(t: Tape)
    requires Ledger(t) && t.reclaimed < |t.returned|
    ensures var i := t.returned[t.reclaimed];
            && Outstanding(t, i)
            && forall j: nat :: Outstanding(t.(reclaimed := t.reclaimed + 1), j) <==> Outstanding(t, j) && j != i
  {
  }

  lemma InflightReclaimed(inflight: map<nat, Chain>, t: Tape)
    requires Ledger(t) && DistinctIds(t) && InflightLink(inflight, t) && t.reclaimed < |t.returned|
    ensures var i := t.returned[t.reclaimed];
            t.posted[i].id in inflight && inflight[t.posted[i].id] == t.posted[i]
            && InflightLink(inflight - {t.posted[i].id}, t.(reclaimed := t.reclaimed + 1))
  {
    ReclaimedOutstanding(t);
    hide Ledger, Outstanding;
    var i, u := t.returned[t.reclaimed], t.(reclaimed := t.reclaimed + 1);
    var m := inflight - {t.posted[i].id};
    forall id | id in m
      ensures exists j: nat :: Outstanding(u, j) && u.posted[j].id == id
    {
      var j: nat :| Outstanding(t, j) && t.posted[j].id == id;
      assert Outstanding(u, j);
    }
  }

  lemma BackedWeaker(w: World, a: State, v: World, b: State)
    requires Ledger(a.tape) && Ledger(b.tape) && ContentLink(w, a)
    requires v.ring == w.ring && v.guest.stage == w.guest.stage
    requires b == a.(tape := a.tape.(reclaimed := a.tape.reclaimed + 1))
    ensures ContentLink(v, b)
  {
    hide Ledger, P.Untaken, P.Stale, P.Fresh, S.Untaken, P.ChainFrom, P.BackAt;
  }

  lemma GuestReclaimed(w: World, a: State)
    requires a.tape.reclaimed < |a.tape.returned| && a.tape.returned[a.tape.reclaimed] < |a.tape.posted|
             && Fits(w.ring, w.guest.used)
    requires var t := a.tape; var i := t.returned[t.reclaimed];
             |t.lens| == |t.returned| && UsedAt(w.ring, w.guest.used) == BackElem(t, t.reclaimed)
             && t.posted[i].id in w.guest.inflight && w.guest.inflight[t.posted[i].id] == t.posted[i]
    requires DriverReady(w, DReclaim) && Enabled(a, DReclaim) && Inv(Next(a, DReclaim)) && Rel(w, a)
    ensures GuestLink(DriverDo(w, DReclaim).guest, Next(a, DReclaim))
  {
    hide Ledger, DistinctIds, Balance, PcFits, AvailFits, Kicks, Irqs, DeferredLink, InflightLink, ContentLink, Fits,
         UsedAt, SeesUsed, PcLink, RingLink, Laid, Encode, Formed, SlotsBack, Slots;
    Parts(w, a);
    RingFacts(w.ring, a);
    var t := a.tape;
    var i := t.returned[t.reclaimed];
    PackedSteps.KnownReturned(a);
    DeltaFits(a, i);
    UnitDelta(a, i);
    SlotsBackPrefix(t.posted, t.returned, t.reclaimed);
    IndexAddRefines(w.ring, BackTo(t), t.posted[i].delta);
  }

  lemma DeltaFits(a: State, i: nat)
    requires Inv(a) && i < |a.tape.posted|
    ensures 0 < a.tape.posted[i].delta <= a.size
  {
    hide DistinctIds, PcFits, AvailFits, Kicks, Irqs;
  }

  /** Publishing and reading back never confuse the stage: what is free only grows. */
  lemma SimReclaim(w: World, a: State)
    requires Rel(w, a) && DriverReady(w, DReclaim)
    ensures DriverFollows(w, a, DReclaim)
  {
    hide Ledger, DistinctIds, Balance, PcFits, AvailFits, Kicks, Irqs, DeferredLink, InflightLink, ContentLink,
         RingLink, GuestLink, Fits, SeesUsed, UsedAt, Apart, NoRepeats;
    Parts(w, a);
    UsedTruth(w, a);
    InvKept(a, DReclaim);
    PackedSteps.KnownReturned(a);
    InflightReclaimed(w.guest.inflight, a.tape);
    var v, b := DriverDo(w, DReclaim), Next(a, DReclaim);
    GuestReclaimed(w, a);
    BackedWeaker(w, a, v, b);
    RingSame(w.ring, a, b);
    DeferredSame(w.deferred, a.tape, b.tape);
    FormedSame(a, b);
    Whole(DriverDo(w, DReclaim), Next(a, DReclaim));
  }

  // ---------------------------------------------------------------- all steps

  /** Every step on memory is the protocol's step with the same label. */
  lemma Simulation(w: World, a: State, l: Label)
    requires Rel(w, a) && Ready(w, l)
    ensures Enabled(a, l) && Rel(Do(w, l), Next(a, l))
  {
    hide Rel, DeviceReady, DriverReady, DeviceDo, DriverDo, Enabled;
    match l
    case DBegin(chain) => SimBegin(w, a, chain);
    case DWrite(junk) => SimWrite(w, a, junk);
    case DPublish(chain) => SimPost(w, a, chain);
    case DCheck => SimCheck(w, a);
    case DKick => SimKick(w, a);
    case DReclaim => SimReclaim(w, a);
    case DArm(arm) => SimArm(w, a, arm);
    case VStart => SimControl(w, a, l);
    case VTop => SimTop(w, a);
    case VDisable => SimDisable(w, a);
    case VFetch => SimFetch(w, a);
    case VFetchFail => SimFetchFail(w, a);
    case VOp(status) => if status.Deferred? { SimPark(w, a); } else { SimOpOther(w, a, status); }
    case VPut => SimPut(w, a);
    case VPublish => SimPublish(w, a);
    case VAsk => SimAsk(w, a);
    case VEnable => SimEnable(w, a);
    case VLeave => SimControl(w, a, l);
    case VLate(id) => SimLate(w, a, id);
  }
}
