/**
 The split ring's areas through the writes of the driver and of the device.
 */
module SplitSteps {
  import opened Wrappers
  import opened RingIndex
  import opened QueueSpec
  import opened QueueTheorems
  import opened Rings
  import opened QueueMachine
  import opened SplitContent
  import opened QueueRefinement
  import PackedSteps

  lemma SplitCounts(t: Tape, size: nat)
    requires Ledger(t) && Formed(t, Split, size)
    ensures Slots(t.posted) == |t.posted|
    ensures Slots(t.posted[..|t.fates|]) == |t.fates|
    ensures |t.fates| > 0 ==> Slots(t.posted[..|t.fates| - 1]) == |t.fates| - 1
    ensures BackTo(t) == t.reclaimed
    ensures SlotsBack(t.posted, t.returned) == |t.returned|
  {
    assert forall i :: 0 <= i < |t.posted| ==> WellFormed(Split, size, t.posted[i]);
    UnitSlots(t.posted);
    UnitSlots(t.posted[..|t.fates|]);
    UnitBack(t.posted, t.returned[..t.reclaimed]);
    UnitBack(t.posted, t.returned);
    if |t.fates| > 0 { UnitSlots(t.posted[..|t.fates| - 1]); }
  }

  /** Counts of a split ring, in order and within one lap. */
  lemma SplitOrder(a: State)
    requires Inv(a) && Formed(a.tape, Split, a.size)
    ensures a.used == |a.tape.returned|
    ensures a.tape.reclaimed <= a.used <= First(a) <= |a.tape.posted| <= a.tape.reclaimed + a.size
    ensures HasInHand(a.pc) ==> a.used < |a.tape.fates|
  {
    var t := a.tape;
    assert a.used == SlotsBack(t.posted, t.returned) by { hide Ledger, DistinctIds, Kicks, Irqs, AvailFits, PcFits; }
    hide DistinctIds, Kicks, Irqs, AvailFits, Balance;
    SplitCounts(t, a.size);
    Order(t, a.size, a.used);
    PackedSteps.FirstAfterUsed(a);
    if HasInHand(a.pc) {
      OrderInHand(t, a.size, a.used, a.pc.c);
      assert WellFormed(Split, a.size, t.posted[a.pc.c]);
    }
  }

  lemma UntakenOutstanding(a: State, i: nat)
    requires Inv(a) && First(a) <= i < |a.tape.posted|
    ensures Outstanding(a.tape, i)
  {
    hide DistinctIds, Kicks, Irqs, AvailFits, Balance;
  }

  /** A staged chain shares no descriptor with a chain the device may still read. */
  lemma StageApart(g: Guest, a: State, i: nat, j: nat)
    requires Inv(a) && InflightLink(g.inflight, a.tape) && StageLink(g, Split, a.size) && g.stage.Some?
    requires First(a) <= i < |a.tape.posted| && j < |g.stage.value.chain.path|
    ensures g.stage.value.chain.path[j] !in a.tape.posted[i].path
  {
    hide Inv;
    UntakenOutstanding(a, i);
    assert Apart(g.stage.value.chain.path, g.inflight[a.tape.posted[i].id].path);
  }

  lemma StageClear(g: Guest, a: State, j: nat)
    requires Inv(a) && InflightLink(g.inflight, a.tape) && StageLink(g, Split, a.size) && g.stage.Some?
    requires j < |g.stage.value.chain.path|
    ensures forall i :: First(a) <= i < |a.tape.posted| ==> g.stage.value.chain.path[j] !in a.tape.posted[i].path
  {
    hide Inv, StageLink, InflightLink;
    forall i | First(a) <= i < |a.tape.posted| ensures g.stage.value.chain.path[j] !in a.tape.posted[i].path {
      StageApart(g, a, i, j);
    }
  }

  // ------------------------------------------------------- the driver's writes

  lemma TableWritten(r: Ring, g: Guest, h: Guest, a: State)
    requires Inv(a) && r.SplitRing? && Laid(r) && r.size == a.size && SplitLink(r, g, a)
             && InflightLink(g.inflight, a.tape)
    requires StageLink(g, Split, a.size) && g.stage.Some? && g.stage.value.done < |g.stage.value.chain.path|
    requires h.stage == Some(Stage(g.stage.value.chain, g.stage.value.done + 1))
    ensures var Stage(chain, done) := g.stage.value;
            chain.path[done] < |r.table| && |chain.bufs| == |chain.path|
            && SplitLink(r.(table := r.table[chain.path[done] := SplitEntry(chain, done)]), h, a)
  {
    hide Inv, InflightLink, Untaken, Backed;
    var Stage(chain, done) := g.stage.value;
    StageClear(g, a, done);
    UntakenKeptTable(r.table, r.availRing, a.tape.posted, First(a), chain.path[done], SplitEntry(chain, done));
  }

  lemma EntryWritten(r: Ring, g: Guest, h: Guest, a: State)
    requires Inv(a) && r.SplitRing? && Laid(r) && r.size == a.size && SplitLink(r, g, a)
             && Formed(a.tape, Split, a.size)
    requires StageLink(g, Split, a.size) && g.stage.Some? && g.stage.value.done == |g.stage.value.chain.path|
    requires g.free + Slots(a.tape.posted) == BackTo(a.tape) + a.size
    requires h.stage == Some(Stage(g.stage.value.chain, g.stage.value.done + 1))
    ensures SplitLink(r.(availRing := r.availRing[Off(|a.tape.posted|, a.size) := g.stage.value.chain.id]), h, a)
  {
    hide DistinctIds, Balance, Kicks, Irqs, PcFits, AvailFits, Ledger, InflightLink, Untaken, Backed, Formed, U16;
    SplitOrder(a);
    SplitCounts(a.tape, a.size);
    UntakenKeptRing(r.table, r.availRing, a.tape.posted, First(a), g.stage.value.chain.id);
  }

  lemma HoldsAll(table: seq<SplitDesc>, chain: Chain)
    requires |chain.bufs| == |chain.path| && TableHolds(table, chain, |chain.path| + 1)
    ensures TableHolds(table, chain, |chain.path|)
  {
  }

  lemma IndexWritten(r: Ring, g: Guest, h: Guest, a: State, chain: Chain)
    requires Inv(a) && r.SplitRing? && Laid(r) && r.size == a.size && SplitLink(r, g, a)
    requires StageLink(g, Split, a.size) && g.stage == Some(Stage(chain, |chain.path| + 1)) && h.stage.None?
    requires Enabled(a, DPublish(chain)) && Inv(Next(a, DPublish(chain)))
    ensures SplitLink(r.(availIdx := (U16(|a.tape.posted|) + 1) % U16_SPAN), h, Next(a, DPublish(chain)))
  {
    hide Inv, Ledger, MayPost, Untaken, Backed, U16, NoRepeats, Apart, TableHolds, Off, Slots, SlotsBack;
    PackedSteps.KnownReturned(a);
    U16Next(|a.tape.posted|);
    HoldsAll(r.table, chain);
    UntakenGrows(r.table, r.availRing, a.tape.posted, chain, First(a));
    BackedPosted(r.usedRing, a.tape, chain);
  }

  // ------------------------------------------------------- the device's writes

  lemma ElemWritten(r: Ring, g: Guest, a: State, id: nat, len: nat)
    requires Inv(a) && r.SplitRing? && Laid(r) && r.size == a.size && SplitLink(r, g, a)
             && Formed(a.tape, Split, a.size)
    requires a.pc.Writing? && a.pc.c < |a.tape.posted| && id == a.tape.posted[a.pc.c].id && len == a.pc.len
             && Enabled(a, VPut)
    ensures SplitLink(r.(usedRing := r.usedRing[Off(a.used, a.size) := UsedElem(id, len)]), g, Next(a, VPut))
  {
    hide Inv, Ledger, Untaken, Backed, Formed, U16, TableHolds;
    SplitOrder(a);
    PackedSteps.KnownReturned(a);
    BackedKept(r.usedRing, a.tape, UsedElem(id, len));
  }

  lemma VisibleWritten(r: Ring, g: Guest, a: State)
    requires Inv(a) && r.SplitRing? && Laid(r) && r.size == a.size && SplitLink(r, g, a)
             && Formed(a.tape, Split, a.size)
    requires a.pc.Publishing? && Enabled(a, VPublish) && Inv(Next(a, VPublish))
    ensures SplitLink(r.(usedIdx := (U16(a.used) + 1) % U16_SPAN), g, Next(a, VPublish))
  {
    hide Inv, Ledger, Untaken, Formed, Backed, U16, TableHolds;
    SplitOrder(a);
    PackedSteps.KnownReturned(a);
    U16Next(a.used);
    BackedGrows(r.usedRing, a.tape, a.pc.c, a.pc.len);
  }
}
