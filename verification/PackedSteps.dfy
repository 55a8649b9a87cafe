/**
 The packed ring's contents through the four kinds of write that reach its slots.
 */
module PackedSteps {
  import opened Wrappers
  import opened RingIndex
  import opened QueueSpec
  import opened QueueTheorems
  import opened Rings
  import opened QueueMachine
  import opened PackedContent
  import opened QueueRefinement

  /** Chains still readable start at or after `used`. */
  lemma FirstAfterUsed(a: State)
    requires Inv(a)
    ensures First(a) <= |a.tape.posted|
    ensures a.used <= Slots(a.tape.posted[..First(a)])
  {
    hide DistinctIds, Kicks, Irqs, AvailFits, Balance;
    Order(a.tape, a.size, a.used);
    if First(a) < |a.tape.fates| {
      OrderInHand(a.tape, a.size, a.used, a.pc.c);
      SlotsPrefix(a.tape.posted, First(a));
    }
  }

  // ------------------------------------------------------- the device's writes

  /** A write to the slot at `used` whose availability bit is not the next lap's. */
  lemma WriteAtUsed(desc: seq<PackedDesc>, d: PackedDesc, g: Guest, a: State)
    requires Inv(a) && Formed(a.tape, Packed, a.size) && PackedLink(desc, g, a) && HasInHand(a.pc) && !a.pc.Running?
    requires StageLink(g, Packed, a.size) && g.free + Slots(a.tape.posted) == BackTo(a.tape) + a.size
    requires d.flag.avail != Wrap(a.used + a.size, a.size)
    ensures var e := desc[Off(a.used, a.size) := d];
            && Untaken(e, a.tape.posted, |a.tape.fates|)
            && PackedStage(e, g, Slots(a.tape.posted))
            && Fresh(e, a.used + 1, Slots(a.tape.posted))
            && Backed(e, a.tape)
  {
    hide DistinctIds, Kicks, Irqs, AvailFits, Balance, Untaken, Fresh, Backed, PackedStage, Stale, ChainFrom;
    var t, size, tail, u := a.tape, a.size, Slots(a.tape.posted), a.used;
    Order(t, size, u);
    OrderInHand(t, size, u, a.pc.c);
    assert t.posted[a.pc.c].delta > 0 by { assert WellFormed(Packed, size, t.posted[a.pc.c]); }
    UntakenKept(desc, u, d, t.posted, |t.fates|);
    BackedKept(desc, u, d, t, size, u);
    FreshLater(desc, u, tail);
    FreshKept(desc, u, d, u + 1, tail);
    StageKept(desc, d, g, u, tail);
  }

  lemma FreshLater(desc: seq<PackedDesc>, u: nat, tail: nat)
    requires |desc| > 0 && Fresh(desc, u, tail)
    ensures Fresh(desc, u + 1, tail)
  {
  }

  /** A write below the tail leaves what is staged alone. */
  lemma StageKept(desc: seq<PackedDesc>, d: PackedDesc, g: Guest, u: nat, tail: nat)
    requires |desc| > 0 && PackedStage(desc, g, tail) && u < tail <= u + |desc|
    requires StageLink(g, Packed, |desc|) && tail + g.free <= u + |desc|
    requires d.flag.avail != Wrap(u + |desc|, |desc|)
    ensures PackedStage(desc[Off(u, |desc|) := d], g, tail)
  {
    hide Stale, ChainFrom;
    var size := |desc|;
    assert Off(u + size, size) == Off(u, size);
    StaleKept(desc, u + size, d, tail, StageLo(g, tail), StageHi(g, tail));
    if g.stage.Some? {
      var Stage(chain, done) := g.stage.value;
      ChainKept(desc, u, d, chain, |chain.bufs| - done, tail);
    }
  }

  /** The first half of `set_used` leaves everything but the element at `used` alone. */
  lemma ElemWritten(desc: seq<PackedDesc>, g: Guest, a: State, id: nat, len: nat)
    requires Inv(a) && Formed(a.tape, Packed, a.size) && PackedLink(desc, g, a) && a.pc.Writing?
    requires a.pc.c < |a.tape.posted| && id == a.tape.posted[a.pc.c].id && len == a.pc.len
    requires StageLink(g, Packed, a.size) && g.free + Slots(a.tape.posted) == BackTo(a.tape) + a.size
    requires Enabled(a, VPut)
    ensures var o := Off(a.used, a.size); PackedLink(desc[o := desc[o].(id := id, len := len)], g, Next(a, VPut))
  {
    hide DistinctIds, Kicks, Irqs, AvailFits, Balance, Untaken, Backed, Stale, ChainFrom;
    var t, size, tail, u := a.tape, a.size, Slots(a.tape.posted), a.used;
    var o := Off(u, size);
    var d := desc[o].(id := id, len := len);
    Order(t, size, u);
    OrderInHand(t, size, u, a.pc.c);
    assert WellFormed(Packed, size, t.posted[a.pc.c]);
    StaleBit(desc, tail, StageLo(g, tail), StageHi(g, tail), u + size);
    WriteAtUsed(desc, d, g, a);
    FreshAtUsed(desc, desc[o := d], u, tail);
  }

  lemma StaleBit(desc: seq<PackedDesc>, tail: nat, lo: nat, hi: nat, q: nat)
    requires |desc| > 0 && Stale(desc, tail, lo, hi) && tail <= q < tail + |desc| && !(lo <= q < hi)
    ensures desc[Off(q, |desc|)].flag.avail != Wrap(q, |desc|)
  {
  }

  lemma FreshAtUsed(desc: seq<PackedDesc>, e: seq<PackedDesc>, u: nat, tail: nat)
    requires |desc| == |e| > 0 && Fresh(desc, u, tail) && Fresh(e, u + 1, tail) && u < tail
    requires e[Off(u, |e|)].flag == desc[Off(u, |e|)].flag
    ensures Fresh(e, u, tail)
  {
    assert desc[Off(u, |desc|)].flag.used != Wrap(u, |desc|);
  }

  /** The second half of `set_used`: a returned slot is never taken for an available one. */
  lemma VisibleWritten(desc: seq<PackedDesc>, g: Guest, a: State)
    requires Inv(a) && Formed(a.tape, Packed, a.size) && PackedLink(desc, g, a) && a.pc.Publishing?
    requires StageLink(g, Packed, a.size) && g.free + Slots(a.tape.posted) == BackTo(a.tape) + a.size
    requires Enabled(a, VPublish) && Inv(Next(a, VPublish))
    ensures var o := Off(a.used, a.size);
            PackedLink(desc[o := desc[o].(flag := SetFlagUsed(desc[o].flag, Wrap(a.used, a.size)))], g,
                Next(a, VPublish))
  {
    hide DistinctIds, Kicks, Irqs, AvailFits, Untaken, PackedStage, Balance, Backed, Fresh, BackAt;
    var t, u, o := a.tape, a.used, Off(a.used, a.size);
    var d := desc[o].(flag := SetFlagUsed(desc[o].flag, Wrap(u, a.size)));
    var e := desc[o := d];
    WriteAtUsed(desc, d, g, a);
    assert WellFormed(Packed, a.size, t.posted[a.pc.c]);
    FreshFrom(e, u + 1, u + t.posted[a.pc.c].delta, Slots(t.posted));
    BackAtSet(desc, u, UsedElem(t.posted[a.pc.c].id, a.pc.len));
    BackedGrows(e, t, a.size, u, a.pc.c, a.pc.len);
  }

  lemma FreshFrom(desc: seq<PackedDesc>, from: nat, later: nat, tail: nat)
    requires |desc| > 0 && Fresh(desc, from, tail) && from <= later
    ensures Fresh(desc, later, tail)
  {
  }

  lemma BackAtSet(desc: seq<PackedDesc>, p: nat, e: UsedElem)
    requires |desc| > 0 && ElemAt(desc, p) == e
    ensures var o := Off(p, |desc|);
            BackAt(desc[o := desc[o].(flag := SetFlagUsed(desc[o].flag, Wrap(p, |desc|)))], p, e)
  {
  }

  lemma BackedGrows(desc: seq<PackedDesc>, t: Tape, size: nat, used: nat, i: nat, len: nat)
    requires |desc| == size > 0 && Ledger(t) && Balance(t, size, used) && Backed(desc, t) && i < |t.fates|
    requires BackAt(desc, used, UsedElem(t.posted[i].id, len))
    requires Known(t.posted, Return(t, i, len).returned) && |t.lens| == |t.returned|
    ensures Backed(desc, Return(t, i, len))
  {
    hide Ledger, BackAt;
    var v := Return(t, i, len);
    assert forall k :: 0 <= k < |t.returned| ==> v.returned[k] == t.returned[k] && v.lens[k] == t.lens[k];
    forall k | v.reclaimed <= k < |v.returned|
      ensures BackAt(desc, SlotsBack(v.posted, v.returned[..k]), BackElem(v, k))
    {
      assert v.returned[..k] == t.returned[..k];
      if k == |t.returned| {
        assert t.returned[..k] == t.returned;
      }
    }
  }

  // ------------------------------------------------------- the driver's writes

  lemma StageExtended(desc: seq<PackedDesc>, chain: Chain, done: nat, tail: nat, d: PackedDesc)
    requires done + 1 < |chain.bufs| <= |desc|
    requires Stale(desc, tail, tail + |chain.bufs| - done, tail + |chain.bufs|)
    requires ChainFrom(desc, chain, |chain.bufs| - done, tail)
    requires var j := |chain.bufs| - 1 - done;
             && d == PackedEntry(chain, j, Wrap(tail + j, |desc|), d.id)
             && (j + 1 == |chain.bufs| ==> d.id == chain.id)
    ensures var j := |chain.bufs| - 1 - done;
            var e := desc[Off(tail + j, |desc|) := d];
            && Stale(e, tail, tail + j, tail + |chain.bufs|)
            && ChainFrom(e, chain, j, tail)
  {
    var j := |chain.bufs| - 1 - done;
    var e := desc[Off(tail + j, |desc|) := d];
    assert Stale(desc, tail, tail + j, tail + |chain.bufs|);
    StaleKept(desc, tail + j, d, tail, tail + j, tail + |chain.bufs|);
    ChainKept(desc, tail + j, d, chain, j + 1, tail);
    assert SlotHolds(e, chain, j, tail);
  }

  /** A write into the free slots, `tail <= w`, disturbs no chain, taken, untaken or returned. */
  lemma WriteInFree(desc: seq<PackedDesc>, d: PackedDesc, w: nat, a: State)
    requires Inv(a) && Formed(a.tape, Packed, a.size) && |desc| == a.size
    requires Untaken(desc, a.tape.posted, First(a)) && Fresh(desc, a.used, Slots(a.tape.posted)) && Backed(desc, a.tape)
    requires Slots(a.tape.posted) <= w < BackTo(a.tape) + a.size
    ensures var e := desc[Off(w, a.size) := d];
            && Untaken(e, a.tape.posted, First(a))
            && Fresh(e, a.used, Slots(a.tape.posted))
            && Backed(e, a.tape)
            && (a.pc.Publishing? ==> e[Off(a.used, a.size)] == desc[Off(a.used, a.size)])
  {
    hide DistinctIds, Kicks, Irqs, AvailFits, Balance, Untaken, Fresh, Backed, SlotHolds;
    var t, size := a.tape, a.size;
    Order(t, size, a.used);
    FirstAfterUsed(a);
    UntakenKept(desc, w, d, t.posted, First(a));
    FreshKept(desc, w, d, a.used, Slots(t.posted));
    BackedKept(desc, w, d, t, size, a.used);
    if a.pc.Publishing? {
      OrderInHand(t, size, a.used, a.pc.c);
      assert WellFormed(Packed, size, t.posted[a.pc.c]);
      SlotKept(desc, w, d, a.used);
    }
  }

  /** A descriptor written behind the head disturbs nothing the device may read. */
  lemma TailWritten(desc: seq<PackedDesc>, g: Guest, h: Guest, a: State, d: PackedDesc)
    requires Inv(a) && Formed(a.tape, Packed, a.size) && PackedLink(desc, g, a)
    requires StageLink(g, Packed, a.size) && g.free + Slots(a.tape.posted) == BackTo(a.tape) + a.size
    requires g.stage.Some? && g.stage.value.done + 1 < |g.stage.value.chain.bufs|
    requires h.stage == Some(Stage(g.stage.value.chain, g.stage.value.done + 1))
    requires var chain := g.stage.value.chain;
             var j := |chain.bufs| - 1 - g.stage.value.done;
             && d == PackedEntry(chain, j, Wrap(Slots(a.tape.posted) + j, a.size), d.id)
             && (j + 1 == |chain.bufs| ==> d.id == chain.id)
    ensures var j := |g.stage.value.chain.bufs| - 1 - g.stage.value.done;
            PackedLink(desc[Off(Slots(a.tape.posted) + j, a.size) := d], h, a)
  {
    hide Ledger, DistinctIds, Kicks, Irqs, AvailFits, Balance, PcFits, Untaken, Fresh, Backed, Stale, ChainFrom;
    var tail := Slots(a.tape.posted);
    var Stage(chain, done) := g.stage.value;
    StageExtended(desc, chain, done, tail, d);
    WriteInFree(desc, d, tail + |chain.bufs| - 1 - done, a);
  }

  /** The head written last makes the whole chain available, and nothing else. */
  lemma HeadStage(desc: seq<PackedDesc>, chain: Chain, tail: nat)
    requires 0 < |chain.bufs| <= |desc|
    requires Stale(desc, tail, tail + 1, tail + |chain.bufs|) && ChainFrom(desc, chain, 1, tail)
    ensures var e := desc[Off(tail, |desc|) := PackedEntry(chain, 0, Wrap(tail, |desc|), chain.id)];
            ChainFrom(e, chain, 0, tail) && Stale(e, tail + |chain.bufs|, 0, 0)
  {
    var size, d := |desc|, PackedEntry(chain, 0, Wrap(tail, |desc|), chain.id);
    var e := desc[Off(tail, size) := d];
    assert ChainFrom(e, chain, 0, tail) by {
      ChainKept(desc, tail, d, chain, 1, tail);
      assert SlotHolds(e, chain, 0, tail);
    }
    StaleNextLap(desc, e, chain, tail, d);
  }

  lemma StaleNextLap(desc: seq<PackedDesc>, e: seq<PackedDesc>, chain: Chain, tail: nat, d: PackedDesc)
    requires 0 < |chain.bufs| <= |desc|
    requires Stale(desc, tail, tail + 1, tail + |chain.bufs|)
    requires e == desc[Off(tail, |desc|) := d] && ChainFrom(e, chain, 0, tail)
    ensures Stale(e, tail + |chain.bufs|, 0, 0)
  {
    hide ChainFrom;
    var size := |desc|;
    forall q: nat | tail + |chain.bufs| <= q < tail + |chain.bufs| + size
      ensures e[Off(q, size)].flag.avail != Wrap(q, size)
    {
      if q < tail + size {
        SlotKept(desc, tail, d, q);
      } else {
        HeldBit(e, chain, tail, q - size);
      }
    }
  }

  lemma HeldBit(desc: seq<PackedDesc>, chain: Chain, p: nat, q: nat)
    requires |desc| > 0 && ChainFrom(desc, chain, 0, p) && p <= q < p + |chain.bufs|
    ensures desc[Off(q, |desc|)].flag.avail == Wrap(q, |desc|)
    ensures desc[Off(q + |desc|, |desc|)].flag.avail != Wrap(q + |desc|, |desc|)
  {
    assert SlotHolds(desc, chain, q - p, p);
  }

  lemma FreshGrows(desc: seq<PackedDesc>, chain: Chain, used: nat, tail: nat)
    requires |desc| > 0 && Fresh(desc, used, tail) && ChainFrom(desc, chain, 0, tail)
    ensures Fresh(desc, used, tail + |chain.bufs|)
  {
    forall q: nat | used <= q < tail + |chain.bufs|
      ensures desc[Off(q, |desc|)].flag.used != Wrap(q, |desc|)
    {
      if q >= tail { assert SlotHolds(desc, chain, q - tail, tail); }
    }
  }

  lemma UntakenGrows(desc: seq<PackedDesc>, posted: seq<Chain>, chain: Chain, first: nat)
    requires |desc| > 0 && Untaken(desc, posted, first) && ChainFrom(desc, chain, 0, Slots(posted))
    ensures Untaken(desc, posted + [chain], first)
  {
    var all := posted + [chain];
    forall i | first <= i < |all|
      ensures ChainFrom(desc, all[i], 0, Slots(all[..i]))
    {
      if i < |posted| { assert all[..i] == posted[..i]; } else { assert all[..i] == posted; }
    }
  }

  lemma BackedPosted(desc: seq<PackedDesc>, t: Tape, chain: Chain)
    requires |desc| > 0 && Known(t.posted, t.returned) && |t.lens| == |t.returned| && Backed(desc, t)
    ensures Known(t.posted + [chain], t.returned)
    ensures Backed(desc, t.(posted := t.posted + [chain]))
  {
    var u := t.(posted := t.posted + [chain]);
    forall k | u.reclaimed <= k < |u.returned|
      ensures BackAt(desc, SlotsBack(u.posted, u.returned[..k]), BackElem(u, k))
    {
      SlotsBackPosted(t.posted, chain, t.returned[..k]);
    }
  }

  lemma HeadWritten(desc: seq<PackedDesc>, g: Guest, h: Guest, a: State, chain: Chain)
    requires Inv(a) && Formed(a.tape, Packed, a.size) && PackedLink(desc, g, a)
    requires StageLink(g, Packed, a.size) && g.free + Slots(a.tape.posted) == BackTo(a.tape) + a.size
    requires |chain.bufs| > 0 && g.stage == Some(Stage(chain, |chain.bufs| - 1)) && h.stage.None?
    requires Enabled(a, DPublish(chain)) && Inv(Next(a, DPublish(chain)))
    ensures var tail := Slots(a.tape.posted);
            var d := PackedEntry(chain, 0, Wrap(tail, a.size), chain.id);
            PackedLink(desc[Off(tail, a.size) := d], h, Next(a, DPublish(chain)))
  {
    hide Ledger, DistinctIds, Kicks, Irqs, AvailFits, Balance, PcFits, Untaken, Fresh, Backed, Stale, ChainFrom;
    hide Off, Wrap, PackedEntry, MayPost;
    var tail := Slots(a.tape.posted);
    var d := PackedEntry(chain, 0, Wrap(tail, a.size), chain.id);
    var e := desc[Off(tail, a.size) := d];
    HeadStage(desc, chain, tail);
    WriteInFree(desc, d, tail, a);
    SlotsAppend(a.tape.posted, chain);
    FreshGrows(e, chain, a.used, tail);
    UntakenGrows(e, a.tape.posted, chain, First(a));
    KnownReturned(a);
    BackedPosted(e, a.tape, chain);
  }

  lemma KnownReturned(a: State)
    requires Inv(a)
    ensures Known(a.tape.posted, a.tape.returned) && a.tape.reclaimed <= |a.tape.returned| == |a.tape.lens|
    ensures |a.tape.fates| <= |a.tape.posted|
    ensures HasInHand(a.pc) ==> a.pc.c < |a.tape.posted|
  {
    hide DistinctIds, Kicks, Irqs, AvailFits, Balance;
  }
}
