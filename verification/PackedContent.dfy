/**
 What a packed ring's slots hold, position by position, and which of it survives
 each kind of write.
 */
module PackedContent {
  import opened Wrappers
  import opened RingIndex
  import opened QueueSpec
  import opened QueueTheorems
  import opened Rings
  import opened QueueMachine

  /** Slot `p + j` holds descriptor `j` of a chain published from position `p`. */
  ghost predicate SlotHolds(desc: seq<PackedDesc>, chain: Chain, j: nat, p: nat)
    requires |desc| > 0 && j < |chain.bufs|
  {
    var d := desc[Off(p + j, |desc|)];
    d == PackedEntry(chain, j, Wrap(p + j, |desc|), d.id) && (j + 1 == |chain.bufs| ==> d.id == chain.id)
  }

  ghost predicate ChainFrom(desc: seq<PackedDesc>, chain: Chain, from: nat, p: nat)
    requires |desc| > 0
  {
    forall j :: from <= j < |chain.bufs| ==> SlotHolds(desc, chain, j, p)
  }

  /** Chains not yet taken are in the ring as they were written. */
  ghost predicate Untaken(desc: seq<PackedDesc>, posted: seq<Chain>, first: nat)
    requires |desc| > 0
  {
    forall i :: first <= i < |posted| ==> ChainFrom(desc, posted[i], 0, Slots(posted[..i]))
  }

  /** Slots from `tail` on still carry the previous lap's availability bit, unless staged. */
  ghost predicate Stale(desc: seq<PackedDesc>, tail: nat, lo: nat, hi: nat)
    requires |desc| > 0
  {
    forall q: nat :: tail <= q < tail + |desc| && !(lo <= q < hi) ==> desc[Off(q, |desc|)].flag.avail != Wrap(q, |desc|)
  }

  /** Slots from `used` to `tail` do not look returned. */
  ghost predicate Fresh(desc: seq<PackedDesc>, used: nat, tail: nat)
    requires |desc| > 0
  {
    forall q: nat :: used <= q < tail ==> desc[Off(q, |desc|)].flag.used != Wrap(q, |desc|)
  }

  ghost predicate BackAt(desc: seq<PackedDesc>, p: nat, e: UsedElem)
    requires |desc| > 0
  {
    FlagIsUsed(desc[Off(p, |desc|)].flag, Wrap(p, |desc|)) && ElemAt(desc, p) == e
  }

  /** Returned chains the driver has not read are where it will look for them. */
  ghost predicate Backed(desc: seq<PackedDesc>, t: Tape)
    requires |desc| > 0 && Known(t.posted, t.returned) && |t.lens| == |t.returned|
  {
    forall k :: t.reclaimed <= k < |t.returned| ==>
      BackAt(desc, SlotsBack(t.posted, t.returned[..k]), BackElem(t, k))
  }

  // ------------------------------------------------------------------ reading

  lemma {:induction false} OffNext(p: nat, size: nat)
    requires size > 0
    ensures Off(p + 1, size) == (Off(p, size) + 1) % size
  {
    AddRefines(p, 1, size);
    if Off(p, size) + 1 < size {
      assert (Off(p, size) + 1) % size == Off(p, size) + 1;
    }
  }

  /** Walking from the head collects exactly the chain the driver wrote. */
  lemma {:induction false} WalkFinds(desc: seq<PackedDesc>, chain: Chain, p: nat, j: nat, fuel: nat)
    requires |desc| > 0 && ChainFrom(desc, chain, j, p) && j < |chain.bufs| <= fuel + j
    ensures PackedWalk(desc, Off(p + j, |desc|), fuel) == Some((chain.id, chain.bufs[j..]))
    decreases fuel
  {
    assert SlotHolds(desc, chain, j, p);
    if j + 1 < |chain.bufs| {
      OffNext(p + j, |desc|);
      WalkFinds(desc, chain, p, j + 1, fuel - 1);
      assert chain.bufs[j..] == [chain.bufs[j]] + chain.bufs[j + 1..];
    } else {
      assert chain.bufs[j..] == [chain.bufs[j]];
    }
  }

  // ------------------------------------------------------------------ writing

  /** No position of `lo..hi` shares a slot with position `w`. */
  predicate Clear(w: nat, lo: nat, hi: nat, size: nat) {
    lo >= hi || (w < lo && hi <= w + size) || (hi <= w < lo + size)
  }

  lemma SlotKept(desc: seq<PackedDesc>, w: nat, d: PackedDesc, q: nat)
    requires |desc| > 0 && q != w && q < w + |desc| && w < q + |desc|
    ensures desc[Off(w, |desc|) := d][Off(q, |desc|)] == desc[Off(q, |desc|)]
  {
    if q < w { SlotsDistinct(q, w, |desc|); } else { SlotsDistinct(w, q, |desc|); }
  }

  lemma ChainKept(desc: seq<PackedDesc>, w: nat, d: PackedDesc, chain: Chain, from: nat, p: nat)
    requires |desc| > 0 && ChainFrom(desc, chain, from, p) && Clear(w, p + from, p + |chain.bufs|, |desc|)
    ensures ChainFrom(desc[Off(w, |desc|) := d], chain, from, p)
  {
    var after := desc[Off(w, |desc|) := d];
    forall j | from <= j < |chain.bufs|
      ensures SlotHolds(after, chain, j, p)
    {
      assert SlotHolds(desc, chain, j, p);
      SlotKept(desc, w, d, p + j);
    }
  }

  lemma {:induction false} SlotsMonotone(posted: seq<Chain>, i: nat, j: nat)
    requires i <= j <= |posted|
    ensures Slots(posted[..i]) <= Slots(posted[..j])
    decreases j - i
  {
    if i < j {
      SlotsPrefix(posted, j - 1);
      SlotsMonotone(posted, i, j - 1);
    }
  }

  /** The positions of chain `i` lie between those of `first` and the tail. */
  lemma ChainSpan(posted: seq<Chain>, first: nat, i: nat)
    requires first <= i < |posted|
    ensures Slots(posted[..first]) <= Slots(posted[..i])
    ensures Slots(posted[..i]) + posted[i].delta <= Slots(posted)
  {
    SlotsMonotone(posted, first, i);
    SlotsPrefix(posted, i);
    SlotsMonotone(posted, i + 1, |posted|);
    assert posted[..|posted|] == posted;
  }

  lemma UntakenKept(desc: seq<PackedDesc>, w: nat, d: PackedDesc, posted: seq<Chain>, first: nat)
    requires |desc| > 0 && Untaken(desc, posted, first) && first <= |posted|
    requires forall i :: 0 <= i < |posted| ==> posted[i].delta == |posted[i].bufs|
    requires Clear(w, Slots(posted[..first]), Slots(posted), |desc|)
    ensures Untaken(desc[Off(w, |desc|) := d], posted, first)
  {
    forall i | first <= i < |posted|
      ensures ChainFrom(desc[Off(w, |desc|) := d], posted[i], 0, Slots(posted[..i]))
    {
      ChainSpan(posted, first, i);
      ChainKept(desc, w, d, posted[i], 0, Slots(posted[..i]));
    }
  }

  lemma FreshKept(desc: seq<PackedDesc>, w: nat, d: PackedDesc, used: nat, tail: nat)
    requires |desc| > 0 && Fresh(desc, used, tail) && Clear(w, used, tail, |desc|)
    ensures Fresh(desc[Off(w, |desc|) := d], used, tail)
  {
    forall q: nat | used <= q < tail
      ensures desc[Off(w, |desc|) := d][Off(q, |desc|)].flag.used != Wrap(q, |desc|)
    {
      SlotKept(desc, w, d, q);
    }
  }

  /** A write at position `w` leaves staleness alone elsewhere; where it lands, the caller answers. */
  lemma StaleKept(desc: seq<PackedDesc>, w: nat, d: PackedDesc, tail: nat, lo: nat, hi: nat)
    requires |desc| > 0 && Stale(desc, tail, lo, hi) && tail <= w < tail + |desc|
    requires lo <= w < hi || d.flag.avail != Wrap(w, |desc|)
    ensures Stale(desc[Off(w, |desc|) := d], tail, lo, hi)
  {
    forall q: nat | tail <= q < tail + |desc| && !(lo <= q < hi)
      ensures desc[Off(w, |desc|) := d][Off(q, |desc|)].flag.avail != Wrap(q, |desc|)
    {
      if q != w { SlotKept(desc, w, d, q); }
    }
  }

  ghost function BackPos(t: Tape, k: nat): nat
    requires Known(t.posted, t.returned) && k <= |t.returned|
  {
    SlotsBack(t.posted, t.returned[..k])
  }

  lemma {:induction false} BackMonotone(t: Tape, i: nat, j: nat)
    requires Known(t.posted, t.returned) && i <= j <= |t.returned|
    ensures BackPos(t, i) <= BackPos(t, j)
    decreases j - i
  {
    if i < j {
      SlotsBackPrefix(t.posted, t.returned, j - 1);
      BackMonotone(t, i, j - 1);
    }
  }

  /** An unread returned chain lies between what the driver has read and `used`. */
  lemma BackSpan(t: Tape, size: nat, used: nat, k: nat)
    requires Ledger(t) && Balance(t, size, used) && t.reclaimed <= k < |t.returned|
    ensures BackPos(t, t.reclaimed) <= BackPos(t, k) < used
  {
    hide SlotsBack, SlotsOf, Slots;
    BackMonotone(t, t.reclaimed, k);
    SlotsBackPrefix(t.posted, t.returned, k);
    BackMonotone(t, k + 1, |t.returned|);
    assert t.returned[..|t.returned|] == t.returned;
  }

  lemma BackedKept(desc: seq<PackedDesc>, w: nat, d: PackedDesc, t: Tape, size: nat, used: nat)
    requires |desc| > 0 && Ledger(t) && Balance(t, size, used) && Backed(desc, t)
    requires Clear(w, BackPos(t, t.reclaimed), used, |desc|)
    ensures Backed(desc[Off(w, |desc|) := d], t)
  {
    hide Balance;
    forall k | t.reclaimed <= k < |t.returned|
      ensures BackAt(desc[Off(w, |desc|) := d], SlotsBack(t.posted, t.returned[..k]), BackElem(t, k))
    {
      BackSpan(t, size, used, k);
      SlotKept(desc, w, d, SlotsBack(t.posted, t.returned[..k]));
    }
  }
}
