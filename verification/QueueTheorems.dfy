/**
 Invariants of the virtqueue protocol, kept by every step of the driver and of
 the device, and what they give in every reachable state.
 */
module QueueTheorems {
  import opened RingIndex
  import opened QueueSpec

  // ----------------------------------------------------------- sums of slots

  lemma {:induction false} SlotsOfUpdate(posted: seq<Chain>, fates: seq<Fate>, i: nat, g: Fate, f: Fate)
    requires i < |fates| <= |posted|
    ensures SlotsOf(posted, fates[i := g], f) + (if fates[i] == f then posted[i].delta else 0)
         == SlotsOf(posted, fates, f) + (if g == f then posted[i].delta else 0)
    decreases |fates|
  {
    var n := |fates| - 1;
    if i < n {
      assert fates[i := g][..n] == fates[..n][i := g];
      SlotsOfUpdate(posted, fates[..n], i, g, f);
    } else {
      assert fates[i := g][..n] == fates[..n];
    }
  }

  lemma {:induction false} SlotsOfPosted(posted: seq<Chain>, chain: Chain, fates: seq<Fate>, f: Fate)
    requires |fates| <= |posted|
    ensures SlotsOf(posted + [chain], fates, f) == SlotsOf(posted, fates, f)
    decreases |fates|
  {
    if fates != [] {
      SlotsOfPosted(posted, chain, fates[..|fates| - 1], f);
    }
  }

  /** Every slot of a taken chain is accounted for by exactly one fate. */
  lemma {:induction false} SlotsByFate(posted: seq<Chain>, fates: seq<Fate>)
    requires |fates| <= |posted|
    ensures Slots(posted[..|fates|]) ==
            SlotsOf(posted, fates, InHand) + SlotsOf(posted, fates, Parked)
            + SlotsOf(posted, fates, Returned) + SlotsOf(posted, fates, Lost)
    decreases |fates|
  {
    if fates != [] {
      SlotsByFate(posted, fates[..|fates| - 1]);
      SlotsPrefix(posted, |fates| - 1);
    }
  }

  lemma SlotsPrefix(chains: seq<Chain>, n: nat)
    requires n < |chains|
    ensures Slots(chains[..n + 1]) == Slots(chains[..n]) + chains[n].delta
  {
    assert chains[..n + 1][..n] == chains[..n];
  }

  lemma SlotsAppend(chains: seq<Chain>, chain: Chain)
    ensures Slots(chains + [chain]) == Slots(chains) + chain.delta
  {
    assert (chains + [chain])[..|chains|] == chains;
  }

  /** Chains occupy at least one slot each. */
  lemma {:induction false} SlotsGap(chains: seq<Chain>, n: nat)
    requires n <= |chains| && forall i :: 0 <= i < |chains| ==> chains[i].delta > 0
    ensures Slots(chains) >= Slots(chains[..n]) + (|chains| - n)
    decreases |chains|
  {
    if n == |chains| {
      assert chains[..n] == chains;
    } else {
      var m := |chains| - 1;
      assert chains[..m][..n] == chains[..n];
      SlotsGap(chains[..m], n);
    }
  }

  lemma {:induction false} SlotsBackPosted(posted: seq<Chain>, chain: Chain, returned: seq<nat>)
    requires Known(posted, returned)
    ensures Known(posted + [chain], returned)
    ensures SlotsBack(posted + [chain], returned) == SlotsBack(posted, returned)
    decreases |returned|
  {
    if returned != [] {
      SlotsBackPosted(posted, chain, returned[..|returned| - 1]);
    }
  }

  lemma SlotsBackPrefix(posted: seq<Chain>, returned: seq<nat>, k: nat)
    requires Known(posted, returned) && k < |returned|
    ensures SlotsBack(posted, returned[..k + 1]) == SlotsBack(posted, returned[..k]) + posted[returned[k]].delta
  {
    assert returned[..k + 1][..k] == returned[..k];
  }

  lemma {:induction false} SlotsBackMonotone(posted: seq<Chain>, returned: seq<nat>, k: nat)
    requires Known(posted, returned) && k <= |returned|
    ensures SlotsBack(posted, returned[..k]) <= SlotsBack(posted, returned)
    decreases |returned| - k
  {
    if k < |returned| {
      SlotsBackPrefix(posted, returned, k);
      SlotsBackMonotone(posted, returned, k + 1);
    } else {
      assert returned[..k] == returned;
    }
  }

  lemma SlotsBackAppend(posted: seq<Chain>, returned: seq<nat>, i: nat)
    requires Known(posted, returned) && i < |posted|
    ensures Known(posted, returned + [i])
    ensures SlotsBack(posted, returned + [i]) == SlotsBack(posted, returned) + posted[i].delta
  {
    assert (returned + [i])[..|returned|] == returned;
  }

  // -------------------------------------------------------------- invariants

  /** Returned chains are listed once each, are the ones the fates call returned, and ids in
      flight are distinct. */
  ghost predicate Ledger(t: Tape) {
    && |t.fates| <= |t.posted|
    && t.reclaimed <= |t.returned| == |t.lens|
    && (forall k :: 0 <= k < |t.returned| ==> t.returned[k] < |t.fates| && t.fates[t.returned[k]] == Returned)
    && (forall i :: 0 <= i < |t.fates| && t.fates[i] == Returned ==> i in t.returned)
    && (forall j, k :: 0 <= j < k < |t.returned| ==> t.returned[j] != t.returned[k])
  }

  ghost predicate DistinctIds(t: Tape) {
    forall i: nat, j: nat :: Outstanding(t, i) && Outstanding(t, j) && i != j ==> t.posted[i].id != t.posted[j].id
  }

  /** The device's `used` is the sum it stands for, and the driver never overfills the ring. */
  ghost predicate Balance(t: Tape, size: nat, used: nat)
    requires Ledger(t)
  {
    && (forall i :: 0 <= i < |t.posted| ==> 0 < t.posted[i].delta <= size)
    && used == SlotsOf(t.posted, t.fates, Returned)
    && used == SlotsBack(t.posted, t.returned)
    && Slots(t.posted) <= SlotsBack(t.posted, t.returned[..t.reclaimed]) + size
  }

  predicate HasInHand(pc: Pc<nat>) {
    pc.Running? || pc.Writing? || pc.Publishing?
  }

  /** The chain in hand, if any, is the one the program counter names. */
  ghost predicate PcFits(a: State)
    requires Ledger(a.tape)
  {
    var t := a.tape;
    && (forall i :: 0 <= i < |t.fates| && t.fates[i] == InHand ==> HasInHand(a.pc) && a.pc.c == i)
    && (HasInHand(a.pc) ==> a.pc.c < |t.fates| && t.fates[a.pc.c] == InHand && (!a.pc.late ==> a.pc.c == |t.fates| - 1))
    && (a.pc.AskIrq? ==> 0 < a.pc.delta <= a.used && a.pc.delta <= a.size)
    && (a.pc.AskIrq? ==> |t.returned| > 0 && t.posted[t.returned[|t.returned| - 1]].delta == a.pc.delta)
    && (a.pc.AskIrq? && !a.pc.late ==>
         |t.fates| > 0 && t.fates[|t.fates| - 1] == Returned && t.posted[|t.fates| - 1].delta == a.pc.delta)
    && (a.pc.DisableWrite? || a.pc.EnableWrite? || a.pc.EnableReread? ==> a.bell.notify.Event?)
  }

  /** The device's `avail` is the sum of the chains it has passed. */
  ghost predicate AvailFits(a: State)
    requires Ledger(a.tape) && PcFits(a)
  {
    a.avail + (if Holding(a.pc) then a.tape.posted[|a.tape.fates| - 1].delta else 0)
        == Slots(a.tape.posted[..|a.tape.fates|])
  }

  predicate Armed(notify: Notify, taken: nat) {
    match notify
    case Flag(enabled) => enabled
    case Event(at) => at == U16(taken)
  }

  ghost predicate Kicks(b: Bell, posted: nat, taken: nat, pc: Pc<nat>) {
    && taken <= posted
    && b.checked <= posted < b.checked + U16_SPAN
    && (b.notify.Event? ==> b.notify.at < U16_SPAN)
    && ((Calm(pc) || pc.Top?) && taken == posted ==> Armed(b.notify, taken))
    && (Calm(pc) && !b.settled ==> taken < posted)
    && (Calm(pc) && b.settled && taken < posted ==> b.kick || b.due || (Armed(b.notify, taken) && b.checked <= taken))
    && (pc.Enable? && pc.failed ==> !b.settled && taken < posted)
    && (pc.EnableWrite? || pc.EnableReread? ==> taken <= pc.v <= posted && (pc.failed ==> !b.settled && taken < posted))
    && (pc.EnableReread? ==> b.notify == Event(U16(pc.v)))
    && (Holding(pc) ==> taken > 0)
  }

  /** The positions whose interrupt question has been asked end here. */
  function Seen(a: State): int {
    a.used - if a.pc.AskIrq? then a.pc.delta else 0
  }

  predicate InCall(pc: Pc<nat>) {
    !pc.Idle? && (!Calm(pc) || pc.Leave?)
  }

  ghost predicate Irqs(a: State)
    requires a.size > 0
  {
    InCall(a.pc) ==>
      && a.line.from <= Seen(a) && a.line.raised == a.line.base
      && (a.line.steady ==> (a.line.send <==> Wants(a.kind, a.size, a.line.arm, a.line.from, Seen(a))))
  }

  ghost predicate Inv(a: State) {
    && 0 < a.size <= 0x8000
    && (a.bell.notify.Event? ==> a.kind == Split)
    && Ledger(a.tape) && DistinctIds(a.tape)
    && Balance(a.tape, a.size, a.used)
    && PcFits(a) && AvailFits(a)
    && Kicks(a.bell, |a.tape.posted|, |a.tape.fates|, a.pc)
    && Irqs(a)
  }

  /** A freshly set up queue. */
  ghost predicate Init(a: State) {
    && 0 < a.size <= 0x8000
    && a.tape == Tape([], [], [], [], 0)
    && a.avail == 0 && a.used == 0
    && (a.bell.notify == Flag(true) || (a.bell.notify == Event(0) && a.kind == Split))
    && a.bell.checked == 0 && !a.bell.due && !a.bell.kick && a.bell.settled
    && a.pc.Idle? && !a.line.send && a.line.raised == 0
  }

  lemma InitInv(a: State)
    requires Init(a)
    ensures Inv(a)
  {
  }

  // -------------------------------------------------- what each tape edit keeps

  lemma PublishKeepsIds(t: Tape, size: nat, chain: Chain)
    requires Ledger(t) && DistinctIds(t) && Known(t.posted, t.returned) && MayPost(t, size, chain)
    ensures DistinctIds(t.(posted := t.posted + [chain]))
  {
    var u := t.(posted := t.posted + [chain]);
    forall i: nat | Outstanding(u, i) && i < |t.posted|
      ensures Outstanding(t, i) && u.posted[i].id != chain.id
    {
    }
    hide Outstanding;
  }

  lemma PublishKeepsLedger(t: Tape, chain: Chain)
    requires Ledger(t)
    ensures |t.fates| <= |t.posted| && t.reclaimed <= |t.returned| && Ledger(t.(posted := t.posted + [chain]))
  {
  }

  lemma PublishKeeps(t: Tape, size: nat, used: nat, chain: Chain)
    requires Ledger(t) && DistinctIds(t) && Balance(t, size, used) && Known(t.posted, t.returned)
             && MayPost(t, size, chain)
    ensures var u := t.(posted := t.posted + [chain]); Ledger(u) && DistinctIds(u) && Balance(u, size, used)
  {
    hide DistinctIds, Ledger;
    PublishKeepsIds(t, size, chain);
    PublishKeepsLedger(t, chain);
    SlotsAppend(t.posted, chain);
    SlotsOfPosted(t.posted, chain, t.fates, Returned);
    SlotsBackPosted(t.posted, chain, t.returned);
    SlotsBackPosted(t.posted, chain, t.returned[..t.reclaimed]);
  }

  lemma ReclaimKeeps(t: Tape, size: nat, used: nat)
    requires Ledger(t) && DistinctIds(t) && Balance(t, size, used) && t.reclaimed < |t.returned|
    ensures var u := t.(reclaimed := t.reclaimed + 1); Ledger(u) && DistinctIds(u) && Balance(u, size, used)
  {
    hide DistinctIds, Slots, SlotsOf, SlotsBack;
    ReclaimKeepsIds(t);
    SlotsBackPrefix(t.posted, t.returned, t.reclaimed);
  }

  lemma ReclaimKeepsIds(t: Tape)
    requires Ledger(t) && DistinctIds(t) && t.reclaimed < |t.returned|
    ensures DistinctIds(t.(reclaimed := t.reclaimed + 1))
  {
    var u := t.(reclaimed := t.reclaimed + 1);
    forall i: nat | Outstanding(u, i)
      ensures Outstanding(t, i)
    {
    }
  }

  lemma SameOutstanding(t: Tape, u: Tape)
    requires t.posted == u.posted && t.reclaimed == u.reclaimed && t.returned <= u.returned
    requires Ledger(t) && DistinctIds(t)
    ensures DistinctIds(u)
  {
    assert forall k :: 0 <= k < |t.returned| ==> u.returned[k] == t.returned[k];
    forall i: nat | Outstanding(u, i)
      ensures Outstanding(t, i)
    {
    }
  }

  lemma TakeKeeps(t: Tape, size: nat, used: nat)
    requires Ledger(t) && Balance(t, size, used) && |t.fates| < |t.posted|
    ensures var u := t.(fates := t.fates + [InHand]); Ledger(u) && Balance(u, size, used)
  {
    assert (t.fates + [InHand])[..|t.fates|] == t.fates;
  }

  lemma SetFateKeeps(t: Tape, size: nat, used: nat, i: nat, f: Fate)
    requires Ledger(t) && Balance(t, size, used) && i < |t.fates| && t.fates[i] != Returned && f != Returned
    ensures Ledger(SetFate(t, i, f)) && Balance(SetFate(t, i, f), size, used)
  {
    SlotsOfUpdate(t.posted, t.fates, i, f, Returned);
  }

  lemma UntakeKeeps(t: Tape, size: nat, used: nat)
    requires Ledger(t) && Balance(t, size, used) && |t.fates| > 0 && t.fates[|t.fates| - 1] != Returned
    ensures Ledger(Untake(t)) && Balance(Untake(t), size, used)
  {
  }

  lemma ReturnKeepsLedger(t: Tape, i: nat, len: nat)
    requires Ledger(t) && i < |t.fates| && t.fates[i] != Returned
    ensures Ledger(Return(t, i, len))
  {
    var u := Return(t, i, len);
    assert u.returned[|t.returned|] == i;
    assert forall k :: 0 <= k < |t.returned| ==> u.returned[k] == t.returned[k];
    forall j | 0 <= j < |u.fates| && u.fates[j] == Returned
      ensures j in u.returned
    {
      if j != i { assert j in t.returned; }
    }
  }

  lemma ReturnKeeps(t: Tape, size: nat, used: nat, i: nat, len: nat)
    requires Ledger(t) && Balance(t, size, used) && i < |t.fates| && t.fates[i] != Returned
    ensures Ledger(Return(t, i, len)) && Balance(Return(t, i, len), size, used + t.posted[i].delta)
  {
    ReturnKeepsLedger(t, i, len);
    SlotsOfUpdate(t.posted, t.fates, i, Returned, Returned);
    SlotsBackAppend(t.posted, t.returned, i);
    assert Return(t, i, len).returned[..t.reclaimed] == t.returned[..t.reclaimed];
  }

  // ------------------------------------------------------------ preservation

  lemma NeedEventIn(event: nat, now: nat, before: nat)
    requires before <= event < now < before + U16_SPAN
    ensures NeedEvent(U16(event), U16(now), U16(before))
  {
    assert (U16(now) + (2 * U16_SPAN - U16(event) - 1)) % U16_SPAN == now - event - 1;
    assert (U16(now) + (U16_SPAN - U16(before))) % U16_SPAN == now - before;
  }

  /** An armed notification is never missed by a check that covers the first untaken chain. */
  lemma ArmedNeedsKick(b: Bell, posted: nat, taken: nat)
    requires b.notify.Event? ==> b.notify.at < U16_SPAN
    requires Armed(b.notify, taken) && b.checked <= taken < posted < b.checked + U16_SPAN
    ensures NeedKick(b.notify, posted, b.checked)
  {
    match b.notify
    case Flag(_) =>
    case Event(_) => NeedEventIn(taken, posted, b.checked);
  }

  lemma InvKeptPost(a: State, chain: Chain)
    requires Inv(a) && Enabled(a, DPublish(chain))
    ensures Inv(Next(a, DPublish(chain)))
  {
    hide Ledger, DistinctIds, Balance, MayPost, Wants;
    PublishKeeps(a.tape, a.size, a.used, chain);
    assert |a.tape.fates| <= |a.tape.posted|;
    assert (a.tape.posted + [chain])[..|a.tape.fates|] == a.tape.posted[..|a.tape.fates|];
  }

  lemma InvKeptCheck(a: State)
    requires Inv(a) && Enabled(a, DCheck)
    ensures Inv(Next(a, DCheck))
  {
    hide Ledger, DistinctIds, Balance;
    if Armed(a.bell.notify, |a.tape.fates|) && a.bell.checked <= |a.tape.fates| < |a.tape.posted| {
      ArmedNeedsKick(a.bell, |a.tape.posted|, |a.tape.fates|);
    }
  }

  lemma InvKeptDriver(a: State, l: Label)
    requires Inv(a) && Enabled(a, l) && OfDriver(l)
    ensures Inv(Next(a, l))
  {
    hide Ledger, DistinctIds, Balance;
    match l
    case DPublish(chain) => InvKeptPost(a, chain);
    case DCheck => InvKeptCheck(a);
    case DReclaim => ReclaimKeeps(a.tape, a.size, a.used);
    case _ =>
  }

  lemma InvKeptControl(a: State, l: Label)
    requires Inv(a) && Enabled(a, l)
    requires l.VStart? || l.VFetchFail? || l.VPut? || l.VLeave?
    ensures Inv(Next(a, l))
  {
    hide Ledger, DistinctIds, Balance;
  }

  lemma InvKeptTop(a: State)
    requires Inv(a) && Enabled(a, VTop)
    ensures Inv(Next(a, VTop))
  {
    hide Ledger, DistinctIds, Balance;
  }

  lemma InvKeptDisable(a: State)
    requires Inv(a) && Enabled(a, VDisable)
    ensures Inv(Next(a, VDisable))
  {
    hide Ledger, DistinctIds, Balance;
  }

  lemma InvKeptEnable(a: State)
    requires Inv(a) && Enabled(a, VEnable)
    ensures Inv(Next(a, VEnable))
  {
    hide Ledger, DistinctIds, Balance;
  }

  lemma InvKeptFetch(a: State)
    requires Inv(a) && Enabled(a, VFetch)
    ensures Inv(Next(a, VFetch))
  {
    hide Ledger, DistinctIds, Balance;
    if |a.tape.fates| < |a.tape.posted| {
      TakeKeeps(a.tape, a.size, a.used);
      SameOutstanding(a.tape, Next(a, VFetch).tape);
      SlotsPrefix(a.tape.posted, |a.tape.fates|);
    }
  }

  lemma InvKeptUntake(a: State, status: Status)
    requires Inv(a) && Enabled(a, VOp(status)) && (status.Break? || status.Error?) && !a.pc.late
    ensures Inv(Next(a, VOp(status)))
  {
    hide Ledger, DistinctIds, Balance;
    UntakeKeeps(a.tape, a.size, a.used);
    SameOutstanding(a.tape, Untake(a.tape));
    SlotsPrefix(a.tape.posted, |a.tape.fates| - 1);
  }

  lemma InvKeptOp(a: State, status: Status)
    requires Inv(a) && Enabled(a, VOp(status))
    ensures Inv(Next(a, VOp(status)))
  {
    hide Ledger, DistinctIds, Balance;
    var b := Next(a, VOp(status));
    if status.Deferred? || (status.Error? && a.pc.late) {
      SetFateKeeps(a.tape, a.size, a.used, a.pc.c, b.tape.fates[a.pc.c]);
      SameOutstanding(a.tape, b.tape);
    } else if !status.Done? {
      InvKeptUntake(a, status);
    }
  }

  lemma InvKeptPublish(a: State)
    requires Inv(a) && Enabled(a, VPublish)
    ensures Inv(Next(a, VPublish))
  {
    hide Ledger, DistinctIds, Balance;
    ReturnKeeps(a.tape, a.size, a.used, a.pc.c, a.pc.len);
    SameOutstanding(a.tape, Next(a, VPublish).tape);
  }

  lemma WantsJoin(kind: Kind, size: nat, arm: Arm, lo: nat, mid: nat, hi: nat)
    requires size > 0 && lo <= mid <= hi
    ensures Wants(kind, size, arm, lo, hi) <==> Wants(kind, size, arm, lo, mid) || Wants(kind, size, arm, mid, hi)
  {
  }

  lemma InvKeptAsk(a: State)
    requires Inv(a) && Enabled(a, VAsk)
    ensures Inv(Next(a, VAsk))
  {
    hide Ledger, DistinctIds, Balance;
    if !a.pc.late { WantsJoin(a.kind, a.size, a.line.arm, a.line.from, Seen(a), a.used); }
  }

  lemma InvKeptLate(a: State, id: nat)
    requires Inv(a) && Enabled(a, VLate(id))
    ensures Inv(Next(a, VLate(id)))
  {
    hide Ledger, DistinctIds, Balance;
    var b := Next(a, VLate(id));
    if b != a {
      SetFateKeeps(a.tape, a.size, a.used, b.pc.c, InHand);
      SameOutstanding(a.tape, b.tape);
    }
  }

  /** Every step of either party keeps the invariant. */
  lemma InvKept(a: State, l: Label)
    requires Inv(a) && Enabled(a, l)
    ensures Inv(Next(a, l))
  {
    hide Ledger, DistinctIds, Balance, PcFits, AvailFits, Kicks, Irqs;
    if OfDriver(l) {
      InvKeptDriver(a, l);
    } else {
      match l
      case VTop => InvKeptTop(a);
      case VDisable => InvKeptDisable(a);
      case VEnable => InvKeptEnable(a);
      case VFetch => InvKeptFetch(a);
      case VOp(status) => InvKeptOp(a, status);
      case VPublish => InvKeptPublish(a);
      case VAsk => InvKeptAsk(a);
      case VLate(id) => InvKeptLate(a, id);
      case _ => InvKeptControl(a, l);
    }
  }

  // ------------------------------------------------------------------ ordering

  lemma {:induction false} SlotsOfAtLeast(posted: seq<Chain>, fates: seq<Fate>, i: nat)
    requires i < |fates| <= |posted|
    ensures SlotsOf(posted, fates, fates[i]) >= posted[i].delta
    decreases |fates|
  {
    if i < |fates| - 1 {
      SlotsOfAtLeast(posted, fates[..|fates| - 1], i);
    }
  }

  /** Slots the driver has back. */
  ghost function BackTo(t: Tape): nat
    requires Known(t.posted, t.returned) && t.reclaimed <= |t.returned|
  {
    SlotsBack(t.posted, t.returned[..t.reclaimed])
  }

  /** The four positions never overtake one another, and stay within one lap. */
  lemma Order(t: Tape, size: nat, used: nat)
    requires Ledger(t) && Balance(t, size, used)
    ensures BackTo(t) <= used <= Slots(t.posted[..|t.fates|]) <= Slots(t.posted) <= BackTo(t) + size
  {
    SlotsBackMonotone(t.posted, t.returned, t.reclaimed);
    SlotsByFate(t.posted, t.fates);
    SlotsGap(t.posted, |t.fates|);
  }

  /** A chain in hand still has its slots to return. */
  lemma OrderInHand(t: Tape, size: nat, used: nat, c: nat)
    requires Ledger(t) && Balance(t, size, used) && c < |t.fates| && t.fates[c] == InHand
    ensures used + t.posted[c].delta <= Slots(t.posted[..|t.fates|])
  {
    SlotsByFate(t.posted, t.fates);
    SlotsOfAtLeast(t.posted, t.fates, c);
  }
}
