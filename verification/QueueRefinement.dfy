/**
 The rings in memory refine the unbounded protocol: the same labels drive both, and
 whatever the device or the driver reads out of memory is what the protocol says.
 */
module QueueRefinement {
  import opened RingIndex
  import opened QueueSpec
  import opened QueueTheorems
  import opened Rings
  import opened QueueMachine
  import P = PackedContent
  import S = SplitContent

  // ---------------------------------------------------------------- relation

  ghost predicate PcLink(c: Pc<Chain>, s: Pc<nat>, posted: seq<Chain>) {
    match (c, s)
    case (Idle, Idle) => true
    case (Top, Top) => true
    case (Disable, Disable) => true
    case (DisableWrite(v), DisableWrite(u)) => v == U16(u)
    case (Fetch, Fetch) => true
    case (Running(chain, late), Running(i, also)) => i < |posted| && chain == posted[i] && late == also
    case (Writing(chain, len, late), Writing(i, m, also)) => i < |posted| && chain == posted[i] && len == m
        && late == also
    case (Publishing(chain, len, late), Publishing(i, m, also)) => i < |posted| && chain == posted[i] && len == m
        && late == also
    case (AskIrq(d, late), AskIrq(e, also)) => d == e && late == also
    case (Enable(f), Enable(g)) => f == g
    case (EnableWrite(v, f), EnableWrite(u, g)) => v == U16(u) && f == g
    case (EnableReread(v, f), EnableReread(u, g)) => v == U16(u) && f == g
    case (Leave, Leave) => true
    case _ => false
  }

  ghost predicate IsParked(t: Tape, i: nat) {
    i < |t.fates| && i < |t.posted| && t.fates[i] == Parked
  }

  /** The deferred map holds exactly the parked chains. */
  ghost predicate DeferredLink(deferred: map<nat, Chain>, t: Tape) {
    && (forall i: nat :: IsParked(t, i) ==> t.posted[i].id in deferred && deferred[t.posted[i].id] == t.posted[i])
    && (forall id :: id in deferred ==> exists i: nat :: ParkedAs(t, id, i))
  }

  /** The driver's table of chains in flight holds exactly the outstanding ones. */
  ghost predicate InflightLink(inflight: map<nat, Chain>, t: Tape) {
    && (forall i: nat :: Outstanding(t, i) ==> t.posted[i].id in inflight && inflight[t.posted[i].id] == t.posted[i])
    && (forall id :: id in inflight ==> exists i: nat :: Outstanding(t, i) && t.posted[i].id == id)
  }

  ghost predicate StageLink(g: Guest, kind: Kind, size: nat) {
    g.stage.Some? ==>
      var chain := g.stage.value.chain;
      && WellFormed(kind, size, chain)
      && 0 <= g.stage.value.done <= Writes(kind, chain)
      && chain.delta <= g.free && chain.id !in g.inflight
      && (forall id :: id in g.inflight ==> Apart(chain.path, g.inflight[id].path))
  }

  ghost predicate GuestLink(g: Guest, a: State)
    requires a.size > 0 && Ledger(a.tape)
  {
    var t := a.tape;
    && g.avail == Encode(a.kind, a.size, Slots(t.posted))
    && g.used == Encode(a.kind, a.size, BackTo(t))
    && g.free + Slots(t.posted) == BackTo(t) + a.size
    && g.pending + a.bell.checked == |t.posted|
    && (a.kind == Split ==> g.checked == U16(a.bell.checked))
    && g.due == a.bell.due && !g.broken
    && |g.back| == t.reclaimed
    && (forall k :: 0 <= k < t.reclaimed ==> g.back[k] == BackElem(t, k))
  }

  ghost predicate RingLink(r: Ring, a: State) {
    && Laid(r) && KindOf(r) == a.kind && r.size == a.size
    && ArmOf(r) == a.line.arm && NotifyOf(r) == a.bell.notify
  }

  ghost predicate Formed(t: Tape, kind: Kind, size: nat) {
    forall i :: 0 <= i < |t.posted| ==> WellFormed(kind, size, t.posted[i])
  }

  /** The first chain whose memory the device may still read. */
  function First(a: State): nat {
    if a.pc.Running? && !a.pc.late && |a.tape.fates| > 0 then |a.tape.fates| - 1 else |a.tape.fates|
  }

  ghost function StageLo(g: Guest, tail: nat): int {
    match g.stage
    case None => 0
    case Some(Stage(chain, done)) => tail + |chain.bufs| - done
  }

  ghost function StageHi(g: Guest, tail: nat): nat {
    match g.stage
    case None => 0
    case Some(Stage(chain, done)) => tail + |chain.bufs|
  }

  ghost predicate PackedStage(desc: seq<PackedDesc>, g: Guest, tail: nat)
    requires |desc| > 0
  {
    && StageLo(g, tail) >= 0
    && P.Stale(desc, tail, StageLo(g, tail), StageHi(g, tail))
    && (g.stage.Some? ==>
          var Stage(chain, done) := g.stage.value;
          done < |chain.bufs| && P.ChainFrom(desc, chain, |chain.bufs| - done, tail))
  }

  ghost predicate PackedLink(desc: seq<PackedDesc>, g: Guest, a: State)
    requires Ledger(a.tape)
  {
    var t := a.tape;
    && |desc| == a.size > 0
    && P.Untaken(desc, t.posted, First(a))
    && PackedStage(desc, g, Slots(t.posted))
    && P.Fresh(desc, a.used, Slots(t.posted))
    && P.Backed(desc, t)
    && (a.pc.Publishing? && a.pc.c < |t.posted| ==> ElemAt(desc, a.used) == UsedElem(t.posted[a.pc.c].id, a.pc.len))
  }

  ghost predicate SplitStage(r: Ring, g: Guest, n: nat)
    requires r.SplitRing? && |r.availRing| > 0
  {
    g.stage.Some? ==>
      var Stage(chain, done) := g.stage.value;
      && |chain.bufs| == |chain.path|
      && S.TableHolds(r.table, chain, done)
      && (done == |chain.path| + 1 ==> r.availRing[Off(n, |r.availRing|)] == chain.id)
  }

  ghost predicate SplitLink(r: Ring, g: Guest, a: State)
    requires r.SplitRing? && Ledger(a.tape)
  {
    var t := a.tape;
    && |r.availRing| == |r.usedRing| == a.size > 0
    && r.availIdx == U16(|t.posted|) && r.usedIdx == U16(|t.returned|)
    && S.Untaken(r.table, r.availRing, t.posted, First(a))
    && SplitStage(r, g, |t.posted|)
    && S.Backed(r.usedRing, t)
    && (a.pc.Publishing? && a.pc.c < |t.posted| ==>
        r.usedRing[Off(|t.returned|, a.size)] == UsedElem(t.posted[a.pc.c].id, a.pc.len))
  }

  ghost predicate ContentLink(w: World, a: State)
    requires Ledger(a.tape)
  {
    match w.ring
    case PackedRing(_, desc, _, _, _) => PackedLink(desc, w.guest, a)
    case SplitRing(_, _, _, _, _, _, _, _, _, _) => SplitLink(w.ring, w.guest, a)
  }

  ghost predicate DeviceLink(w: World, a: State)
    requires a.size > 0
  {
    && w.avail == Encode(a.kind, a.size, a.avail)
    && w.used == Encode(a.kind, a.size, a.used)
    && PcLink(w.pc, a.pc, a.tape.posted)
    && w.send == a.line.send && w.raised == a.line.raised && w.kick == a.bell.kick
  }

  ghost predicate Linked(w: World, a: State) {
    && Inv(a)
    && RingLink(w.ring, a)
    && Formed(a.tape, a.kind, a.size)
    && DeviceLink(w, a)
    && DeferredLink(w.deferred, a.tape)
    && GuestLink(w.guest, a)
    && InflightLink(w.guest.inflight, a.tape)
    && StageLink(w.guest, a.kind, a.size)
    && ContentLink(w, a)
  }

  predicate Is(x: World, w: World) {
    x == w
  }

  /** The ring memory and the protocol agree. It is said through `Is` so that a proof sees the parts only where it asks
      for them, with `Parts`. */
  ghost predicate Rel(w: World, a: State) {
    forall x: World :: Is(x, w) ==> Linked(x, a)
  }

  lemma Parts(w: World, a: State)
    requires Rel(w, a)
    ensures Linked(w, a)
  {
    hide Linked;
    assert Is(w, w);
  }

  lemma Whole(w: World, a: State)
    requires Linked(w, a)
    ensures Rel(w, a)
  {
    hide Linked;
  }

  /** The protocol state of a freshly enabled queue. */
  ghost function Origin(w: World): State
    requires Booted(w)
  {
    State(KindOf(w.ring), w.ring.size, Tape([], [], [], [], 0), 0, 0,
          Bell(NotifyOf(w.ring), 0, false, false, true), Line(ArmOf(w.ring), false, 0, 0, true, 0), Idle)
  }

  lemma BootedRel(w: World)
    requires Booted(w)
    ensures Rel(w, Origin(w))
  {
    var a := Origin(w);
    InitInv(a);
    if w.ring.PackedRing? {
      forall q: nat | 0 <= q < w.ring.size
        ensures w.ring.desc[Off(q, w.ring.size)].flag.avail != Wrap(q, w.ring.size)
      {
      }
    }
    Whole(w, a);
  }
}
