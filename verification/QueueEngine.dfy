/**
 The generic ring engine, with its loops: `Queue` with `push_used`, `handle_deferred` and `handle_desc`.
 Before every access to the ring the driver may take any number of steps. Each call is shown to be a run of
 the interleaved machine, so all that holds of runs holds of it.
 */
module QueueEngine {
  import opened Wrappers
  import opened RingIndex
  import opened QueueSpec
  import opened QueueTheorems
  import opened Rings
  import opened QueueMachine
  import opened QueueRefinement
  import opened QueueSimulation
  import opened QueueResults
  import opened ChainBuffers
  import R = Ram
  import P = PackedContent
  import S = SplitContent
  import SplitSteps

  /** How a call ended: from the top of its loop, on a callback's request, with a callback's error, or on a chain that
      could not be read. */
  datatype Outcome = Normal | Broke | Failed | Unreadable

  // ------------------------------------------------------------------------------ steps

  /** `run` leads from `first` to `w`, and the protocol follows from `origin`. */
  ghost predicate Led(first: World, origin: State, run: seq<Label>, w: World) {
    Rel(first, origin) && Playable(first, run) && Play(first, run) == w && Rel(w, After(origin, run))
  }

  /** One more step of a run. */
  lemma Took(first: World, origin: State, run: seq<Label>, w: World, l: Label)
    requires Led(first, origin, run, w) && Ready(w, l)
    ensures Led(first, origin, run + [l], Do(w, l))
    ensures Enabled(After(origin, run), l) && After(origin, run + [l]) == Next(After(origin, run), l)
  {
    hide Rel, Ready, Do, Enabled, Next, Play, Playable, After;
    Simulation(w, After(origin, run), l);
    StepAlone(w, l);
    PlayConcat(first, run, [l]);
    AfterConcat(origin, run, [l]);
    AfterOne(After(origin, run), l);
  }

  lemma StepAlone(w: World, l: Label)
    requires Ready(w, l)
    ensures Playable(w, [l]) && Play(w, [l]) == Do(w, l)
  {
    hide Ready, Do;
    PlayCons(w, l, []);
  }

  /** `run` goes on from `before` with steps of the driver only. */
  ghost predicate ByDriver(before: seq<Label>, run: seq<Label>) {
    before <= run && forall k :: |before| <= k < |run| ==> OfDriver(run[k])
  }

  /** What the driver cannot change. */
  ghost predicate DeviceSame(a: State, b: State) {
    && b.kind == a.kind && b.size == a.size && b.pc == a.pc && b.avail == a.avail && b.used == a.used
    && b.tape.fates == a.tape.fates && b.tape.returned == a.tape.returned && b.tape.lens == a.tape.lens
    && a.tape.posted <= b.tape.posted
    && b.bell.notify == a.bell.notify && b.bell.settled == a.bell.settled
    && SameCall(a, b) && b.line.send == a.line.send && b.line.raised == a.line.raised
  }

  /** The interrupt bookkeeping of one `handle_desc`. */
  ghost predicate SameCall(a: State, b: State) {
    b.line.from == a.line.from && b.line.base == a.line.base
  }

  lemma DriverStep(a: State, l: Label)
    requires OfDriver(l) && Enabled(a, l)
    ensures DeviceSame(a, Next(a, l))
  {
    hide MayPost;
  }

  lemma {:induction false} DriverSteps(a: State, more: seq<Label>)
    requires forall k :: 0 <= k < |more| ==> OfDriver(more[k])
    ensures DeviceSame(a, After(a, more))
    decreases |more|
  {
    hide Enabled, Next, OfDriver;
    if more != [] {
      if Enabled(a, more[0]) {
        DriverStep(a, more[0]);
        DriverSteps(Next(a, more[0]), more[1..]);
      } else {
        DriverSteps(a, more[1..]);
      }
    }
  }

  lemma DriverRan(origin: State, before: seq<Label>, run: seq<Label>)
    requires ByDriver(before, run)
    ensures DeviceSame(After(origin, before), After(origin, run))
  {
    hide After, DeviceSame, OfDriver;
    var more := run[|before|..];
    assert run == before + more;
    AfterConcat(origin, before, more);
    forall k | 0 <= k < |more| ensures OfDriver(more[k]) {
      assert more[k] == run[|before| + k];
    }
    DriverSteps(After(origin, before), more);
  }

  // ------------------------------------------------------- what each step does and means

  ghost function Left(a: State): int {
    |a.tape.posted| - |a.tape.fates|
  }

  lemma RelFacts(w: World, a: State)
    requires Rel(w, a)
    ensures Inv(a) && Laid(w.ring) && w.ring.size == a.size && KindOf(w.ring) == a.kind && ArmOf(w.ring) == a.line.arm
    ensures Fits(w.ring, w.used) && w.used == Encode(a.kind, a.size, a.used) && Left(a) >= 0
    ensures w.raised == a.line.raised && w.send == a.line.send
    ensures UsesEvents(w.ring) <==> a.bell.notify.Event?
    ensures UsesEvents(w.ring) ==>
              w.ring.availIdx == U16(|a.tape.posted|) && Event(w.ring.availEvent.value) == a.bell.notify
  {
    hide DistinctIds, Balance, PcFits, AvailFits, Irqs, DeferredLink, InflightLink, StageLink, Formed, GuestLink,
         PcLink, Laid;
    hide Kicks;
    Parts(w, a);
    IndexFits(w.ring, a.used);
    NotifyKinds(w.ring, a);
    IndexRead(w, a);
  }

  /** The two program counters go together. */
  lemma Together(w: World, a: State)
    requires Rel(w, a)
    ensures PcLink(w.pc, a.pc, a.tape.posted)
  {
    hide Inv, RingLink, DeferredLink, InflightLink, StageLink, ContentLink, Formed, GuestLink, PcLink;
    Parts(w, a);
  }

  lemma AtTop(w: World, a: State)
    requires Rel(w, a) && w.pc.Top?
    ensures Fits(w.ring, w.avail) && Ready(w, VTop) && (DescAvail(w.ring, w.avail) <==> Left(a) > 0)
    ensures Do(w, VTop) == w.(pc := if DescAvail(w.ring, w.avail) then Disable else Leave)
  {
    hide Rel, DescAvail, Fits;
    TopTogether(w, a);
    AvailTruth(w, a);
  }

  lemma TopMeans(a: State)
    requires Enabled(a, VTop)
    ensures var b := Next(a, VTop); b.tape == a.tape && SameCall(a, b) && (Left(a) <= 0 ==> b.bell.settled)
  {
  }

  lemma AtFetch(w: World, a: State)
    requires Rel(w, a) && w.pc.Fetch?
    ensures a.pc.Fetch? && Fits(w.ring, w.avail) && Ready(w, VFetch) && (DescAvail(w.ring, w.avail) <==> Left(a) > 0)
    ensures DescAvail(w.ring, w.avail) ==> GetChain(w.ring, w.avail).Some? && Ready(w, VFetchFail)
    ensures Do(w, VFetch)
            == if DescAvail(w.ring, w.avail) then w.(pc := Running(GetChain(w.ring, w.avail).value, false))
               else w.(pc := Enable(false))
    ensures DescAvail(w.ring, w.avail) ==> Do(w, VFetchFail) == w.(pc := Idle)
  {
    hide Rel, DescAvail, GetChain, Fits;
    FetchTogether(w, a);
    AvailTruth(w, a);
    if DescAvail(w.ring, w.avail) {
      FetchTruth(w, a);
    }
  }

  lemma FetchMeans(a: State)
    requires Enabled(a, VFetch)
    ensures var b := Next(a, VFetch);
            && SameCall(a, b) && Left(b) == (if Left(a) > 0 then Left(a) - 1 else Left(a))
            && b.bell.settled == a.bell.settled
  {
  }

  lemma FetchFailMeans(a: State)
    requires Enabled(a, VFetchFail)
    ensures var b := Next(a, VFetchFail); SameCall(a, b) && !b.bell.settled && Left(b) == Left(a) && b.line == a.line
    ensures Next(a, VFetchFail).used == a.used
  {
  }

  lemma AtOp(w: World, a: State, status: Status)
    requires Rel(w, a) && w.pc.Running? && (w.pc.late ==> status.Done? || status.Error?)
    ensures Fits(w.ring, w.avail) && Ready(w, VOp(status)) && Do(w, VOp(status)) == Operation(w, status)
    ensures w.pc.c.delta <= w.ring.size
  {
    hide DistinctIds, Balance, AvailFits, Kicks, Irqs, DeferredLink, InflightLink, StageLink, ContentLink, GuestLink,
         Formed;
    hide Laid;
    Parts(w, a);
    InHandFacts(a);
    IndexFits(w.ring, a.avail);
  }

  lemma OpMeans(a: State, status: Status)
    requires Enabled(a, VOp(status))
    ensures var b := Next(a, VOp(status));
            && SameCall(a, b) && b.used == a.used && b.tape.returned == a.tape.returned && b.tape.lens == a.tape.lens
            && (status.Done? || status.Deferred? ==> Left(b) == Left(a) && b.bell == a.bell)
            && (status.Done? ==> b.tape == a.tape && b.pc == Writing(a.pc.c, status.len, a.pc.late))
            && (status.Break? || (status.Error? && !a.pc.late) ==> !b.bell.settled)
            && (status.Error? && a.pc.late ==> b.pc.Idle?)
            && b.line == a.line
  {
  }

  lemma AtWriting(w: World, a: State)
    requires Rel(w, a) && w.pc.Writing?
    ensures Fits(w.ring, w.used) && Ready(w, VPut)
    ensures Do(w, VPut)
            == w.(ring := PutElem(w.ring, w.used, w.pc.c.id, w.pc.len), pc := Publishing(w.pc.c, w.pc.len, w.pc.late))
  {
    hide Rel, PutElem, Fits;
    RelFacts(w, a);
  }

  lemma PutMeans(a: State)
    requires Enabled(a, VPut)
    ensures var b := Next(a, VPut);
            b == a.(pc := Publishing(a.pc.c, a.pc.len, a.pc.late))
  {
  }

  lemma AtPublishing(w: World, a: State)
    requires Rel(w, a) && w.pc.Publishing?
    ensures Fits(w.ring, w.used) && Ready(w, VPublish)
    ensures Do(w, VPublish)
            == w.(ring := PutVisible(w.ring, w.used), used := IndexAdd(w.ring, w.used, w.pc.c.delta),
                  pc := AskIrq(w.pc.c.delta, w.pc.late))
  {
    hide Rel, PutVisible, IndexAdd, Fits;
    RelFacts(w, a);
  }

  /** A chain counts as returned once it is visible. */
  lemma PublishMeans(w: World, a: State)
    requires Rel(w, a) && w.pc.Publishing? && Enabled(a, VPublish)
    ensures a.pc.Publishing? && a.pc.c < |a.tape.posted| && a.tape.posted[a.pc.c] == w.pc.c && a.pc.len == w.pc.len
    ensures var b := Next(a, VPublish);
            && b.tape == Return(a.tape, a.pc.c, w.pc.len) && b.used == a.used + w.pc.c.delta && b.bell == a.bell
            && b.line == a.line && b.pc == AskIrq(w.pc.c.delta, w.pc.late) && Left(b) == Left(a)
  {
    hide Rel, Inv;
    Together(w, a);
  }

  /** Where the driver will look, it now sees the chain. */
  lemma NowVisible(w: World, a: State)
    requires Rel(w, a) && w.pc.Publishing?
    ensures Fits(w.ring, w.used) && Fits(PutVisible(w.ring, w.used), w.used)
    ensures var r := PutVisible(w.ring, w.used);
            SeesUsed(r, w.used) && UsedAt(r, w.used) == UsedElem(w.pc.c.id, w.pc.len)
  {
    RelFacts(w, a);
    Together(w, a);
    if w.ring.PackedRing? {
      PackedNow(w, a);
    } else {
      SplitNow(w, a);
    }
  }

  lemma PackedNow(w: World, a: State)
    requires Rel(w, a) && w.pc.Publishing? && w.ring.PackedRing?
    ensures Fits(w.ring, w.used) && UsedAt(w.ring, w.used) == UsedElem(w.pc.c.id, w.pc.len)
    ensures var r := PutVisible(w.ring, w.used);
            Fits(r, w.used) && SeesUsed(r, w.used) && UsedAt(r, w.used) == UsedAt(w.ring, w.used)
  {
    hide DistinctIds, Balance, PcFits, AvailFits, Kicks, Irqs, DeferredLink, InflightLink, StageLink, Formed, GuestLink;
    hide P.Untaken, P.Stale, P.Fresh, P.Backed, PackedStage, Ledger;
    Parts(w, a);
    IndexFits(w.ring, a.used);
  }

  lemma SplitNow(w: World, a: State)
    requires Rel(w, a) && w.pc.Publishing? && w.ring.SplitRing?
    ensures Fits(w.ring, w.used) && UsedAt(w.ring, w.used) == UsedElem(w.pc.c.id, w.pc.len)
    ensures var r := PutVisible(w.ring, w.used);
            Fits(r, w.used) && SeesUsed(r, w.used) && UsedAt(r, w.used) == UsedAt(w.ring, w.used)
  {
    hide DistinctIds, Balance, PcFits, AvailFits, Kicks, Irqs, DeferredLink, InflightLink, StageLink, GuestLink;
    hide S.Untaken, S.Backed, SplitStage, Ledger, BitAnd, PowerOfTwo, Formed;
    Parts(w, a);
    IndexFits(w.ring, a.used);
    SplitSteps.SplitOrder(a);
    MaskRefines(a.used, a.size);
  }

  lemma AtAsk(w: World, a: State)
    requires Rel(w, a) && w.pc.AskIrq?
    ensures Fits(w.ring, w.used) && Fits(w.ring, w.avail) && w.pc.delta <= w.ring.size
    ensures Ready(w, VAsk) && Do(w, VAsk) == Asking(w)
    ensures a.pc == AskIrq(w.pc.delta, w.pc.late) && 0 < w.pc.delta <= a.used && a.size > 0
    ensures InterruptEnabled(w.ring, w.used, w.pc.delta)
            <==> Wants(a.kind, a.size, ArmOf(w.ring), a.used - w.pc.delta, a.used)
  {
    hide DistinctIds, Balance, AvailFits, Kicks, Irqs, DeferredLink, InflightLink, StageLink, ContentLink, GuestLink,
         Formed;
    hide Laid, Wants, InterruptEnabled;
    Parts(w, a);
    InHandFacts(a);
    IndexFits(w.ring, a.avail);
    IndexFits(w.ring, a.used);
    AskUnit(w, a);
    IrqExact(w.ring, a.used, a.pc.delta);
  }

  lemma AskMeans(a: State)
    requires Enabled(a, VAsk)
    ensures var b := Next(a, VAsk); SameCall(a, b) && b.tape == a.tape && b.bell == a.bell && b.used == a.used
    ensures Next(a, VAsk).kind == a.kind
  {
    hide Wants;
  }

  lemma AtDisable(w: World, a: State)
    requires Rel(w, a) && w.pc.Disable?
    ensures Ready(w, VDisable)
    ensures Do(w, VDisable)
            == if UsesEvents(w.ring) then w.(pc := DisableWrite(w.ring.availIdx))
               else w.(ring := WriteFlag(w.ring, false), pc := Fetch)
  {
    hide Rel;
  }

  lemma AtDisableWrite(w: World, a: State)
    requires Rel(w, a) && w.pc.DisableWrite?
    ensures UsesEvents(w.ring) && Ready(w, VDisable)
    ensures Do(w, VDisable) == w.(ring := WriteAvailEvent(w.ring, U16Dec(w.pc.v)), pc := Fetch)
  {
    hide Rel;
    EventPc(w, a);
  }

  /** Only with event indices does the device get to the places that read and write them. */
  lemma EventPc(w: World, a: State)
    requires Rel(w, a) && (w.pc.DisableWrite? || w.pc.EnableWrite? || w.pc.EnableReread?)
    ensures UsesEvents(w.ring)
  {
    hide DistinctIds, Balance, AvailFits, Kicks, Irqs, DeferredLink, InflightLink, StageLink, ContentLink, GuestLink,
         Formed;
    Parts(w, a);
    NotifyKinds(w.ring, a);
  }

  lemma DisableMeans(a: State)
    requires Enabled(a, VDisable)
    ensures var b := Next(a, VDisable); b.tape == a.tape && b.line == a.line && b.bell.settled == a.bell.settled
  {
  }

  lemma AtEnable(w: World, a: State)
    requires Rel(w, a) && w.pc.Enable?
    ensures a.pc == Enable(w.pc.failed) && Ready(w, VEnable)
    ensures Do(w, VEnable)
            == if UsesEvents(w.ring) then w.(pc := EnableWrite(w.ring.availIdx, w.pc.failed))
               else w.(ring := WriteFlag(w.ring, true), pc := if w.pc.failed then Leave else Top)
  {
    hide Rel, Inv;
    Together(w, a);
  }

  lemma AtEnableWrite(w: World, a: State)
    requires Rel(w, a) && w.pc.EnableWrite?
    ensures a.pc.EnableWrite? && UsesEvents(w.ring) && Ready(w, VEnable)
    ensures Do(w, VEnable) == w.(ring := WriteAvailEvent(w.ring, w.pc.v), pc := EnableReread(w.pc.v, w.pc.failed))
  {
    hide Rel, Inv;
    Together(w, a);
    EventPc(w, a);
  }

  lemma AtEnableReread(w: World, a: State)
    requires Rel(w, a) && w.pc.EnableReread?
    ensures a.pc.EnableReread? && a.pc.v <= |a.tape.posted| && UsesEvents(w.ring)
    ensures w.ring.SplitRing? && w.ring.availEvent == Some(w.pc.v) && Ready(w, VEnable)
    ensures Do(w, VEnable)
            == w.(pc := if w.ring.availIdx == w.pc.v then (if w.pc.failed then Leave else Top)
                        else EnableWrite(w.ring.availIdx, w.pc.failed))
  {
    hide Rel, Inv;
    Together(w, a);
    EventPc(w, a);
    RereadFacts(w, a);
  }

  lemma RereadFacts(w: World, a: State)
    requires Rel(w, a) && w.pc.EnableReread? && UsesEvents(w.ring)
    ensures a.pc.EnableReread? && a.pc.v <= |a.tape.posted| && w.ring.availEvent == Some(w.pc.v)
  {
    hide Ledger, DistinctIds, Balance, PcFits, AvailFits, Irqs, DeferredLink, InflightLink, StageLink, ContentLink,
         GuestLink;
    hide Formed;
    Parts(w, a);
  }

  lemma EnableMeans(a: State)
    requires Enabled(a, VEnable)
    ensures var b := Next(a, VEnable); b.tape == a.tape && b.line == a.line && b.bell.settled == a.bell.settled
    ensures a.pc.EnableWrite? ==> Next(a, VEnable).pc == EnableReread(a.pc.v, a.pc.failed)
    ensures var b := Next(a, VEnable);
            a.pc.EnableReread? && b.pc.EnableWrite? ==> a.pc.v != |a.tape.posted| && b.pc.v == |a.tape.posted|
    ensures var b := Next(a, VEnable); a.pc.Enable? && b.pc.EnableWrite? ==> b.pc.v == |a.tape.posted|
  {
  }

  lemma NoEvents(r: Ring)
    requires !UsesEvents(r)
    ensures !UsesEvents(WriteFlag(r, true))
  {
  }

  lemma WritingTogether(w: World, a: State)
    requires Rel(w, a) && w.pc.Writing?
    ensures a.pc.Writing? && a.pc.len == w.pc.len && a.pc.c < |a.tape.posted| && a.tape.posted[a.pc.c] == w.pc.c
  {
    hide Rel, Inv;
    Together(w, a);
  }

  lemma WriteTogether(w: World, a: State)
    requires Rel(w, a) && w.pc.EnableWrite?
    ensures a.pc.EnableWrite?
  {
    hide Rel, Inv;
    Together(w, a);
  }

  /** Nothing is raised within a call. */
  lemma FetchBase(w: World, a: State)
    requires Rel(w, a) && w.pc.Fetch?
    ensures w.raised == a.line.base == a.line.raised
  {
    hide Rel, Wants;
    SendExact(w, a);
    RelFacts(w, a);
  }

  lemma AtIdle(w: World, a: State)
    requires Rel(w, a) && w.pc.Idle?
    ensures Fits(w.ring, w.avail) && (DescAvail(w.ring, w.avail) <==> Left(a) > 0) && (!a.bell.settled ==> Left(a) > 0)
    ensures Ready(w, VStart) && Do(w, VStart) == w.(pc := Top, kick := false, send := false)
  {
    hide Rel, DescAvail, Fits, WantsKick;
    IdleTogether(w, a);
    AvailTruth(w, a);
    KickOwed(w, a);
  }

  lemma StartMeans(a: State)
    requires Enabled(a, VStart)
    ensures var b := Next(a, VStart);
            b.tape == a.tape && b.used == a.used && b.line.from == a.used && b.line.base == a.line.raised
  {
  }

  lemma AtLeave(w: World, a: State)
    requires Rel(w, a) && w.pc.Leave?
    ensures Ready(w, VLeave) && Do(w, VLeave) == w.(pc := Idle, raised := if w.send then w.raised + 1 else w.raised)
  {
    hide Rel;
  }

  lemma LeaveMeans(a: State)
    requires Enabled(a, VLeave)
    ensures var b := Next(a, VLeave);
            && b.tape == a.tape && b.used == a.used && b.kind == a.kind && b.bell == a.bell
            && b.line.steady == a.line.steady && b.line.arm == a.line.arm
  {
  }

  lemma AtLate(w: World, a: State, id: nat)
    requires Rel(w, a) && w.pc.Idle? && id in w.deferred
    ensures Ready(w, VLate(id))
    ensures Do(w, VLate(id)) == w.(pc := Running(w.deferred[id], true), deferred := w.deferred - {id})
  {
    hide Rel;
  }

  lemma LateMeans(a: State, id: nat)
    requires Enabled(a, VLate(id))
    ensures var b := Next(a, VLate(id));
            && b.tape.returned == a.tape.returned && b.tape.lens == a.tape.lens && b.used == a.used && b.line == a.line
            && b.tape.posted == a.tape.posted
  {
    hide ParkedAs;
  }

  // ------------------------------------------------------------------------- the engine

  /** A queue on `ring` with both indices at their start. */
  function Fresh(ring: Ring): World
    requires ring.size > 0
  {
    var zero := Encode(KindOf(ring), ring.size, 0);
    World(ring, zero, zero, map[], Idle, false, 0, false,
        Guest(None, zero, zero, ring.size, map[], 0, 0, false, [], false))
  }

  class Queue {
    const ram: R.Ram
    var ring: Ring
    var avail: Code
    var used: Code
    var deferred: map<nat, Chain>
    var raised: nat           // interrupts sent

    ghost var guest: Guest
    ghost var kick: bool
    ghost var send: bool      // left over from the last `handle_desc`
    ghost var spec: State     // the protocol state between calls
    ghost var supply: nat     // chains the driver will still publish

    ghost var first: World    // where the current call began,
    ghost var origin: State   // the protocol state then,
    ghost var run: seq<Label> // and what has happened since

    ghost function Here(pc: Pc<Chain>, s: bool): World
      reads this
    {
      World(ring, avail, used, deferred, pc, s, raised, kick, guest)
    }

    ghost predicate Valid()
      reads this
    {
      Rel(Here(Idle, send), spec)
    }

    ghost function Now(): State
      reads this
    {
      After(origin, run)
    }

    /** The current call has come to `pc`. */
    ghost predicate At(pc: Pc<Chain>, s: bool)
      reads this
    {
      Led(first, origin, run, Here(pc, s))
    }

    /** A freshly enabled queue, for a driver that has published nothing. */
    constructor (ram: R.Ram, ring: Ring, ghost supply: nat)
      requires Laid(ring) && Booted(Fresh(ring))
      ensures Valid() && this.ram == ram && this.ring == ring && deferred == map[] && raised == 0
      ensures this.supply == supply
    {
      hide Rel, Booted, Origin;
      var zero := Encode(KindOf(ring), ring.size, 0);
      this.ram := ram;
      this.ring, avail, used, deferred, raised := ring, zero, zero, map[], 0;
      ghost var w := Fresh(ring);
      guest, kick, send, this.supply := w.guest, false, false, supply;
      spec, first, origin, run := Origin(w), w, Origin(w), [];
      new;
      BootedRel(w);
    }

    /** Whatever the driver does before the device's next access: any steps of its own, of which no more publish a chain
        than it has chains to publish. */
    method Meanwhile(ghost pc: Pc<Chain>, ghost s: bool)
      requires At(pc, s)
      modifies this`ring, this`guest, this`kick, this`supply, this`run
      ensures At(pc, s) && ByDriver(old(run), run)
      ensures |Now().tape.posted| + supply == |old(Now()).tape.posted| + old(supply)
    {
    }

    /** The same, with what it leaves alone. */
    method Pause(ghost pc: Pc<Chain>, ghost s: bool)
      requires At(pc, s)
      modifies this`ring, this`guest, this`kick, this`supply, this`run
      ensures At(pc, s) && DeviceSame(old(Now()), Now()) && supply <= old(supply)
      ensures |Now().tape.posted| + supply == |old(Now()).tape.posted| + old(supply)
    {
      hide At, After, ByDriver, SameCall;
      Meanwhile(pc, s);
      DriverRan(origin, old(run), run);
    }

    /** The device's step `l` from `w` has been taken. */
    lemma Taken(w: World, before: seq<Label>, l: Label, pc: Pc<Chain>, s: bool)
      requires Led(first, origin, before, w) && Ready(w, l) && Do(w, l) == Here(pc, s) && run == before + [l]
      ensures At(pc, s)
      ensures Enabled(After(origin, before), l) && Now() == Next(After(origin, before), l)
    {
      hide Rel, Ready, Do, Enabled, Next, Play, Playable, After;
      Took(first, origin, before, w, l);
    }

    // -------------------------------------------------------------------- notifications

    /** `desc_avail` at the top of the loop. */
    method Look(s: bool) returns (more: bool)
      requires At(Top, s)
      modifies this`ring, this`guest, this`kick, this`supply, this`run
      ensures At(if more then Disable else Leave, s) && SameCall(old(Now()), Now()) && supply <= old(supply)
      ensures Left(Now()) + supply == old(Left(Now()) + supply)
      ensures if more then Left(Now()) > 0 else Left(Now()) == 0 && Now().bell.settled
    {
      hide Rel, Ready, Do, Enabled, Next, Play, Playable, After, DescAvail, Fits;
      Pause(Top, s);
      ghost var w, before := Here(Top, s), run;
      AtTop(w, Now());
      RelFacts(w, Now());
      more := DescAvail(ring, avail);
      run := run + [VTop];
      Taken(w, before, VTop, if more then Disable else Leave, s);
      TopMeans(After(origin, before));
    }

    /** `enable_notification(false)`. */
    method NotifyOff(s: bool)
      requires At(Disable, s)
      modifies this`ring, this`guest, this`kick, this`supply, this`run
      ensures At(Fetch, s) && SameCall(old(Now()), Now()) && supply <= old(supply)
      ensures Left(Now()) + supply == old(Left(Now()) + supply) && Left(Now()) >= old(Left(Now()))
    {
      hide Rel, Ready, Do, Enabled, Next, Play, Playable, After, WriteFlag, WriteAvailEvent, UsesEvents, U16Dec;
      Pause(Disable, s);
      ghost var w, before := Here(Disable, s), run;
      RelFacts(w, Now());
      AtDisable(w, Now());
      if UsesEvents(ring) {
        var v := ring.availIdx;
        run := run + [VDisable];
        Taken(w, before, VDisable, DisableWrite(v), s);
        DisableMeans(After(origin, before));
        Pause(DisableWrite(v), s);
        w, before := Here(DisableWrite(v), s), run;
        AtDisableWrite(w, Now());
        ring := WriteAvailEvent(ring, U16Dec(v));
      } else {
        ring := WriteFlag(ring, false);
      }
      run := run + [VDisable];
      Taken(w, before, VDisable, Fetch, s);
      DisableMeans(After(origin, before));
    }

    /** `enable_notification(true)`: the event index is written until the available index is seen not to have moved. */
    method NotifyOn(failed: bool, s: bool)
      requires At(Enable(failed), s)
      modifies this`ring, this`guest, this`kick, this`supply, this`run
      ensures At(if failed then Leave else Top, s) && SameCall(old(Now()), Now()) && supply <= old(supply)
      ensures Left(Now()) + supply == old(Left(Now()) + supply) && Now().bell.settled == old(Now()).bell.settled
      ensures UsesEvents(ring) ==> ring.availEvent == Some(ring.availIdx)
    {
      hide At, After, UsesEvents;
      var found := FirstRead(failed, s);
      if found == None {
        return;
      }
      var v := found.value;
      ghost var total := |Now().tape.posted| + supply;
      while true
        invariant At(EnableWrite(v, failed), s) && SameCall(old(Now()), Now()) && supply <= old(supply)
        invariant Left(Now()) + supply == old(Left(Now()) + supply) && Now().bell.settled == old(Now()).bell.settled
        invariant |Now().tape.posted| + supply == total && Now().pc.EnableWrite? && Now().pc.v <= total
        decreases total - Now().pc.v
      {
        WriteEvent(v, failed, s);
        var again := Reread(v, failed, s);
        if again == v {
          break;
        }
        v := again;
      }
    }

    /** Without event indices a flag is written and that is all; with them the available index is read. */
    method FirstRead(failed: bool, s: bool) returns (v: Option<nat>)
      requires At(Enable(failed), s)
      modifies this`ring, this`guest, this`kick, this`supply, this`run
      ensures SameCall(old(Now()), Now()) && supply <= old(supply)
      ensures Left(Now()) + supply == old(Left(Now()) + supply) && Now().bell.settled == old(Now()).bell.settled
      ensures v == None ==> At(if failed then Leave else Top, s) && !UsesEvents(ring)
      ensures v.Some? ==>
                At(EnableWrite(v.value, failed), s) && Now().pc.EnableWrite? && Now().pc.v == |Now().tape.posted|
    {
      hide Rel, Ready, Do, Enabled, Next, Play, Playable, After, WriteFlag, WriteAvailEvent, UsesEvents, U16;
      Pause(Enable(failed), s);
      ghost var w, before := Here(Enable(failed), s), run;
      RelFacts(w, Now());
      AtEnable(w, Now());
      run := run + [VEnable];
      if UsesEvents(ring) {
        v := Some(ring.availIdx);
        Taken(w, before, VEnable, EnableWrite(v.value, failed), s);
        WriteTogether(Here(EnableWrite(v.value, failed), s), Now());
      } else {
        v := None;
        NoEvents(ring);
        ring := WriteFlag(ring, true);
        Taken(w, before, VEnable, if failed then Leave else Top, s);
      }
      EnableMeans(After(origin, before));
    }

    method WriteEvent(v: nat, failed: bool, s: bool)
      requires At(EnableWrite(v, failed), s)
      modifies this`ring, this`guest, this`kick, this`supply, this`run
      ensures At(EnableReread(v, failed), s) && SameCall(old(Now()), Now()) && supply <= old(supply)
      ensures |Now().tape.posted| + supply == |old(Now()).tape.posted| + old(supply)
      ensures Left(Now()) + supply == old(Left(Now()) + supply) && Now().bell.settled == old(Now()).bell.settled
      ensures old(Now()).pc.EnableWrite? && Now().pc.EnableReread? && Now().pc.v == old(Now()).pc.v
    {
      hide Rel, Ready, Do, Enabled, Next, Play, Playable, After, WriteAvailEvent, UsesEvents, U16;
      Pause(EnableWrite(v, failed), s);
      ghost var w, before := Here(EnableWrite(v, failed), s), run;
      AtEnableWrite(w, Now());
      ring := WriteAvailEvent(ring, v);
      run := run + [VEnable];
      Taken(w, before, VEnable, EnableReread(v, failed), s);
      EnableMeans(After(origin, before));
    }

    /** Read the available index again: it has moved, and the loop goes on, or it has not. */
    method Reread(v: nat, failed: bool, s: bool) returns (again: nat)
      requires At(EnableReread(v, failed), s)
      modifies this`ring, this`guest, this`kick, this`supply, this`run
      ensures SameCall(old(Now()), Now()) && supply <= old(supply)
      ensures |Now().tape.posted| + supply == |old(Now()).tape.posted| + old(supply)
      ensures Left(Now()) + supply == old(Left(Now()) + supply) && Now().bell.settled == old(Now()).bell.settled
      ensures again == v ==>
                At(if failed then Leave else Top, s) && (UsesEvents(ring) ==> ring.availEvent == Some(ring.availIdx))
      ensures again != v ==>
                && At(EnableWrite(again, failed), s) && Now().pc.EnableWrite? && old(Now()).pc.EnableReread?
                && old(Now()).pc.v < Now().pc.v <= |Now().tape.posted|
    {
      hide Rel, Ready, Do, Enabled, Next, Play, Playable, After, UsesEvents, U16;
      Pause(EnableReread(v, failed), s);
      ghost var w, before := Here(EnableReread(v, failed), s), run;
      AtEnableReread(w, Now());
      again := ring.availIdx;
      run := run + [VEnable];
      Taken(w, before, VEnable, if again == v then (if failed then Leave else Top) else EnableWrite(again, failed), s);
      EnableMeans(After(origin, before));
      if again != v {
        WriteTogether(Here(EnableWrite(again, failed), s), Now());
      }
    }

    // ----------------------------------------------------------------------- one chain

    /** `push_used`: the driver sees the chain's id and length at the old index, the chain counts as returned, and the
        index moves on by its slots. */
    method PushUsed(chain: Chain, len: nat, ghost late: bool, ghost s: bool)
      requires At(Writing(chain, len, late), s)
      modifies this`ring, this`used, this`guest, this`kick, this`supply, this`run
      ensures At(AskIrq(chain.delta, late), s) && SameCall(old(Now()), Now()) && supply <= old(supply)
      ensures Left(Now()) + supply == old(Left(Now()) + supply) && Now().bell.settled == old(Now()).bell.settled
      ensures Fits(ring, old(used)) && SeesUsed(ring, old(used)) && UsedAt(ring, old(used)) == UsedElem(chain.id, len)
      ensures old(Now()).pc.Writing? && Now().used == old(Now()).used + chain.delta
      ensures Now().tape.returned == old(Now()).tape.returned + [old(Now()).pc.c]
      ensures Now().tape.lens == old(Now()).tape.lens + [len]
    {
      hide At, After, Fits, SeesUsed, UsedAt;
      WriteElem(chain, len, late, s);
      WriteVisible(chain, len, late, s);
    }

    /** The first half of `set_used`. */
    method WriteElem(chain: Chain, len: nat, ghost late: bool, ghost s: bool)
      requires At(Writing(chain, len, late), s)
      modifies this`ring, this`guest, this`kick, this`supply, this`run
      ensures At(Publishing(chain, len, late), s) && SameCall(old(Now()), Now()) && supply <= old(supply)
      ensures Left(Now()) + supply == old(Left(Now()) + supply) && Now().bell.settled == old(Now()).bell.settled
      ensures old(Now()).pc.Writing? && Now().pc.Publishing? && Now().pc.c == old(Now()).pc.c
      ensures Now().used == old(Now()).used
      ensures Now().tape.returned == old(Now()).tape.returned && Now().tape.lens == old(Now()).tape.lens
    {
      hide Rel, Ready, Do, Enabled, Next, Play, Playable, After, PutElem, Fits;
      WritingTogether(Here(Writing(chain, len, late), s), Now());
      Pause(Writing(chain, len, late), s);
      ghost var w, before := Here(Writing(chain, len, late), s), run;
      AtWriting(w, Now());
      ring := PutElem(ring, used, chain.id, len);
      run := run + [VPut];
      Taken(w, before, VPut, Publishing(chain, len, late), s);
      PutMeans(After(origin, before));
    }

    /** The second half of `set_used`, and the advance of the index. */
    method WriteVisible(chain: Chain, len: nat, ghost late: bool, ghost s: bool)
      requires At(Publishing(chain, len, late), s)
      modifies this`ring, this`used, this`guest, this`kick, this`supply, this`run
      ensures At(AskIrq(chain.delta, late), s) && SameCall(old(Now()), Now()) && supply <= old(supply)
      ensures Left(Now()) + supply == old(Left(Now()) + supply) && Now().bell.settled == old(Now()).bell.settled
      ensures Fits(ring, old(used)) && SeesUsed(ring, old(used)) && UsedAt(ring, old(used)) == UsedElem(chain.id, len)
      ensures old(Now()).pc.Publishing? && Now().used == old(Now()).used + chain.delta
      ensures Now().tape.returned == old(Now()).tape.returned + [old(Now()).pc.c]
      ensures Now().tape.lens == old(Now()).tape.lens + [len]
    {
      hide Rel, Ready, Do, Enabled, Next, Play, Playable, After, PutVisible, IndexAdd, Fits, SeesUsed, UsedAt;
      Pause(Publishing(chain, len, late), s);
      ghost var w, before := Here(Publishing(chain, len, late), s), run;
      AtPublishing(w, Now());
      NowVisible(w, Now());
      var next := IndexAdd(ring, used, chain.delta);
      ring := PutVisible(ring, used);
      used := next;
      run := run + [VPublish];
      Taken(w, before, VPublish, AskIrq(chain.delta, late), s);
      PublishMeans(w, After(origin, before));
    }

    /** The callback is done with a chain. */
    ghost method Finish(chain: Chain, len: nat, late: bool, s: bool)
      requires At(Running(chain, late), s)
      modifies this`run
      ensures At(Writing(chain, len, late), s) && SameCall(old(Now()), Now()) && Left(Now()) == old(Left(Now()))
      ensures Now().used == old(Now()).used
      ensures Now().tape.returned == old(Now()).tape.returned && Now().tape.lens == old(Now()).tape.lens
    {
      hide Rel, Ready, Do, Enabled, Next, Play, Playable, After, Fits;
      ghost var w, before := Here(Running(chain, late), s), run;
      AtOp(w, Now(), Done(len));
      run := run + [VOp(Done(len))];
      Taken(w, before, VOp(Done(len)), Writing(chain, len, late), s);
      OpMeans(After(origin, before), Done(len));
    }

    /** Whether an interrupt is due is added to `sent`, and `avail` moves on. */
    method Ask(delta: nat, sent: bool) returns (sendIrq: bool)
      requires At(AskIrq(delta, false), sent)
      modifies this`ring, this`avail, this`guest, this`kick, this`supply, this`run
      ensures At(Fetch, sendIrq) && SameCall(old(Now()), Now()) && supply <= old(supply)
      ensures Left(Now()) + supply == old(Left(Now()) + supply)
    {
      hide Rel, Ready, Do, Enabled, Next, Play, Playable, After, IndexAdd, Fits, InterruptEnabled, Wants;
      Pause(AskIrq(delta, false), sent);
      ghost var w, before := Here(AskIrq(delta, false), sent), run;
      AtAsk(w, Now());
      sendIrq := sent || InterruptEnabled(ring, used, delta);
      avail := IndexAdd(ring, avail, delta);
      run := run + [VAsk];
      Taken(w, before, VAsk, Fetch, sendIrq);
      AskMeans(After(origin, before));
    }

    /** A chain in the callback's hands is returned; whether an interrupt is due is added to `sent`. */
    method Serve(chain: Chain, len: nat, sent: bool) returns (sendIrq: bool)
      requires At(Running(chain, false), sent)
      modifies this`ring, this`avail, this`used, this`guest, this`kick, this`supply, this`run
      ensures At(Fetch, sendIrq) && SameCall(old(Now()), Now()) && supply <= old(supply)
      ensures Left(Now()) + supply == old(Left(Now()) + supply)
    {
      hide At, After, Fits, SeesUsed, UsedAt;
      Finish(chain, len, false, sent);
      PushUsed(chain, len, false, sent);
      sendIrq := Ask(chain.delta, sent);
    }

    /** A chain in the callback's hands is kept for later. */
    method Park(chain: Chain, sent: bool)
      requires At(Running(chain, false), sent)
      modifies this`avail, this`deferred, this`run
      ensures At(Fetch, sent) && SameCall(old(Now()), Now()) && Left(Now()) == old(Left(Now()))
    {
      hide Rel, Ready, Do, Enabled, Next, Play, Playable, After, IndexAdd, Fits;
      ghost var w, before := Here(Running(chain, false), sent), run;
      AtOp(w, Now(), Deferred);
      deferred := deferred[chain.id := chain];
      avail := IndexAdd(ring, avail, chain.delta);
      run := run + [VOp(Deferred)];
      Taken(w, before, VOp(Deferred), Fetch, sent);
      OpMeans(After(origin, before), Deferred);
    }

    /** The callback breaks off or fails. */
    ghost method Stop(chain: Chain, answer: Status, sent: bool)
      requires At(Running(chain, false), sent) && (answer.Break? || answer.Error?)
      modifies this`run
      ensures At(if answer.Break? then Leave else Enable(true), sent) && SameCall(old(Now()), Now())
              && !Now().bell.settled
    {
      hide Rel, Ready, Do, Enabled, Next, Play, Playable, After, Fits;
      ghost var w, before := Here(Running(chain, false), sent), run;
      AtOp(w, Now(), answer);
      RunTogether(w, Now());
      run := run + [VOp(answer)];
      Taken(w, before, VOp(answer), if answer.Break? then Leave else Enable(true), sent);
      OpMeans(After(origin, before), answer);
    }

    /** There is a chain to take and a device cannot work on it. */
    ghost predicate Stuck()
      requires ram.Valid()
      reads this`ring, this`avail, ram.inner, ram.host
    {
      && Fits(ring, avail) && DescAvail(ring, avail) && GetChain(ring, avail).Some?
      && !Usable(KindOf(ring), ram.inner.slots, ram.host[..], GetChain(ring, avail).value.bufs)
    }

    /** What the guest writes to its memory before the device looks at it. */
    method Meantime()
      modifies ram.host
    {
    }

    /** `get_avail`: nothing, exactly if nothing is published past the index; else an error, exactly if a table entry of
        the chain cannot be read or a byte of its buffers is not mapped; else the chain, and the host pieces of its
        readable and of its writable buffers. */
    method GetAvail(sent: bool) returns (r: Option<Chain>, failed: bool, iov: (seq<(nat, nat)>, seq<(nat, nat)>))
      requires At(Fetch, sent) && ram.Valid()
      modifies this`ring, this`guest, this`kick, this`supply, this`run, ram.host
      ensures SameCall(old(Now()), Now()) && supply <= old(supply)
      ensures failed ==> r.None? && At(Idle, sent) && !Now().bell.settled
      ensures failed ==> Now().line.raised == raised && Now().line.base == raised
      ensures !failed && r.None? ==>
                At(Enable(false), sent) && Left(Now()) + supply == old(Left(Now()) + supply) && Left(Now()) == 0
      ensures r.Some? ==> At(Running(r.value, false), sent) && Left(Now()) + supply == old(Left(Now()) + supply) - 1
      ensures failed <==> Stuck()
      ensures r.Some? ==>
                && Fits(ring, avail) && r == GetChain(ring, avail)
                && Works(KindOf(ring), ram.inner.slots, ram.host[..], r.value.bufs, iov)
    {
      hide Rel, Ready, Do, Enabled, Next, Play, Playable, After, DescAvail, GetChain, Fits, Usable, Works;
      Pause(Fetch, sent);
      Meantime();
      ghost var w, before := Here(Fetch, sent), run;
      AtFetch(w, Now());
      RelFacts(w, Now());
      failed, iov := false, ([], []);
      if !DescAvail(ring, avail) {
        r := None;
        run := run + [VFetch];
        Taken(w, before, VFetch, Enable(false), sent);
        FetchMeans(After(origin, before));
        return;
      }
      r := GetChain(ring, avail);
      var found := Translate(KindOf(ring), ram, r.value.bufs);
      if found == None {
        r, failed := None, true;
        FetchBase(w, Now());
        run := run + [VFetchFail];
        Taken(w, before, VFetchFail, Idle, sent);
        FetchFailMeans(After(origin, before));
      } else {
        iov := found.value;
        run := run + [VFetch];
        Taken(w, before, VFetch, Running(r.value, false), sent);
        FetchMeans(After(origin, before));
      }
    }

    /** The inner loop of `handle_desc`: chains are taken until none is left, one cannot be read, or a callback stops
        it. The callback of the `n`-th chain answers `callback(n)`. */
    method Drain(callback: nat -> Status, sent: bool) returns (outcome: Outcome, sendIrq: bool)
      requires At(Fetch, sent) && ram.Valid()
      modifies this`ring, this`avail, this`used, this`deferred, this`guest, this`kick, this`supply, this`run, ram.host
      ensures SameCall(old(Now()), Now()) && supply <= old(supply)
      ensures outcome.Normal? ==> At(Enable(false), sendIrq) && Left(Now()) == 0
      ensures outcome.Normal? ==> Left(Now()) + supply <= old(Left(Now()) + supply)
      ensures outcome.Normal? && old(Left(Now())) > 0 ==> Left(Now()) + supply < old(Left(Now()) + supply)
      ensures outcome.Broke? ==> At(Leave, sendIrq) && !Now().bell.settled
      ensures outcome.Failed? ==> At(Enable(true), sendIrq) && !Now().bell.settled
      ensures outcome.Unreadable? ==> At(Idle, sendIrq) && !Now().bell.settled
      ensures outcome.Unreadable? ==> Now().line.raised == raised && Now().line.base == raised && Stuck()
    {
      hide At, Rel, After, Stuck;
      outcome, sendIrq := Normal, sent;
      var calls := 0;
      FuelThere(Fetch, sent);
      while true
        invariant At(Fetch, sendIrq) && SameCall(old(Now()), Now()) && outcome.Normal? && supply <= old(supply)
        invariant 0 <= Left(Now()) + supply <= old(Left(Now()) + supply)
        invariant old(Left(Now())) > 0 && Left(Now()) == 0 ==> Left(Now()) + supply < old(Left(Now()) + supply)
        decreases Left(Now()) + supply
      {
        ghost var fuel := Left(Now()) + supply;
        var chain, failed, _ := GetAvail(sendIrq);
        if failed {
          outcome := Unreadable;
          return;
        }
        if chain == None {
          return;
        }
        FuelThere(Running(chain.value, false), sendIrq);
        var answer := callback(calls);
        calls := calls + 1;
        match answer {
          case Done(len) =>
            sendIrq := Serve(chain.value, len, sendIrq);
          case Deferred =>
            Park(chain.value, sendIrq);
          case _ =>
            Stop(chain.value, answer, sendIrq);
            outcome := if answer.Break? then Broke else Failed;
            return;
        }
      }
    }

    /** The rest of a turn of the outer loop once `desc_avail` has said yes: notifications off, the inner loop, and
        notifications on again unless the call breaks off or a chain cannot be read. */
    method Work(callback: nat -> Status, sent: bool) returns (outcome: Outcome, sendIrq: bool)
      requires At(Disable, sent) && ram.Valid() && Left(Now()) > 0
      modifies this`ring, this`avail, this`used, this`deferred, this`guest, this`kick, this`supply, this`run, ram.host
      ensures SameCall(old(Now()), Now()) && supply <= old(supply)
      ensures outcome.Normal? ==> At(Top, sendIrq) && Left(Now()) + supply < old(Left(Now()) + supply)
      ensures outcome.Broke? || outcome.Failed? ==> At(Leave, sendIrq) && !Now().bell.settled
      ensures outcome.Unreadable? ==> At(Idle, sendIrq) && !Now().bell.settled && Stuck()
      ensures outcome.Unreadable? ==> Now().line.raised == raised && Now().line.base == raised
    {
      hide At, Rel, After, Stuck;
      NotifyOff(sent);
      outcome, sendIrq := Drain(callback, sent);
      if outcome.Normal? || outcome.Failed? {
        NotifyOn(outcome.Failed?, sendIrq);
      }
    }

    // ------------------------------------------------------------------------ the calls

    /** `handle_desc`, with a driver that may act before every access and publishes finitely many chains meanwhile.
        It is a run of the machine. It returns from the top of its loop exactly if the protocol calls it settled;
        then, if nothing was published, no chain is left, and otherwise one is. With the driver's event setting left
        alone it raises one interrupt if that setting names a position it returned, unless it ended on an unreadable
        chain. */
    method HandleDesc(callback: nat -> Status) returns (outcome: Outcome)
      requires Valid() && ram.Valid()
      modifies this, ram.host
      ensures Valid() && first == old(Here(Idle, send)) && Playable(first, run) && Play(first, run) == Here(Idle, send)
      ensures spec == After(old(spec), run) && supply <= old(supply)
      ensures outcome.Normal? <==> spec.bell.settled
      ensures Fits(ring, avail) && (outcome.Normal? && supply == old(supply) ==> !DescAvail(ring, avail))
      ensures !outcome.Normal? ==> DescAvail(ring, avail)
      ensures outcome.Unreadable? ==> Stuck()
      ensures spec.line.steady ==>
                && ring.size > 0
                && raised == old(raised)
                             + if !outcome.Unreadable?
                                  && Wants(spec.kind, ring.size, ArmOf(ring), old(spec).used, spec.used)
                               then 1 else 0
    {
      hide At, Rel, After, Wants, DescAvail, Fits, Playable, Play, Stuck, ArmOf;
      Begin();
      outcome := Normal;
      var sendIrq := false;
      ghost var start := Now();
      while true
        invariant At(Top, sendIrq) && SameCall(start, Now()) && outcome.Normal? && supply <= old(supply)
        invariant first == old(Here(Idle, send)) && origin == old(spec) && raised == old(raised)
        decreases Left(Now()) + supply
      {
        FuelThere(Top, sendIrq);
        ghost var fuel := Left(Now()) + supply;
        var more := Look(sendIrq);
        if !more { break; }
        outcome, sendIrq := Work(callback, sendIrq);
        if outcome.Unreadable? {
          Land(sendIrq);
          return;
        }
        if !outcome.Normal? { break; }
        FuelThere(Top, sendIrq);
      }
      Depart(sendIrq);
      Land(sendIrq);
    }

    /** The call starts. */
    method Begin()
      requires Valid()
      modifies this`ring, this`guest, this`kick, this`supply, this`run, this`first, this`origin
      ensures At(Top, false) && first == old(Here(Idle, send)) && origin == spec
      ensures Now().line.from == spec.used && Now().line.base == raised && supply <= old(supply)
    {
      hide At, Rel, After;
      first, origin, run := Here(Idle, send), spec, [];
      Arrived();
      Pause(Idle, send);
      Start();
    }

    lemma Arrived()
      requires Valid() && first == Here(Idle, send) && origin == spec && run == []
      ensures At(Idle, send) && Now() == spec
    {
      hide Rel, Play, Playable, After;
      NothingRun(first, origin);
    }

    ghost method Start()
      requires At(Idle, send)
      modifies this`kick, this`run
      ensures At(Top, false) && Now().line.from == old(Now()).used && Now().line.base == raised
    {
      hide Rel, Ready, Do, Enabled, Next, Play, Playable, After;
      ghost var w, before := Here(Idle, send), run;
      AtIdle(w, Now());
      RelFacts(w, Now());
      kick := false;
      run := run + [VStart];
      Taken(w, before, VStart, Top, false);
      StartMeans(After(origin, before));
    }

    /** The call ends by leaving its loop: the interrupt is raised if one is due. */
    method Depart(sendIrq: bool)
      requires At(Leave, sendIrq) && Now().line.base == raised
      modifies this`ring, this`guest, this`kick, this`supply, this`run, this`raised
      ensures At(Idle, sendIrq) && Now().bell.settled == old(Now()).bell.settled && supply <= old(supply)
      ensures Left(Now()) + supply == old(Left(Now()) + supply)
      ensures Now().line.steady ==>
                && ring.size > 0
                && raised == old(raised)
                             + if Wants(Now().kind, ring.size, ArmOf(ring), old(Now()).line.from, Now().used)
                                 then 1 else 0
    {
      hide Rel, Ready, Do, Enabled, Next, Play, Playable, After, Wants;
      Pause(Leave, sendIrq);
      ghost var w, before := Here(Leave, sendIrq), run;
      AtLeave(w, Now());
      SendExact(w, Now());
      if sendIrq { raised := raised + 1; }
      run := run + [VLeave];
      Taken(w, before, VLeave, Idle, sendIrq);
      LeaveMeans(After(origin, before));
    }

    /** The call has ended, and what it leaves behind. */
    ghost method Land(sendIrq: bool)
      requires At(Idle, sendIrq)
      modifies this`send, this`spec
      ensures Valid() && Playable(first, run) && Play(first, run) == Here(Idle, send) && spec == Now()
      ensures Fits(ring, avail) && (DescAvail(ring, avail) <==> Left(spec) > 0)
              && (!spec.bell.settled ==> Left(spec) > 0)
      ensures ring.size > 0
    {
      hide Rel, Play, Playable, After, DescAvail, Fits;
      AtIdle(Here(Idle, sendIrq), Now());
      RelFacts(Here(Idle, sendIrq), Now());
      send, spec := sendIrq, Now();
    }

    /** `handle_deferred`: the chain is taken out of the deferred map before its callback answers, so a callback that
        fails (`None`) leaves it neither deferred nor returned. */
    method HandleDeferred(id: nat, answer: Option<nat>) returns (found: bool)
      requires Valid()
      modifies this
      ensures Valid() && first == old(Here(Idle, send)) && Playable(first, run) && Play(first, run) == Here(Idle, send)
      ensures spec == After(old(spec), run) && avail == old(avail)
      ensures (found <==> id in old(deferred)) && deferred == old(deferred) - {id}
      ensures !found || answer.None? ==>
                raised == old(raised) && spec.tape.returned == old(spec).tape.returned && spec.used == old(spec).used
      ensures found && answer.Some? ==>
                && |spec.tape.returned| == |old(spec).tape.returned| + 1
                && spec.tape.lens == old(spec).tape.lens + [answer.value]
                && spec.used == old(spec).used + old(deferred)[id].delta && ring.size > 0
                && raised == old(raised)
                             + if Wants(spec.kind, ring.size, ArmOf(ring), old(spec).used, spec.used) then 1 else 0
    {
      hide At, Rel, Play, Playable, After, Wants;
      first, origin, run := Here(Idle, send), spec, [];
      NothingRun(first, origin);
      if id !in deferred {
        assert deferred - {id} == deferred;
        return false;
      }
      found := true;
      var chain := deferred[id];
      Recall(id);
      if answer.None? {
        Lose(chain);
      } else {
        Answer(chain, answer.value);
      }
    }

    /** A deferred chain is taken out of the map. */
    method Recall(id: nat)
      requires Valid() && id in deferred && first == Here(Idle, send) && origin == spec && run == []
      modifies this`deferred, this`run
      ensures deferred == old(deferred) - {id} && At(Running(old(deferred)[id], true), send)
      ensures Now().tape.returned == spec.tape.returned && Now().tape.lens == spec.tape.lens && Now().used == spec.used
    {
      hide Rel, Ready, Do, Enabled, Next, Play, Playable, After;
      NothingRun(first, origin);
      ghost var w, before := Here(Idle, send), run;
      AtLate(w, Now(), id);
      ghost var chain := deferred[id];
      deferred := deferred - {id};
      run := run + [VLate(id)];
      Taken(w, before, VLate(id), Running(chain, true), send);
      LateMeans(After(origin, before), id);
    }

    /** Its callback fails. */
    ghost method Lose(chain: Chain)
      requires At(Running(chain, true), send)
      modifies this`run, this`spec
      ensures Valid() && Playable(first, run) && Play(first, run) == Here(Idle, send) && spec == Now()
      ensures spec.tape.returned == old(Now()).tape.returned && spec.used == old(Now()).used
    {
      hide Rel, Ready, Do, Enabled, Next, Play, Playable, After, Fits;
      ghost var w, before := Here(Running(chain, true), send), run;
      AtOp(w, Now(), Error);
      run := run + [VOp(Error)];
      Taken(w, before, VOp(Error), Idle, send);
      OpMeans(After(origin, before), Error);
      spec := Now();
    }

    /** A deferred chain is returned. */
    method Answer(chain: Chain, len: nat)
      requires At(Running(chain, true), send)
      modifies this`ring, this`used, this`guest, this`kick, this`supply, this`run, this`raised, this`send, this`spec
      ensures Valid() && Playable(first, run) && Play(first, run) == Here(Idle, send) && spec == Now()
      ensures |spec.tape.returned| == |old(Now()).tape.returned| + 1
      ensures spec.tape.lens == old(Now()).tape.lens + [len] && spec.used == old(Now()).used + chain.delta
              && ring.size > 0
      ensures raised == old(raised)
                        + if Wants(spec.kind, ring.size, ArmOf(ring), old(Now()).used, spec.used) then 1 else 0
    {
      hide At, After, Fits, DescAvail, SeesUsed, UsedAt, Wants, Valid, Playable, Play;
      Finish(chain, len, true, send);
      PushUsed(chain, len, true, send);
      AskLate(chain.delta);
      Land(send);
    }

    /** An interrupt is raised if one is due for the chain just returned. */
    method AskLate(delta: nat)
      requires At(AskIrq(delta, true), send)
      modifies this`ring, this`guest, this`kick, this`supply, this`run, this`raised
      ensures At(Idle, send)
      ensures Now().tape.returned == old(Now()).tape.returned && Now().tape.lens == old(Now()).tape.lens
      ensures delta <= Now().used == old(Now()).used && ring.size > 0
      ensures raised == old(raised) + if Wants(Now().kind, ring.size, ArmOf(ring), Now().used - delta, Now().used)
              then 1 else 0
    {
      hide Rel, Ready, Do, Enabled, Next, Play, Playable, After, Fits, InterruptEnabled, Wants;
      Pause(AskIrq(delta, true), send);
      ghost var w, before := Here(AskIrq(delta, true), send), run;
      AtAsk(w, Now());
      RelFacts(w, Now());
      if InterruptEnabled(ring, used, delta) { raised := raised + 1; }
      run := run + [VAsk];
      Taken(w, before, VAsk, Idle, send);
      AskMeans(After(origin, before));
    }

    lemma FuelThere(pc: Pc<Chain>, s: bool)
      requires At(pc, s)
      ensures Left(Now()) >= 0
    {
      hide Rel, After;
      RelFacts(Here(pc, s), Now());
    }
  }

  lemma NothingRun(w: World, a: State)
    ensures Playable(w, []) && Play(w, []) == w && After(a, []) == a
  {
  }
}
