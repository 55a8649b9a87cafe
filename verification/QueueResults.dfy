/**
 What holds in every state that the device and a conforming driver can reach from a
 freshly enabled queue, whatever the interleaving, the ring kind and the callbacks do.
 */
module QueueResults {
  import opened Wrappers
  import opened QueueSpec
  import opened QueueTheorems
  import opened Rings
  import opened QueueMachine
  import opened QueueRefinement
  import opened QueueSimulation

  // --------------------------------------------------------------------- runs

  /** The labels can be played from `w`, one after the other. */
  ghost predicate Playable(w: World, run: seq<Label>)
    decreases |run|
  {
    run == [] || (Ready(w, run[0]) && Playable(Do(w, run[0]), run[1..]))
  }

  ghost function Play(w: World, run: seq<Label>): World
    requires Playable(w, run)
    decreases |run|
  {
    if run == [] then w else Play(Do(w, run[0]), run[1..])
  }

  /** The protocol state after the same labels. */
  ghost function After(a: State, run: seq<Label>): State
    decreases |run|
  {
    if run == [] then a else After(if Enabled(a, run[0]) then Next(a, run[0]) else a, run[1..])
  }

  lemma PlayCons(w: World, l: Label, rest: seq<Label>)
    requires Ready(w, l) && Playable(Do(w, l), rest)
    ensures Playable(w, [l] + rest) && Play(w, [l] + rest) == Play(Do(w, l), rest)
  {
    var run := [l] + rest;
    assert run[0] == l && run[1..] == rest;
  }

  lemma {:induction false} PlayConcat(w: World, run: seq<Label>, more: seq<Label>)
    requires Playable(w, run) && Playable(Play(w, run), more)
    ensures Playable(w, run + more) && Play(w, run + more) == Play(Play(w, run), more)
    decreases |run|
  {
    hide Ready, Do;
    if run == [] {
      assert run + more == more;
    } else {
      PlayConcat(Do(w, run[0]), run[1..], more);
      assert (run + more)[0] == run[0] && (run + more)[1..] == run[1..] + more;
    }
  }

  lemma {:induction false} RunTracks(w: World, a: State, run: seq<Label>)
    requires Rel(w, a) && Playable(w, run)
    ensures Rel(Play(w, run), After(a, run))
    decreases |run|
  {
    hide Rel, Ready, Do, Enabled, Next;
    if run != [] {
      Simulation(w, a, run[0]);
      RunTracks(Do(w, run[0]), Next(a, run[0]), run[1..]);
    }
  }

  /** Memory and protocol agree after every run from a freshly enabled queue. */
  lemma Tracks(w: World, run: seq<Label>)
    requires Booted(w) && Playable(w, run)
    ensures Rel(Play(w, run), After(Origin(w), run))
  {
    BootedRel(w);
    hide Rel, Booted;
    RunTracks(w, Origin(w), run);
  }

  // -------------------------------------------------------------- ring truth

  /** A device about to look for a chain sees one exactly when the driver has published past its
      index, and what it then collects is that chain: id, slots and buffers. */
  lemma RingTruth(w: World, run: seq<Label>)
    requires Booted(w) && Playable(w, run)
    ensures var v, b := Play(w, run), After(Origin(w), run);
            !Holding(b.pc) ==>
              && Fits(v.ring, v.avail)
              && (DescAvail(v.ring, v.avail) <==> |b.tape.fates| < |b.tape.posted|)
              && (DescAvail(v.ring, v.avail) ==> GetChain(v.ring, v.avail) == Some(b.tape.posted[|b.tape.fates|]))
  {
    hide Rel, Booted;
    var v, b := Play(w, run), After(Origin(w), run);
    Tracks(w, run);
    if !Holding(b.pc) {
      AvailTruth(v, b);
      if |b.tape.fates| < |b.tape.posted| { FetchTruth(v, b); }
    }
  }

  /** The driver sees a returned chain exactly when there is one it has not read, reads the ids in
      the order of return, and never reads an id that is not in flight. */
  lemma DriverTruth(w: World, run: seq<Label>)
    requires Booted(w) && Playable(w, run)
    ensures var v, t := Play(w, run), After(Origin(w), run).tape;
            && Fits(v.ring, v.guest.used)
            && (SeesUsed(v.ring, v.guest.used) <==> t.reclaimed < |t.returned|)
            && !v.guest.broken
            && |v.guest.back| == t.reclaimed <= |t.returned| == |t.lens|
            && Known(t.posted, t.returned)
            && (forall k :: 0 <= k < t.reclaimed ==> v.guest.back[k] == BackElem(t, k))
            && (forall j, k :: 0 <= j < k < |t.returned| ==> t.returned[j] != t.returned[k])
  {
    hide Booted, Origin, Balance, DistinctIds, PcFits, AvailFits, Kicks, Irqs, RingLink, DeviceLink, DeferredLink,
         InflightLink, StageLink, ContentLink, Formed, Fits, SeesUsed;
    var v, b := Play(w, run), After(Origin(w), run);
    Tracks(w, run);
    UsedTruth(v, b);
    Parts(v, b);
  }

  // ----------------------------------------------------------------- no lost kick

  /** After `handle_desc` has returned from the top of its loop, every published chain is taken, or a
      kick is pending, or the driver is about to kick, or its outstanding check will make it kick. */
  lemma NoLostKick(w: World, run: seq<Label>)
    requires Booted(w) && Playable(w, run)
    ensures var v, b := Play(w, run), After(Origin(w), run);
            && (v.pc.Idle? ==> Fits(v.ring, v.avail))
            && (v.pc.Idle? && b.bell.settled && DescAvail(v.ring, v.avail) ==>
                  v.kick || v.guest.due || (v.guest.pending > 0 && WantsKick(v.ring, v.guest.checked)))
            && (v.pc.Idle? && !b.bell.settled ==> DescAvail(v.ring, v.avail))
  {
    hide Booted;
    var v, b := Play(w, run), After(Origin(w), run);
    Tracks(w, run);
    if v.pc.Idle? {
      IdleTogether(v, b);
      AvailTruth(v, b);
      KickOwed(v, b);
    }
  }

  /** A label that ends a `handle_desc` before its loop has found nothing left, or one that lets it find nothing
      left. */
  ghost function CutBy(w: World, l: Label, was: bool): bool {
    if l.VFetchFail? then true
    else if l.VOp? && w.pc.Running? && !w.pc.late && (l.status.Break? || l.status.Error?) then true
    else if l.VTop? && Fits(w.ring, w.avail) && !DescAvail(w.ring, w.avail) then false
    else was
  }

  /** The last `handle_desc` of the run broke off: on an unreadable chain, or on its callback's word. */
  ghost predicate CutShort(w: World, run: seq<Label>, was: bool)
    requires Playable(w, run)
    decreases |run|
  {
    if run == [] then was else CutShort(Do(w, run[0]), run[1..], CutBy(w, run[0], was))
  }

  lemma SettledStep(w: World, a: State, l: Label)
    requires Rel(w, a) && Ready(w, l) && Enabled(a, l)
    ensures Next(a, l).bell.settled <==> !CutBy(w, l, !a.bell.settled)
  {
    Parts(w, a);
    SettledNext(a, l);
    hide Rel, Enabled, Next, DescAvail, Fits;
    if l.VTop? {
      TopTogether(w, a);
      AvailTruth(w, a);
    } else if l.VOp? {
      RunTogether(w, a);
    }
  }

  lemma SettledNext(a: State, l: Label)
    requires Enabled(a, l)
    ensures Next(a, l).bell.settled
            == if l.VFetchFail? then false
               else if l.VOp? && a.pc.Running? && !a.pc.late && (l.status.Break? || l.status.Error?) then false
               else if l.VTop? && |a.tape.fates| >= |a.tape.posted| then true
               else a.bell.settled
  {
    hide Wants, MayPost, Slots, SlotsBack, ParkedAs, NeedKick;
  }

  lemma TopTogether(v: World, b: State)
    requires Rel(v, b) && v.pc.Top?
    ensures b.pc.Top?
  {
    hide Inv, RingLink, DeferredLink, InflightLink, StageLink, ContentLink, Formed, GuestLink;
    Parts(v, b);
  }

  lemma RunTogether(v: World, b: State)
    requires Rel(v, b) && v.pc.Running?
    ensures b.pc.Running? && b.pc.late == v.pc.late
  {
    hide Inv, RingLink, DeferredLink, InflightLink, StageLink, ContentLink, Formed, GuestLink;
    Parts(v, b);
  }

  lemma {:induction false} SettledIs(w: World, a: State, run: seq<Label>)
    requires Rel(w, a) && Playable(w, run)
    ensures After(a, run).bell.settled <==> !CutShort(w, run, !a.bell.settled)
    decreases |run|
  {
    hide Rel, Ready, Do, Enabled, Next, CutBy;
    if run != [] {
      Simulation(w, a, run[0]);
      SettledStep(w, a, run[0]);
      SettledIs(Do(w, run[0]), Next(a, run[0]), run[1..]);
    }
  }

  /** Nothing will make the driver kick. */
  predicate NoKickComing(v: World) {
    !v.kick && !v.guest.due && !(v.guest.pending > 0 && WantsKick(v.ring, v.guest.checked))
  }

  /** Between calls with no kick coming, a chain is left over if and only if the last `handle_desc` broke off. */
  lemma LeftOverIff(w: World, run: seq<Label>)
    requires Booted(w) && Playable(w, run)
    ensures var v := Play(w, run);
            v.pc.Idle? && NoKickComing(v) ==>
              Fits(v.ring, v.avail) && (DescAvail(v.ring, v.avail) <==> CutShort(w, run, false))
  {
    BootedRel(w);
    assert Origin(w).bell.settled;
    hide Rel, Booted, Fits, DescAvail, CutShort, WantsKick, Origin;
    NoLostKick(w, run);
    SettledIs(w, Origin(w), run);
  }

  lemma IdleTogether(v: World, b: State)
    requires Rel(v, b) && v.pc.Idle?
    ensures b.pc.Idle?
  {
    hide Inv, RingLink, DeferredLink, InflightLink, StageLink, ContentLink, Formed, GuestLink;
    Parts(v, b);
  }

  lemma KickOwed(v: World, b: State)
    requires Rel(v, b) && b.pc.Idle?
    ensures b.bell.settled && |b.tape.fates| < |b.tape.posted| ==>
              v.kick || v.guest.due || (v.guest.pending > 0 && WantsKick(v.ring, v.guest.checked))
    ensures !b.bell.settled ==> |b.tape.fates| < |b.tape.posted|
  {
    Parts(v, b);
    IndexRead(v, b);
    hide Ledger, Balance, DistinctIds, PcFits, AvailFits, Irqs, DeferredLink, InflightLink, StageLink, ContentLink,
         Formed, NeedEvent;
    if b.bell.settled && |b.tape.fates| < |b.tape.posted| && !v.kick && !v.guest.due {
      ArmedNeedsKick(b.bell, |b.tape.posted|, |b.tape.fates|);
    }
  }

  // ----------------------------------------------------------------- conservation

  /** Between calls, the slots the device has taken and not returned are exactly those of the chains
      it has deferred and of those a failing deferred callback lost. Chains are returned once. */
  lemma Conservation(w: World, run: seq<Label>)
    requires Booted(w) && Playable(w, run)
    ensures var v, b := Play(w, run), After(Origin(w), run);
            && |b.tape.fates| <= |b.tape.posted| && v.ring.size > 0
            && v.avail == Encode(b.kind, v.ring.size, b.avail) && v.used == Encode(b.kind, v.ring.size, b.used)
            && (v.pc.Idle? ==>
                  b.avail == b.used + SlotsOf(b.tape.posted, b.tape.fates, Parked)
                      + SlotsOf(b.tape.posted, b.tape.fates, Lost))
            && DeferredLink(v.deferred, b.tape)
  {
    hide Booted;
    var v, b := Play(w, run), After(Origin(w), run);
    Tracks(w, run);
    Accounts(v, b);
    if v.pc.Idle? {
      IdleTogether(v, b);
      IdleBalance(b);
    }
  }

  lemma Accounts(v: World, b: State)
    requires Rel(v, b)
    ensures Inv(b) && |b.tape.fates| <= |b.tape.posted| && v.ring.size == b.size > 0
    ensures v.avail == Encode(b.kind, v.ring.size, b.avail) && v.used == Encode(b.kind, v.ring.size, b.used)
    ensures DeferredLink(v.deferred, b.tape)
  {
    hide Balance, DistinctIds, PcFits, AvailFits, Kicks, Irqs, DeferredLink, InflightLink, StageLink, ContentLink,
         Formed, GuestLink, PcLink;
    Parts(v, b);
  }

  lemma {:induction false} NoneOf(posted: seq<Chain>, fates: seq<Fate>, f: Fate)
    requires |fates| <= |posted| && forall i :: 0 <= i < |fates| ==> fates[i] != f
    ensures SlotsOf(posted, fates, f) == 0
    decreases |fates|
  {
    if fates != [] { NoneOf(posted, fates[..|fates| - 1], f); }
  }

  lemma IdleBalance(b: State)
    requires Inv(b) && b.pc.Idle?
    ensures b.avail == b.used + SlotsOf(b.tape.posted, b.tape.fates, Parked)
            + SlotsOf(b.tape.posted, b.tape.fates, Lost)
  {
    hide DistinctIds, Kicks, Irqs;
    SlotsByFate(b.tape.posted, b.tape.fates);
    NoneOf(b.tape.posted, b.tape.fates, InHand);
  }

  /** `set_used` only ever writes at a position whose slot was taken from the driver and has not been
      given back: at or after what the driver has read back, before every chain still to be taken. */
  lemma UsedWritesOwnSlots(w: World, run: seq<Label>)
    requires Booted(w) && Playable(w, run)
    ensures var v, b := Play(w, run), After(Origin(w), run);
            v.pc.Writing? || v.pc.Publishing? ==>
              && Ledger(b.tape) && v.ring.size > 0 && v.used == Encode(b.kind, v.ring.size, b.used)
              && BackTo(b.tape) <= b.used && b.used + v.pc.c.delta <= Slots(b.tape.posted[..|b.tape.fates|])
              && Slots(b.tape.posted) <= BackTo(b.tape) + v.ring.size
  {
    hide Booted;
    var v, b := Play(w, run), After(Origin(w), run);
    Tracks(w, run);
    Accounts(v, b);
    if v.pc.Writing? || v.pc.Publishing? { OwnSlots(v, b); }
  }

  lemma OwnSlots(v: World, b: State)
    requires Rel(v, b) && (v.pc.Writing? || v.pc.Publishing?)
    ensures Ledger(b.tape) && BackTo(b.tape) <= b.used
            && b.used + v.pc.c.delta <= Slots(b.tape.posted[..|b.tape.fates|])
    ensures Slots(b.tape.posted) <= BackTo(b.tape) + b.size
  {
    hide Balance, DistinctIds, AvailFits, Kicks, Irqs, DeferredLink, InflightLink, StageLink, ContentLink, Formed,
         GuestLink, RingLink;
    Parts(v, b);
    Order(b.tape, b.size, b.used);
    OrderInHand(b.tape, b.size, b.used, b.pc.c);
  }

  // -------------------------------------------------------------------- interrupts

  /** How a `handle_desc` ends: by leaving its loop, or on a chain it cannot read. */
  predicate EndsCall(l: Label) {
    l.VLeave? || l.VFetchFail?
  }

  /** A `handle_desc` during which the driver leaves its event setting alone raises one interrupt exactly when that
      setting names a position returned in the call and the call does not end on an unreadable chain; otherwise none. */
  lemma InterruptExact(w: World, run: seq<Label>, l: Label)
    requires Booted(w) && Playable(w, run) && EndsCall(l) && Ready(Play(w, run), l)
    ensures var v, b := Play(w, run), After(Origin(w), run);
            b.line.steady ==>
              && v.ring.size > 0
              && Do(v, l).raised
                 == b.line.base
                    + if l.VLeave? && Wants(b.kind, v.ring.size, ArmOf(v.ring), b.line.from, b.used) then 1 else 0
  {
    hide Booted, Wants, Rel, Ready, Do, Play, Playable, After, Origin, ArmOf;
    var v, b := Play(w, run), After(Origin(w), run);
    Tracks(w, run);
    EndRaised(v, l);
    SendExact(v, b);
  }

  lemma EndRaised(v: World, l: Label)
    requires EndsCall(l) && Ready(v, l)
    ensures (v.pc.Leave? || v.pc.Fetch?) && Do(v, l).raised == v.raised + if l.VLeave? && v.send then 1 else 0
  {
  }

  lemma SendExact(v: World, b: State)
    requires Rel(v, b) && (v.pc.Leave? || v.pc.Fetch?)
    ensures v.ring.size == b.size > 0 && v.raised == b.line.base
    ensures b.line.steady ==> (v.send <==> Wants(b.kind, v.ring.size, ArmOf(v.ring), b.line.from, b.used))
  {
    hide Ledger, Balance, DistinctIds, PcFits, AvailFits, Kicks, DeferredLink, InflightLink, StageLink, ContentLink;
    hide Formed, GuestLink, Wants;
    Parts(v, b);
  }

  /** Labels of a running `handle_desc` with a driver that leaves its event setting alone. */
  predicate Undisturbed(run: seq<Label>) {
    forall k :: 0 <= k < |run| ==> !run[k].VStart? && !run[k].DArm?
  }

  lemma {:induction false} AfterConcat(a: State, run: seq<Label>, more: seq<Label>)
    ensures After(a, run + more) == After(After(a, run), more)
    decreases |run|
  {
    hide Enabled, Next;
    if run == [] {
      assert run + more == more;
    } else {
      AfterConcat(if Enabled(a, run[0]) then Next(a, run[0]) else a, run[1..], more);
      assert (run + more)[0] == run[0] && (run + more)[1..] == run[1..] + more;
    }
  }

  ghost predicate SameLine(a: State, b: State) {
    && b.kind == a.kind && b.size == a.size && b.line.arm == a.line.arm && b.line.from == a.line.from
    && b.line.steady == a.line.steady && b.line.base == a.line.base
  }

  lemma LineStep(a: State, l: Label)
    requires Enabled(a, l) && !l.VStart? && !l.DArm?
    ensures SameLine(a, Next(a, l))
  {
    hide Wants, MayPost;
  }

  lemma {:induction false} LineKept(a: State, run: seq<Label>)
    requires Undisturbed(run)
    ensures SameLine(a, After(a, run))
    decreases |run|
  {
    hide Enabled, Next;
    if run != [] {
      assert !run[0].VStart? && !run[0].DArm?;
      if Enabled(a, run[0]) {
        LineStep(a, run[0]);
        LineKept(Next(a, run[0]), run[1..]);
      } else {
        LineKept(a, run[1..]);
      }
    }
  }

  lemma {:induction false} PlayableParts(w: World, run: seq<Label>, more: seq<Label>)
    requires Playable(w, run + more)
    ensures Playable(w, run) && Playable(Play(w, run), more) && Play(w, run + more) == Play(Play(w, run), more)
    decreases |run|
  {
    hide Ready, Do;
    if run == [] {
      assert run + more == more;
    } else {
      assert (run + more)[0] == run[0] && (run + more)[1..] == run[1..] + more;
      PlayableParts(Do(w, run[0]), run[1..], more);
    }
  }

  /** A whole call, from its start to its end `l`, raises one interrupt if the driver's setting names a position it
      returned and it does not end on an unreadable chain, and none otherwise: an interrupt that is owed is dropped
      exactly by an unreadable chain. */
  lemma CallInterrupts(w: World, before: seq<Label>, body: seq<Label>, l: Label)
    requires Booted(w) && Undisturbed(body) && EndsCall(l) && Playable(w, before + [VStart] + body + [l])
    ensures Playable(w, before)
    ensures var u, a := Play(w, before), After(Origin(w), before);
            var v, b := Play(w, before + [VStart] + body + [l]), After(Origin(w), before + [VStart] + body);
            && u.ring.size > 0
            && var owed := Wants(a.kind, u.ring.size, ArmOf(u.ring), a.used, b.used);
               && v.raised == u.raised + (if l.VLeave? && owed then 1 else 0)
               && (owed ==> (v.raised == u.raised <==> l.VFetchFail?))
  {
    hide Booted, Wants, Ready, Do, Play, Playable, After;
    var o, start := Origin(w), before + [VStart];
    PlayableParts(w, start + body, [l]);
    PlayableParts(w, start, body);
    PlayableParts(w, before, [VStart]);
    AfterConcat(o, start, body);
    AfterConcat(o, before, [VStart]);
    var u, a := Play(w, before), After(o, before);
    Tracks(w, before);
    Tracks(w, start);
    Tracks(w, start + body);
    CallStarts(u, a);
    AfterOne(a, VStart);
    PlayOne(u, VStart);
    LineKept(Next(a, VStart), body);
    ArmIs(u, a);
    ArmIs(Play(w, start + body), After(o, start + body));
    PlayOne(Play(w, start + body), l);
    InterruptExact(w, start + body, l);
  }

  lemma AfterOne(a: State, l: Label)
    requires Enabled(a, l)
    ensures After(a, [l]) == Next(a, l)
  {
    hide Next, Enabled;
    assert [l][1..] == [];
  }

  lemma PlayOne(w: World, l: Label)
    requires Playable(w, [l])
    ensures Ready(w, l) && Play(w, [l]) == Do(w, l)
  {
    hide Ready, Do;
    assert [l][1..] == [];
  }

  lemma CallStarts(u: World, a: State)
    requires Rel(u, a) && Playable(u, [VStart])
    ensures Enabled(a, VStart) && u.raised == a.line.raised
    ensures var b := Next(a, VStart);
            b.kind == a.kind && b.line.arm == a.line.arm && b.line.steady && b.line.from == a.used
                && b.line.base == u.raised
  {
    hide Inv, RingLink, DeferredLink, InflightLink, StageLink, ContentLink, Formed, GuestLink;
    Parts(u, a);
    assert Ready(u, VStart);
  }

  lemma ArmIs(v: World, b: State)
    requires Rel(v, b)
    ensures ArmOf(v.ring) == b.line.arm && v.ring.size == b.size > 0
  {
    hide Ledger, Balance, DistinctIds, PcFits, AvailFits, Kicks, Irqs, DeferredLink, InflightLink, StageLink,
         ContentLink;
    hide Formed, GuestLink, PcLink;
    Parts(v, b);
  }

  // -------------------------------------------------------- reading while the driver writes

  /** No driver step changes what the device would collect: reading a chain slot by slot, with the
      driver running in between, is reading it at once. */
  lemma ReadsAreStable(w: World, run: seq<Label>, l: Label)
    requires Booted(w) && Playable(w, run)
    requires var v := Play(w, run);
               v.pc.Fetch? && OfDriver(l) && Ready(v, l) && Fits(v.ring, v.avail) && DescAvail(v.ring, v.avail)
    ensures var v := Play(w, run);
            var u := Do(v, l);
            Fits(u.ring, v.avail) && DescAvail(u.ring, v.avail)
                && GetChain(u.ring, v.avail) == GetChain(v.ring, v.avail)
  {
    var v, b := Play(w, run), After(Origin(w), run);
    Tracks(w, run);
    hide Rel, Booted, DescAvail, GetChain, Fits, Do, Ready, Next, Enabled;
    Simulation(v, b, l);
    FetchTogether(v, b);
    AvailTruth(v, b);
    FetchTruth(v, b);
    DriverApart(v, l);
    DriverOnlyAdds(b, l);
    AvailTruth(Do(v, l), Next(b, l));
    FetchTruth(Do(v, l), Next(b, l));
  }

  lemma DriverApart(v: World, l: Label)
    requires OfDriver(l) && Ready(v, l)
    ensures Do(v, l).avail == v.avail
  {
  }

  lemma DriverOnlyAdds(b: State, l: Label)
    requires OfDriver(l) && Enabled(b, l)
    ensures var c := Next(b, l); c.pc == b.pc && c.tape.fates == b.tape.fates && b.tape.posted <= c.tape.posted
  {
  }

  lemma FetchTogether(v: World, b: State)
    requires Rel(v, b) && v.pc.Fetch?
    ensures b.pc.Fetch?
  {
    hide Inv, RingLink, DeferredLink, InflightLink, StageLink, ContentLink, Formed, GuestLink;
    Parts(v, b);
  }

  // ------------------------------------------------------------ when conservation is exact

  ghost function Step(a: State, l: Label): State {
    if Enabled(a, l) then Next(a, l) else a
  }

  /** Somewhere in the run a deferred callback fails. */
  ghost predicate LateFails(a: State, run: seq<Label>)
    decreases |run|
  {
    run != [] &&
    ((Enabled(a, run[0]) && run[0] == VOp(Error) && a.pc.Running? && a.pc.late) || LateFails(Step(a, run[0]), run[1..]))
  }

  /** A lost chain is lost for good, and only a failing deferred callback loses one. */
  lemma LostStep(a: State, l: Label)
    requires Inv(a) && Enabled(a, l)
    ensures Lost in Next(a, l).tape.fates <==>
              Lost in a.tape.fates || (l == VOp(Error) && a.pc.Running? && a.pc.late)
  {
    InHandFacts(a);
    hide Ledger, DistinctIds, Balance, AvailFits, PcFits, Kicks, Irqs, Wants, MayPost;
    var f, e := a.tape.fates, Next(a, l).tape.fates;
    if f != e {
      LostEdit(a, l);
    }
  }

  lemma LostEdit(a: State, l: Label)
    requires Enabled(a, l) && Next(a, l).tape.fates != a.tape.fates && |a.tape.fates| <= |a.tape.posted|
    requires HasInHand(a.pc) ==>
               && a.pc.c < |a.tape.fates| && a.tape.fates[a.pc.c] == InHand
               && (!a.pc.late ==> a.pc.c == |a.tape.fates| - 1)
    ensures Lost in Next(a, l).tape.fates <==>
              Lost in a.tape.fates || (l == VOp(Error) && a.pc.Running? && a.pc.late)
  {
    hide Wants, MayPost;
    var f, e := a.tape.fates, Next(a, l).tape.fates;
    if i :| 0 <= i < |f| && f[i] == Lost { assert i < |e| && e[i] == Lost; }
    if l == VOp(Error) && a.pc.Running? && a.pc.late { assert e[a.pc.c] == Lost; }
  }

  lemma {:induction false} LostIff(a: State, run: seq<Label>)
    requires Inv(a)
    ensures Inv(After(a, run))
    ensures Lost in After(a, run).tape.fates <==> Lost in a.tape.fates || LateFails(a, run)
    decreases |run|
  {
    hide Inv, Enabled, Next;
    if run != [] {
      if Enabled(a, run[0]) {
        InvKept(a, run[0]);
        LostStep(a, run[0]);
        LostIff(Next(a, run[0]), run[1..]);
      } else {
        LostIff(a, run[1..]);
      }
    }
  }

  lemma {:induction false} SomeOf(posted: seq<Chain>, fates: seq<Fate>, f: Fate)
    requires |fates| <= |posted| && forall i :: 0 <= i < |posted| ==> posted[i].delta > 0
    ensures SlotsOf(posted, fates, f) > 0 <==> f in fates
  {
    if i :| 0 <= i < |fates| && fates[i] == f {
      SlotsOfAtLeast(posted, fates, i);
    } else {
      NoneOf(posted, fates, f);
    }
  }

  /** Between calls, what is taken and not returned is exactly what is deferred, if and only if no deferred
      callback has failed. */
  lemma ConservationExact(w: World, run: seq<Label>)
    requires Booted(w) && Playable(w, run)
    ensures var v, b := Play(w, run), After(Origin(w), run);
            v.pc.Idle? ==>
              && |b.tape.fates| <= |b.tape.posted|
              && (b.avail == b.used + SlotsOf(b.tape.posted, b.tape.fates, Parked) <==> !LateFails(Origin(w), run))
  {
    var v, a := Play(w, run), Origin(w);
    var b := After(a, run);
    BootedRel(w);
    hide Rel, Booted, Inv;
    Conservation(w, run);
    OriginInv(w);
    LostIff(a, run);
    DeltasPositive(b);
    SomeOf(b.tape.posted, b.tape.fates, Lost);
  }

  lemma OriginInv(w: World)
    requires Booted(w)
    ensures Inv(Origin(w)) && Lost !in Origin(w).tape.fates
  {
    InitInv(Origin(w));
  }

  lemma DeltasPositive(b: State)
    requires Inv(b)
    ensures forall i :: 0 <= i < |b.tape.posted| ==> b.tape.posted[i].delta > 0
  {
    hide Ledger, DistinctIds, AvailFits, PcFits, Kicks, Irqs;
  }

}
