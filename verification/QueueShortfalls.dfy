/**
 Reachable states in which the device does less than one might expect of it, each with
 the run that leads there.
 */
module QueueShortfalls {
  import opened Wrappers
  import opened RingIndex
  import opened QueueSpec
  import opened Rings
  import opened QueueMachine
  import opened QueueResults

  /** A one-slot packed ring, freshly enabled. */
  function Tiny(): World {
    var at := Wrapped(WrappedIndex(0, true));
    World(PackedRing(1, [PackedDesc(0, 0, 0, DescFlag(false, false, false, false, false, 0))], false, EVENT_ENABLE,
                     DescEvent(WrappedIndex(0, true), EVENT_ENABLE)),
          at, at, map[], Idle, false, 0, false, Guest(None, at, at, 1, map[], 0, 0, false, [], false))
  }

  const ONE := Chain(0, 1, [Buf(0, 0, false, false)], [])

  /** One chain published and kicked for, and the device in its callback. */
  function ToCallback(): seq<Label> {
    [DBegin(ONE), DPublish(ONE), DCheck, DKick] + [VStart, VTop, VDisable, VFetch]
  }

  lemma TinyBooted()
    ensures Booted(Tiny())
  {
  }

  /** The published ring of one slot, notifications as given. */
  function TinyFull(notification: nat): Ring {
    PackedRing(1, [PackedDesc(0, 0, 0, DescFlag(false, false, false, true, false, 0))], false, notification,
               DescEvent(WrappedIndex(0, true), EVENT_ENABLE))
  }

  function TinyGuest(pending: nat, due: bool): Guest {
    Guest(None, Wrapped(WrappedIndex(0, false)), Wrapped(WrappedIndex(0, true)), 0, map[0 := ONE], pending, 0, due, [],
        false)
  }

  function TinyAt(notification: nat, pc: Pc<Chain>, kick: bool, guest: Guest): World {
    var at := Wrapped(WrappedIndex(0, true));
    World(TinyFull(notification), at, at, map[], pc, false, 0, kick, guest)
  }

  /** `w` takes the step `l` to `v`. */
  ghost predicate Goes(w: World, l: Label, v: World) {
    Ready(w, l) && Do(w, l) == v
  }

  function TinyStaged(): World {
    Tiny().(guest := Tiny().guest.(stage := Some(Stage(ONE, 0))))
  }

  lemma TinyBegins()
    ensures Goes(Tiny(), DBegin(ONE), TinyStaged())
  {
  }

  lemma TinyPublished()
    ensures Goes(TinyStaged(), DPublish(ONE), TinyAt(EVENT_ENABLE, Idle, false, TinyGuest(1, false)))
  {
    var w, v := TinyStaged(), TinyAt(EVENT_ENABLE, Idle, false, TinyGuest(1, false));
    assert Publish(w, ONE).ring.desc == v.ring.desc && Publish(w, ONE).guest.inflight == v.guest.inflight;
  }

  lemma TinyChecks()
    ensures Goes(TinyAt(EVENT_ENABLE, Idle, false, TinyGuest(1, false)), DCheck,
            TinyAt(EVENT_ENABLE, Idle, false, TinyGuest(0, true)))
  {
  }

  lemma TinyKicks()
    ensures Goes(TinyAt(EVENT_ENABLE, Idle, false, TinyGuest(0, true)), DKick,
            TinyAt(EVENT_ENABLE, Idle, true, TinyGuest(0, false)))
  {
  }

  lemma PlayFour(w0: World, w1: World, w2: World, w3: World, w4: World, a: Label, b: Label, c: Label, d: Label)
    requires Goes(w0, a, w1) && Goes(w1, b, w2) && Goes(w2, c, w3) && Goes(w3, d, w4)
    ensures Playable(w0, [a, b, c, d]) && Play(w0, [a, b, c, d]) == w4
  {
    hide Ready, Do;
    PlayCons(w3, d, []);
    PlayCons(w2, c, [d]);
    PlayCons(w1, b, [c, d]);
    PlayCons(w0, a, [b, c, d]);
  }

  lemma TinyPublishes()
    ensures Playable(Tiny(), [DBegin(ONE), DPublish(ONE), DCheck, DKick])
    ensures Play(Tiny(), [DBegin(ONE), DPublish(ONE), DCheck, DKick])
            == TinyAt(EVENT_ENABLE, Idle, true, TinyGuest(0, false))
  {
    hide Goes, Tiny, TinyAt, Playable, Play, TinyStaged;
    TinyBegins();
    TinyPublished();
    TinyChecks();
    TinyKicks();
    PlayFour(Tiny(), TinyStaged(), TinyAt(EVENT_ENABLE, Idle, false, TinyGuest(1, false)),
             TinyAt(EVENT_ENABLE, Idle, false, TinyGuest(0, true)),
                 TinyAt(EVENT_ENABLE, Idle, true, TinyGuest(0, false)),
             DBegin(ONE), DPublish(ONE), DCheck, DKick);
  }

  lemma TinyFetches()
    ensures Goes(TinyAt(EVENT_DISABLE, Fetch, false, TinyGuest(0, false)), VFetch,
                 TinyAt(EVENT_DISABLE, Running(ONE, false), false, TinyGuest(0, false)))
  {
    var w := TinyAt(EVENT_DISABLE, Fetch, false, TinyGuest(0, false));
    assert PackedWalk(w.ring.desc, 0, 1) == Some((0, ONE.bufs));
  }

  lemma TinyStarts()
    ensures var g := TinyGuest(0, false);
            && Goes(TinyAt(EVENT_ENABLE, Idle, true, g), VStart, TinyAt(EVENT_ENABLE, Top, false, g))
            && Goes(TinyAt(EVENT_ENABLE, Top, false, g), VTop, TinyAt(EVENT_ENABLE, Disable, false, g))
            && Goes(TinyAt(EVENT_ENABLE, Disable, false, g), VDisable, TinyAt(EVENT_DISABLE, Fetch, false, g))
  {
  }

  lemma TinyCalls()
    ensures var w := TinyAt(EVENT_ENABLE, Idle, true, TinyGuest(0, false));
            && Playable(w, [VStart, VTop, VDisable, VFetch])
            && Play(w, [VStart, VTop, VDisable, VFetch])
                == TinyAt(EVENT_DISABLE, Running(ONE, false), false, TinyGuest(0, false))
  {
    hide Goes, TinyAt, Playable, Play;
    var g := TinyGuest(0, false);
    TinyStarts();
    TinyFetches();
    PlayFour(TinyAt(EVENT_ENABLE, Idle, true, g), TinyAt(EVENT_ENABLE, Top, false, g),
        TinyAt(EVENT_ENABLE, Disable, false, g),
             TinyAt(EVENT_DISABLE, Fetch, false, g), TinyAt(EVENT_DISABLE, Running(ONE, false), false, g),
             VStart, VTop, VDisable, VFetch);
  }

  lemma TinyInCallback()
    ensures Booted(Tiny()) && Playable(Tiny(), ToCallback())
    ensures Play(Tiny(), ToCallback()) == TinyAt(EVENT_DISABLE, Running(ONE, false), false, TinyGuest(0, false))
  {
    hide Ready, Do, Play, Playable, Booted;
    TinyBooted();
    TinyPublishes();
    TinyCalls();
    PlayConcat(Tiny(), [DBegin(ONE), DPublish(ONE), DCheck, DKick], [VStart, VTop, VDisable, VFetch]);
  }

  /** When the callback breaks off, the chain is left published, notifications stay off, and no kick is
      coming: calling `handle_desc` again is the caller's business. */
  lemma BreakLeavesWork()
    ensures exists w, run ::
              && Booted(w) && Playable(w, run)
              && var v := Play(w, run);
                   v.pc.Idle? && Fits(v.ring, v.avail) && DescAvail(v.ring, v.avail) && NoKickComing(v)
  {
    var g, run := TinyGuest(0, false), ToCallback() + [VOp(Break), VLeave];
    var w0, w1 := TinyAt(EVENT_DISABLE, Running(ONE, false), false, g), TinyAt(EVENT_DISABLE, Leave, false, g);
    assert Do(w0, VOp(Break)) == w1;
    PlayCons(w1, VLeave, []);
    PlayCons(w0, VOp(Break), [VLeave]);
    TinyInCallback();
    PlayConcat(Tiny(), ToCallback(), [VOp(Break), VLeave]);
    var v := Play(Tiny(), run);
    assert v == TinyAt(EVENT_DISABLE, Idle, false, g);
  }

  function TinyParked(notification: nat, pc: Pc<Chain>, deferred: map<nat, Chain>): World {
    World(TinyFull(notification), Wrapped(WrappedIndex(0, false)), Wrapped(WrappedIndex(0, true)), deferred, pc, false,
        0, false,
          TinyGuest(0, false))
  }

  lemma TinyParksChain()
    ensures var w := TinyAt(EVENT_DISABLE, Running(ONE, false), false, TinyGuest(0, false));
            Playable(w, [VOp(Deferred), VFetch]) && Play(w, [VOp(Deferred), VFetch])
                == TinyParked(EVENT_DISABLE, Enable(false), map[0 := ONE])
  {
    var w0 := TinyAt(EVENT_DISABLE, Running(ONE, false), false, TinyGuest(0, false));
    assert Operation(w0, Deferred).deferred == map[0 := ONE];
    var w1 := TinyParked(EVENT_DISABLE, Fetch, map[0 := ONE]);
    assert Do(w0, VOp(Deferred)) == w1;
    PlayCons(w1, VFetch, []);
    PlayCons(w0, VOp(Deferred), [VFetch]);
  }

  lemma TinySettles()
    ensures var w, run := TinyParked(EVENT_DISABLE, Enable(false), map[0 := ONE]), [VEnable, VTop, VLeave];
            Playable(w, run) && Play(w, run) == TinyParked(EVENT_ENABLE, Idle, map[0 := ONE])
  {
    var d := map[0 := ONE];
    var w2 := TinyParked(EVENT_DISABLE, Enable(false), d);
    var w3 := TinyParked(EVENT_ENABLE, Top, d);
    assert Do(w2, VEnable) == w3;
    var w4 := TinyParked(EVENT_ENABLE, Leave, d);
    assert Do(w3, VTop) == w4;
    PlayCons(w4, VLeave, []);
    PlayCons(w3, VTop, [VLeave]);
    PlayCons(w2, VEnable, [VTop, VLeave]);
  }

  lemma TinyLoses()
    ensures var w, run := TinyParked(EVENT_ENABLE, Idle, map[0 := ONE]), [VLate(0), VOp(Error)];
            Playable(w, run) && Play(w, run) == TinyParked(EVENT_ENABLE, Idle, map[])
  {
    var w0, w1 := TinyParked(EVENT_ENABLE, Idle, map[0 := ONE]), TinyParked(EVENT_ENABLE, Running(ONE, true), map[]);
    assert w0.deferred - {0} == map[];
    assert Do(w0, VLate(0)) == w1;
    PlayCons(w1, VOp(Error), []);
    PlayCons(w0, VLate(0), [VOp(Error)]);
  }

  /** A deferred callback that fails loses its chain: it is gone from the deferred map, yet `avail` stays
      ahead of `used` by its slots. */
  lemma FailedDeferredLosesChain()
    ensures exists w, run ::
              Booted(w) && Playable(w, run) && var v := Play(w, run);
                v.pc.Idle? && v.deferred == map[] && v.avail != v.used
  {
    hide Ready, Do, Play, Playable, Booted;
    var late, parks, settles := [VLate(0), VOp(Error)], [VOp(Deferred), VFetch], [VEnable, VTop, VLeave];
    TinyInCallback();
    TinyParksChain();
    TinySettles();
    TinyLoses();
    PlayConcat(Tiny(), ToCallback(), parks);
    PlayConcat(Tiny(), ToCallback() + parks, settles);
    PlayConcat(Tiny(), ToCallback() + parks + settles, late);
    var v := Play(Tiny(), ToCallback() + parks + settles + late);
    assert v.pc.Idle? && v.deferred == map[] && v.avail != v.used;
  }

  /** One chain returned with an interrupt due, as the device goes on to look for the next. */
  function TinyReturned(pc: Pc<Chain>, send: bool, guest: Guest, full: bool): World {
    var d := if full then PackedDesc(0, 0, 0, DescFlag(false, false, false, false, true, 0))
             else PackedDesc(0, 0, 0, DescFlag(false, false, false, true, true, 0));
    var at := Wrapped(WrappedIndex(0, false));
    World(PackedRing(1, [d], false, EVENT_DISABLE, DescEvent(WrappedIndex(0, true), EVENT_ENABLE)),
          at, at, map[], pc, send, 0, false, guest)
  }

  lemma TinyPuts()
    ensures var w, g := TinyAt(EVENT_DISABLE, Running(ONE, false), false, TinyGuest(0, false)), TinyGuest(0, false);
            Playable(w, [VOp(Done(0)), VPut]) && Play(w, [VOp(Done(0)), VPut])
                == TinyAt(EVENT_DISABLE, Publishing(ONE, 0, false), false, g)
  {
    var g := TinyGuest(0, false);
    var w0 := TinyAt(EVENT_DISABLE, Running(ONE, false), false, g);
    var w1 := TinyAt(EVENT_DISABLE, Writing(ONE, 0, false), false, g);
    assert Do(w0, VOp(Done(0))) == w1;
    var w2 := TinyAt(EVENT_DISABLE, Publishing(ONE, 0, false), false, g);
    assert PutElem(w1.ring, w1.used, 0, 0).desc == w2.ring.desc;
    assert Do(w1, VPut) == w2;
    PlayCons(w1, VPut, []);
    PlayCons(w0, VOp(Done(0)), [VPut]);
  }

  lemma TinyReturns()
    ensures var w, g := TinyAt(EVENT_DISABLE, Publishing(ONE, 0, false), false, TinyGuest(0, false)),
            TinyGuest(0, false);
            Playable(w, [VPublish, VAsk]) && Play(w, [VPublish, VAsk]) == TinyReturned(Fetch, true, g, false)
  {
    var g := TinyGuest(0, false);
    var w2 := TinyAt(EVENT_DISABLE, Publishing(ONE, 0, false), false, g);
    var w3 := TinyReturned(AskIrq(1, false), false, g, false).(avail := Wrapped(WrappedIndex(0, true)));
    assert PutVisible(w2.ring, w2.used).desc == w3.ring.desc;
    assert Do(w2, VPublish) == w3;
    PlayCons(w3, VAsk, []);
    PlayCons(w2, VPublish, [VAsk]);
  }

  function TinyReclaimed(stage: Option<Stage>): Guest {
    var at := Wrapped(WrappedIndex(0, false));
    Guest(stage, at, at, 1, map[], 0, 0, false, [UsedElem(0, 0)], false)
  }

  lemma TinyReclaims()
    ensures var w, run := TinyReturned(Fetch, true, TinyGuest(0, false), false), [DReclaim, DBegin(ONE)];
            Playable(w, run) && Play(w, run) == TinyReturned(Fetch, true, TinyReclaimed(Some(Stage(ONE, 0))), false)
  {
    var w0 := TinyReturned(Fetch, true, TinyGuest(0, false), false);
    var w1 := TinyReturned(Fetch, true, TinyReclaimed(None), false);
    assert TinyGuest(0, false).inflight - {0} == map[];
    assert Reclaim(w0) == w1;
    PlayCons(w1, DBegin(ONE), []);
    PlayCons(w0, DReclaim, [DBegin(ONE)]);
  }

  lemma TinyAgain()
    ensures var w, run := TinyReturned(Fetch, true, TinyReclaimed(Some(Stage(ONE, 0))), false),
            [DPublish(ONE), VFetchFail];
            Playable(w, run) && Play(w, run).pc.Idle? && Play(w, run).send && Play(w, run).raised == 0
  {
    var w0 := TinyReturned(Fetch, true, TinyReclaimed(Some(Stage(ONE, 0))), false);
    var at := Wrapped(WrappedIndex(0, false));
    var w1 := TinyReturned(Fetch, true, Guest(None, Wrapped(WrappedIndex(0, true)), at, 0, map[0 := ONE], 1, 0, false,
        [UsedElem(0, 0)], false), true);
    assert Publish(w0, ONE).ring.desc == w1.ring.desc && Publish(w0, ONE).guest.inflight == w1.guest.inflight;
    assert Publish(w0, ONE) == w1;
    assert Do(w0, DPublish(ONE)) == w1;
    PlayCons(w1, VFetchFail, []);
    PlayCons(w0, DPublish(ONE), [VFetchFail]);
  }

  /** A chain that cannot be read makes `handle_desc` return on the spot, dropping an interrupt that a
      chain returned in the same call had made due. */
  lemma UnreadableChainDropsInterrupt()
    ensures exists w, run :: Booted(w) && Playable(w, run) && var v := Play(w, run);
              v.pc.Idle? && v.send && v.raised == 0
  {
    hide Ready, Do, Play, Playable, Booted;
    var puts, back := [VOp(Done(0)), VPut], [VPublish, VAsk];
    var reclaims, again := [DReclaim, DBegin(ONE)], [DPublish(ONE), VFetchFail];
    TinyInCallback();
    TinyPuts();
    TinyReturns();
    TinyReclaims();
    TinyAgain();
    PlayConcat(Tiny(), ToCallback(), puts);
    PlayConcat(Tiny(), ToCallback() + puts, back);
    PlayConcat(Tiny(), ToCallback() + puts + back, reclaims);
    PlayConcat(Tiny(), ToCallback() + puts + back + reclaims, again);
    var v := Play(Tiny(), ToCallback() + puts + back + reclaims + again);
    assert v.pc.Idle? && v.send && v.raised == 0;
  }
}
