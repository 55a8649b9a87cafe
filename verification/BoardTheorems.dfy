/**
 What the barrier guarantees over every run of the board, and what breaks it.
 */
module BoardTheorems {
  import opened Board

  // ------------------------------------------------------------- counting waiters

  /** VCPUs blocked in a barrier and not notified. */
  function Waiters(vcpus: seq<Vcpu>): nat {
    if vcpus == [] then 0
    else Waiters(vcpus[..|vcpus| - 1]) + if Waiting(vcpus[|vcpus| - 1]) then 1 else 0
  }

  lemma {:induction false} WaitersUpdate(vcpus: seq<Vcpu>, i: nat, v: Vcpu)
    requires i < |vcpus|
    ensures Waiters(vcpus[i := v]) + (if Waiting(vcpus[i]) then 1 else 0)
            == Waiters(vcpus) + (if Waiting(v) then 1 else 0)
    decreases |vcpus|
  {
    var n := |vcpus| - 1;
    if i < n {
      assert vcpus[i := v][..n] == vcpus[..n][i := v];
      WaitersUpdate(vcpus[..n], i, v);
    } else {
      assert vcpus[i := v][..n] == vcpus[..n];
    }
  }

  lemma {:induction false} WaitersNone(vcpus: seq<Vcpu>)
    ensures Waiters(vcpus) == 0 <==> forall i :: 0 <= i < |vcpus| ==> !Waiting(vcpus[i])
    ensures Waiters(vcpus) <= |vcpus|
    decreases |vcpus|
  {
    if vcpus != [] { WaitersNone(vcpus[..|vcpus| - 1]); }
  }

  /** Once notified, nobody waits. */
  lemma NotifyWakes(vcpus: seq<Vcpu>)
    ensures |NotifyAll(vcpus)| == |vcpus| && Waiters(NotifyAll(vcpus)) == 0
  {
    WaitersNone(NotifyAll(vcpus));
  }

  // ------------------------------------------------------------------- invariant

  /** The barrier call or segment a VCPU is in is the one its count of barriers says. */
  predicate InPlace(coco: bool, v: Vcpu) {
    match v.pc
    case Start | Gate | GateWait(_) | Load => v.left == LoadSegment(coco, v.round)
    case Enter(b) => v.left == SegmentBefore(coco, b, v.round) && (b.ApBarrier? || b.FinalBarrier? ==> coco)
    case Wait(b, _) => v.left == SegmentBefore(coco, b, v.round) && (b.ApBarrier? || b.FinalBarrier? ==> coco)
    case ApInit => coco && v.left == ApSegment(v.round)
    case Finalize => coco && v.left == FinalSegment(v.round)
    case Guest | Exited(_) | PauseWait(_, _) | Reset(_) => v.left == GuestSegment(coco, v.round)
    case Failing | Gone => true
  }

  /** A VCPU's barrier counts against the number of barriers released. */
  predicate InStep(released: nat, fatal: bool, v: Vcpu) {
    match v.pc
    case Wait(_, notified) =>
      if !notified then !fatal && v.left == released && v.entered == released + 1
      else
        || (v.entered == released && v.left + 1 == released)
        || (fatal && v.left == released && v.entered == released + 1)
    case Failing | Gone => v.left <= released <= v.entered && (!fatal ==> v.entered == released)
    case _ => v.left == v.entered == released
  }

  ghost predicate Marching(s: State) {
    forall i :: 0 <= i < |s.vcpus| ==> InPlace(s.coco, s.vcpus[i]) && InStep(s.released, s.fatal, s.vcpus[i])
  }

  ghost predicate Counted(s: State) {
    !s.fatal ==> s.count == Waiters(s.vcpus)
  }

  /** Every segment a VCPU has taken to a barrier is on record. */
  ghost predicate Recorded(s: State) {
    forall j: nat, k: nat :: j < |s.vcpus| && k < s.vcpus[j].entered ==> End(j, k) in s.log
  }

  /** All of the first `n` VCPUs have ended a segment. */
  ghost predicate EndedByAll(log: seq<Event>, n: nat, segment: nat) {
    forall j: nat :: j < n ==> End(j, segment) in log
  }

  /** A segment begins only when every VCPU has ended the one before. */
  ghost predicate InOrder(log: seq<Event>, n: nat) {
    forall p :: 0 <= p < |log| && log[p].Begin? && log[p].segment > 0 ==> EndedByAll(log[..p], n, log[p].segment - 1)
  }

  ghost predicate Inv(s: State) {
    0 < |s.vcpus| && Marching(s) && Counted(s) && Recorded(s) && InOrder(s.log, |s.vcpus|)
  }

  lemma FreshInv(s: State)
    requires Fresh(s)
    ensures Inv(s)
  {
    WaitersNone(s.vcpus);
  }

  // ---------------------------------------------------------------- preservation

  /** Moving one VCPU without waiting or logging. */
  lemma MoveKeeps(s: State, i: nat, v: Vcpu)
    requires Inv(s) && i < |s.vcpus| && !Waiting(s.vcpus[i]) && !Waiting(v)
    requires v.entered == s.vcpus[i].entered
    requires InPlace(s.coco, v) && InStep(s.released, s.fatal, v)
    ensures Inv(Put(s, i, v))
  {
    hide InPlace, InStep;
    WaitersUpdate(s.vcpus, i, v);
  }

  /** The board state plays no part in the invariant. */
  lemma StateKeeps(s: State, state: BoardState)
    requires Inv(s)
    ensures Inv(s.(state := state))
  {
  }

  lemma LogKeeps(s: State, e: Event)
    requires Inv(s)
    requires e.Begin? && e.segment > 0 ==> EndedByAll(s.log, |s.vcpus|, e.segment - 1)
    ensures Inv(s.(log := s.log + [e]))
  {
    OrderGrows(s.log, |s.vcpus|, e);
  }

  lemma OrderGrows(log: seq<Event>, n: nat, e: Event)
    requires InOrder(log, n)
    requires e.Begin? && e.segment > 0 ==> EndedByAll(log, n, e.segment - 1)
    ensures InOrder(log + [e], n)
  {
    var more := log + [e];
    forall p | 0 <= p < |more| && more[p].Begin? && more[p].segment > 0
      ensures EndedByAll(more[..p], n, more[p].segment - 1)
    {
      if p < |log| { assert more[..p] == log[..p]; } else { assert more[..p] == log; }
    }
  }

  /** What begins at the released count has been ended by all. */
  lemma BeginsInOrder(s: State, segment: nat)
    requires Marching(s) && Recorded(s) && 0 < segment <= s.released
    ensures EndedByAll(s.log, |s.vcpus|, segment - 1)
  {
    var before := segment - 1;
    forall j: nat | j < |s.vcpus|
      ensures End(j, before) in s.log
    {
      assert InStep(s.released, s.fatal, s.vcpus[j]);
    }
  }

  lemma GateKeeps(s: State, i: nat)
    requires Inv(s) && i < |s.vcpus| && (s.vcpus[i].pc.Gate? || s.vcpus[i].pc.GateWait?)
    ensures Inv(AtGate(s, i))
  {
    var v := s.vcpus[i];
    MoveKeeps(s, i, v.(pc := GateWait(false)));
    MoveKeeps(s, i, v.(pc := Gone));
    MoveKeeps(s, i, v.(pc := Load));
    var t := Goto(s, i, Load);
    if v.left > 0 { BeginsInOrder(t, v.left); }
    LogKeeps(t, Begin(i, v.left));
    StateKeeps(Started(t, i), Running);
  }

  /** Leaving a barrier that has been released. */
  lemma LeaveKeeps(s: State, i: nat, b: Barrier)
    requires Inv(s) && i < |s.vcpus| && s.vcpus[i].pc == Wait(b, true) && !s.fatal
    ensures Inv(Leave(s, i, b))
  {
    var v := s.vcpus[i];
    var w := v.(pc := After(b), left := v.left + 1, round := if b.RebootBarrier? then v.round + 1 else v.round);
    MoveKeeps(s, i, w);
    var t := Put(s, i, w);
    BeginsInOrder(t, w.left);
    LogKeeps(t, Begin(i, w.left));
  }

  /** Entering a barrier that is not yet full. */
  lemma EnterKeeps(s: State, i: nat, b: Barrier)
    requires Inv(s) && i < |s.vcpus| && s.vcpus[i].pc == Enter(b) && !s.fatal
    ensures var v := s.vcpus[i];
            Inv(s.(vcpus := s.vcpus[i := v.(entered := v.entered + 1, pc := Wait(b, false))], count := s.count + 1,
                log := s.log + [End(i, v.left)]))
  {
    var v := s.vcpus[i];
    var w := v.(entered := v.entered + 1, pc := Wait(b, false));
    WaitersUpdate(s.vcpus, i, w);
    OrderGrows(s.log, |s.vcpus|, End(i, v.left));
    var t := s.(vcpus := s.vcpus[i := w], count := s.count + 1, log := s.log + [End(i, v.left)]);
    assert Marching(t) by { hide InPlace; assert InPlace(s.coco, w); }
    assert Recorded(t) by { assert InStep(s.released, s.fatal, v); }
  }

  /** The last one in: everybody is waiting, so everybody has entered. */
  lemma AllIn(s: State)
    requires Inv(s) && !s.fatal && s.count == |s.vcpus|
    ensures forall j :: 0 <= j < |s.vcpus| ==> Waiting(s.vcpus[j])
  {
    forall j | 0 <= j < |s.vcpus|
      ensures Waiting(s.vcpus[j])
    {
      if !Waiting(s.vcpus[j]) {
        var w := Vcpu(Wait(BootBarrier, false), 0, 0, 0);
        WaitersUpdate(s.vcpus, j, w);
        WaitersNone(s.vcpus[j := w]);
        assert false;
      }
    }
  }

  /** Releasing a full barrier. */
  lemma ReleaseKeeps(s: State)
    requires Inv(s) && !s.fatal && s.count == |s.vcpus|
    ensures Inv(s.(count := 0, released := s.released + 1, vcpus := NotifyAll(s.vcpus)))
  {
    AllIn(s);
    NotifyWakes(s.vcpus);
    hide InOrder;
  }

  /** The last VCPU in passes through the same states as one that enters, is released and leaves. */
  lemma SyncLast(s: State, i: nat, b: Barrier)
    requires i < |s.vcpus| && s.vcpus[i].pc == Enter(b) && !s.fatal && s.count + 1 == |s.vcpus|
    ensures var v := s.vcpus[i];
            var t := s.(vcpus := s.vcpus[i := v.(entered := v.entered + 1, pc := Wait(b, false))],
                count := s.count + 1, log := s.log + [End(i, v.left)]);
            Sync(s, i, b) == Leave(t.(count := 0, released := s.released + 1, vcpus := NotifyAll(t.vcpus)), i, b)
  {
    var v := s.vcpus[i];
    var e := s.vcpus[i := v.(entered := v.entered + 1)];
    var w := s.vcpus[i := v.(entered := v.entered + 1, pc := Wait(b, false))];
    var x := Sync(s, i, b).vcpus[i];
    assert NotifyAll(e)[i := x] == NotifyAll(w)[i := x];
  }

  lemma SyncKeeps(s: State, i: nat, b: Barrier)
    requires Inv(s) && i < |s.vcpus| && s.vcpus[i].pc == Enter(b)
    ensures Inv(Sync(s, i, b))
  {
    hide Inv;
    var v := s.vcpus[i];
    if s.fatal {
      FatalSync(s, i, b);
    } else {
      EnterKeeps(s, i, b);
      var t := s.(vcpus := s.vcpus[i := v.(entered := v.entered + 1, pc := Wait(b, false))], count := s.count + 1,
          log := s.log + [End(i, v.left)]);
      if s.count + 1 == |s.vcpus| {
        ReleaseKeeps(t);
        SyncLast(s, i, b);
        LeaveKeeps(t.(count := 0, released := s.released + 1, vcpus := NotifyAll(t.vcpus)), i, b);
      } else {
        assert Sync(s, i, b).vcpus == t.vcpus;
      }
    }
  }

  lemma FatalSync(s: State, i: nat, b: Barrier)
    requires Inv(s) && i < |s.vcpus| && s.vcpus[i].pc == Enter(b) && s.fatal
    ensures Inv(Sync(s, i, b))
  {
    hide InOrder, Waiters;
    PlaceOf(s, i);
    MoveKeeps(s, i, s.vcpus[i].(pc := Gone));
  }

  lemma FailKeeps(s: State, i: nat)
    requires Inv(s) && i < |s.vcpus| && s.vcpus[i].pc.Failing?
    ensures Inv(Fail(s, i))
  {
    PlaceOf(s, i);
    MoveKeeps(s, i, s.vcpus[i].(pc := Gone));
    hide Inv;
    var t := Goto(s, i, Gone);
    if s.count > 0 { FatalWakes(t); } else { FatalQuiet(t); }
  }

  /** Setting `fatal` and waking everybody. */
  lemma FatalWakes(t: State)
    requires Inv(t)
    ensures Inv(t.(fatal := true, vcpus := NotifyAll(t.vcpus)))
  {
    hide InOrder, InPlace, InStep, Waiters;
    var u := t.(fatal := true, vcpus := NotifyAll(t.vcpus));
    forall k | 0 <= k < |t.vcpus|
      ensures InPlace(u.coco, u.vcpus[k]) && InStep(u.released, true, u.vcpus[k])
              && u.vcpus[k].entered == t.vcpus[k].entered
    {
      PlaceOf(t, k);
      NotifyInPlace(t.coco, t.vcpus[k]);
      NotifyInStep(t.released, t.fatal, t.vcpus[k]);
    }
  }

  lemma NotifyInStep(released: nat, fatal: bool, v: Vcpu)
    requires InStep(released, fatal, v)
    ensures InStep(released, true, Notify(v))
  {
  }

  /** Setting `fatal` when the counter is zero: nobody waits. */
  lemma FatalQuiet(t: State)
    requires Inv(t) && t.count == 0
    ensures Inv(t.(fatal := true))
  {
    hide InOrder, InPlace, Waiters;
    WaitersNone(t.vcpus);
  }

  lemma NotifyInPlace(coco: bool, v: Vcpu)
    requires InPlace(coco, v)
    ensures InPlace(coco, Notify(v)) && Notify(v).entered == v.entered
  {
  }

  lemma MoveOne(s: State, i: nat, pc: Pc)
    requires Inv(s) && i < |s.vcpus| && !s.vcpus[i].pc.Wait? && !pc.Wait?
    requires s.vcpus[i].pc.Failing? || s.vcpus[i].pc.Gone? ==> pc.Failing? || pc.Gone?
    requires InPlace(s.coco, s.vcpus[i].(pc := pc))
    ensures Inv(Goto(s, i, pc))
  {
    assert InStep(s.released, s.fatal, s.vcpus[i]);
    MoveKeeps(s, i, s.vcpus[i].(pc := pc));
  }

  lemma WorkKeeps(s: State, i: nat, ok: bool, request: Request)
    requires Inv(s) && i < |s.vcpus|
    requires var pc := s.vcpus[i].pc; pc.Start? || pc.Load? || pc.ApInit? || pc.Finalize? || pc.Guest? || pc.Reset?
    ensures Inv(Step(s, i, ok, request))
  {
    hide Marching, Counted, Recorded, InOrder;
    assert InPlace(s.coco, s.vcpus[i]) by { PlaceOf(s, i); }
    var t := Step(s, i, ok, request);
    MoveOne(s, i, t.vcpus[i].pc);
  }

  lemma PlaceOf(s: State, i: nat)
    requires Marching(s) && i < |s.vcpus|
    ensures InPlace(s.coco, s.vcpus[i]) && InStep(s.released, s.fatal, s.vcpus[i])
  {
  }

  lemma ExitKeeps(s: State, i: nat, ok: bool, request: Request)
    requires Inv(s) && i < |s.vcpus| && (s.vcpus[i].pc.Exited? || s.vcpus[i].pc.PauseWait?)
    ensures Inv(Step(s, i, ok, request))
  {
    hide Marching, Counted, Recorded, InOrder, InStep;
    PlaceOf(s, i);
    var t := Step(s, i, ok, request);
    MoveOne(s, i, t.vcpus[i].pc);
    StateKeeps(Goto(s, i, t.vcpus[i].pc), t.state);
    assert t.vcpus == Goto(s, i, t.vcpus[i].pc).vcpus;
  }

  lemma WaitKeeps(s: State, i: nat, ok: bool, request: Request)
    requires Inv(s) && i < |s.vcpus| && s.vcpus[i].pc.Wait?
    ensures Inv(Step(s, i, ok, request))
  {
    var v := s.vcpus[i];
    if v.pc.notified {
      PlaceOf(s, i);
      if s.fatal { MoveKeeps(s, i, v.(pc := Gone)); } else { LeaveKeeps(s, i, v.pc.b); }
    }
  }

  /** Every step of a VCPU keeps the invariant. */
  lemma StepKeeps(s: State, i: nat, ok: bool, request: Request)
    requires Inv(s) && i < |s.vcpus|
    ensures Inv(Step(s, i, ok, request))
  {
    hide Inv;
    match s.vcpus[i].pc
    case Gate => GateKeeps(s, i);
    case GateWait(_) => GateKeeps(s, i);
    case Enter(b) => SyncKeeps(s, i, b);
    case Wait(_, _) => WaitKeeps(s, i, ok, request);
    case Exited(_) => ExitKeeps(s, i, ok, request);
    case PauseWait(_, _) => ExitKeeps(s, i, ok, request);
    case Failing => FailKeeps(s, i);
    case Gone =>
    case _ => WorkKeeps(s, i, ok, request);
  }

  /** `resume` shares the condition variable with the barrier, so it must find nobody waiting there. */
  predicate Undisturbed(s: State, l: Label) {
    l.Resume? && s.state == Paused ==> s.fatal || s.count == 0
  }

  lemma ResumeKeeps(s: State)
    requires Inv(s) && Undisturbed(s, Resume)
    ensures Inv(Next(s, Resume))
  {
    if s.state == Paused {
      WaitersNone(s.vcpus);
      NotifyWakes(s.vcpus);
      hide InOrder;
      forall i | 0 <= i < |s.vcpus|
        ensures InPlace(s.coco, Notify(s.vcpus[i])) && InStep(s.released, s.fatal, Notify(s.vcpus[i]))
      {
        PlaceOf(s, i);
      }
    }
  }

  lemma NextKeeps(s: State, l: Label)
    requires Inv(s) && Undisturbed(s, l)
    ensures Inv(Next(s, l))
  {
    hide Inv, Step;
    match l
    case Act(i, ok, request) => if i < |s.vcpus| { StepKeeps(s, i, ok, request); }
    case Resume => ResumeKeeps(s);
    case Pause => StateKeeps(s, Paused);
  }

  // -------------------------------------------------------------------- requests

  /** Where a request leads while the board runs: a reboot and a shutdown to a reset, a pause to waiting; and what state
      the board is in then. On a board that has stopped already the request is not looked at. */
  lemma RequestLeads(s: State, i: nat, other: Request)
    requires i < |s.vcpus| && s.vcpus[i].pc.Exited?
    ensures var request, t := s.vcpus[i].pc.request, Step(s, i, true, other);
            && |t.vcpus| == |s.vcpus|
            && (s.state == Running ==>
                  && (request == AskReboot ==> t.state == RebootPending && t.vcpus[i].pc == Reset(request))
                  && (request == AskPause ==> t.state == Paused && t.vcpus[i].pc == PauseWait(request, false))
                  && (request == AskShutdown || request == Broken ==>
                        t.state == Shutdown && t.vcpus[i].pc == Reset(request)))
            && (s.state != Running ==> t.state == s.state)
  {
  }

  /** After the reset, a VCPU whose loop broke fails and any other goes to the barrier; past that, a board that was to
      reboot runs again and loads, and one that was to shut down lets its VCPUs go. */
  lemma ResetLeads(s: State, i: nat, other: Request)
    requires i < |s.vcpus|
    ensures s.vcpus[i].pc.Reset? ==>
              Step(s, i, true, other).vcpus[i].pc
              == if s.vcpus[i].pc.request == Broken then Failing else Enter(RebootBarrier)
    ensures s.vcpus[i].pc == Gate ==>
              var t := Step(s, i, true, other);
              && (s.state == RebootPending ==> t.state == Running && t.vcpus[i].pc == Load)
              && (s.state == Running ==> t.state == Running && t.vcpus[i].pc == Load)
              && (s.state == Shutdown ==> t.state == Shutdown && t.vcpus[i].pc == Gone)
              && (s.state == Paused ==> t.state == Paused && t.vcpus[i].pc == GateWait(false))
  {
  }

  // ------------------------------------------------------------------------ runs

  function Run(s: State, run: seq<Label>): State
    decreases |run|
  {
    if run == [] then s else Run(Next(s, run[0]), run[1..])
  }

  /** No `resume` of the run wakes a VCPU out of a barrier. */
  ghost predicate Quiet(s: State, run: seq<Label>)
    decreases |run|
  {
    run == [] || (Undisturbed(s, run[0]) && Quiet(Next(s, run[0]), run[1..]))
  }

  lemma {:induction false} RunKeeps(s: State, run: seq<Label>)
    requires Inv(s) && Quiet(s, run)
    ensures Inv(Run(s, run)) && |Run(s, run).vcpus| == |s.vcpus| && Run(s, run).coco == s.coco
    decreases |run|
  {
    hide Inv, Undisturbed;
    if run != [] {
      NextKeeps(s, run[0]);
      SameVcpus(s, run[0]);
      RunKeeps(Next(s, run[0]), run[1..]);
    }
  }

  lemma SameVcpus(s: State, l: Label)
    ensures |Next(s, l).vcpus| == |s.vcpus| && Next(s, l).coco == s.coco
  {
    if l.Act? && l.vcpu < |s.vcpus| {
      var i := l.vcpu;
      hide Put, Notify;
      if s.vcpus[i].pc.Enter? {
        SyncSame(s, i, s.vcpus[i].pc.b);
      } else if !s.vcpus[i].pc.Failing? {
        OneMoves(s, i, l.ok, l.request);
      }
    }
  }

  lemma SyncSame(s: State, i: nat, b: Barrier)
    requires i < |s.vcpus|
    ensures |Sync(s, i, b).vcpus| == |s.vcpus| && Sync(s, i, b).coco == s.coco
    ensures s.count < |s.vcpus| ==> Sync(s, i, b).count < |s.vcpus|
  {
  }

  /** No VCPU has left its k-th barrier before all have entered theirs. */
  predicate Together(s: State) {
    forall i, j :: 0 <= i < |s.vcpus| && 0 <= j < |s.vcpus| ==> s.vcpus[i].left <= s.vcpus[j].entered
  }

  /** Over any number of VCPUs and reboots, and whatever fails: no VCPU has left its k-th barrier before all
      have entered theirs, and until a failure the counter is the number of VCPUs blocked. */
  lemma BarrierHolds(s: State, run: seq<Label>)
    requires Fresh(s) && Quiet(s, run)
    ensures var t := Run(s, run);
            Together(t) && (!t.fatal ==> t.count == Waiters(t.vcpus))
  {
    FreshInv(s);
    RunKeeps(s, run);
    var t := Run(s, run);
    hide Fresh, Quiet, Recorded, InOrder;
    forall i, j | 0 <= i < |t.vcpus| && 0 <= j < |t.vcpus|
      ensures t.vcpus[i].left <= t.vcpus[j].entered
    {
      PlaceOf(t, i);
      PlaceOf(t, j);
    }
  }

  /** The phases of booting, in every round. An AP initialises only after index 0 has loaded the payload;
      index 0 finalises only after every AP has initialised; and no VCPU runs guest code before every VCPU has
      done all of its boot work. */
  lemma BootPhases(s: State, run: seq<Label>, i: nat)
    requires Fresh(s) && Quiet(s, run) && i < |s.vcpus|
    ensures var t := Run(s, run);
            && i < |t.vcpus|
            && var v := t.vcpus[i];
            && (v.pc.ApInit? ==> t.coco && End(0, LoadSegment(true, v.round)) in t.log)
            && (v.pc.Finalize? ==> t.coco && EndedByAll(t.log, |t.vcpus|, ApSegment(v.round)))
            && (v.pc.Guest? ==> EndedByAll(t.log, |t.vcpus|, SegmentBefore(t.coco, BootBarrier, v.round)))
  {
    FreshInv(s);
    RunKeeps(s, run);
    var t := Run(s, run);
    var v := t.vcpus[i];
    PlaceOf(t, i);
    hide Fresh, Quiet, InOrder, Counted, Marching, Recorded;
    if v.pc.ApInit? || v.pc.Finalize? || v.pc.Guest? { BeginsInOrder(t, v.left); }
  }

  /** The same as an order of events: whatever segment begins, all VCPUs have ended the one before by then. */
  lemma EventsInOrder(s: State, run: seq<Label>)
    requires Fresh(s) && Quiet(s, run)
    ensures InOrder(Run(s, run).log, |s.vcpus|)
  {
    FreshInv(s);
    RunKeeps(s, run);
    hide Fresh, Quiet, Marching, Recorded, Counted;
  }

  // -------------------------------------------------------------------- failure

  /** Nobody is blocked in a barrier unless the counter knows of it, and nobody at all once `fatal` is set. */
  predicate Releasable(s: State) {
    if s.fatal then Waiters(s.vcpus) == 0 else Waiters(s.vcpus) <= s.count
  }

  lemma SyncReleasable(s: State, i: nat, b: Barrier)
    requires Releasable(s) && i < |s.vcpus| && s.vcpus[i].pc == Enter(b)
    ensures Releasable(Sync(s, i, b))
  {
    var v := s.vcpus[i];
    if s.fatal {
      WaitersUpdate(s.vcpus, i, v.(pc := Gone));
    } else {
      var e := s.vcpus[i := v.(entered := v.entered + 1)];
      WaitersUpdate(s.vcpus, i, e[i]);
      if s.count + 1 == |s.vcpus| {
        NotifyWakes(e);
        WaitersUpdate(NotifyAll(e), i, Sync(s, i, b).vcpus[i]);
      } else {
        WaitersUpdate(e, i, Sync(s, i, b).vcpus[i]);
      }
    }
  }

  lemma ReleasableNext(s: State, l: Label)
    requires Releasable(s)
    ensures Releasable(Next(s, l))
  {
    match l
    case Resume => NotifyWakes(s.vcpus);
    case Pause =>
    case Act(i, ok, request) =>
      if i < |s.vcpus| {
        var t := Step(s, i, ok, request);
        if s.vcpus[i].pc.Enter? {
          SyncReleasable(s, i, s.vcpus[i].pc.b);
        } else if s.vcpus[i].pc.Failing? {
          WaitersUpdate(s.vcpus, i, s.vcpus[i].(pc := Gone));
          NotifyWakes(s.vcpus[i := s.vcpus[i].(pc := Gone)]);
        } else {
          hide Waiters;
          OneMoves(s, i, ok, request);
          WaitersUpdate(s.vcpus, i, t.vcpus[i]);
        }
      }
  }

  /** Steps other than entering a barrier and failing move one VCPU and block nobody in a barrier. */
  lemma OneMoves(s: State, i: nat, ok: bool, request: Request)
    requires i < |s.vcpus| && !s.vcpus[i].pc.Enter? && !s.vcpus[i].pc.Failing?
    ensures var t := Step(s, i, ok, request);
            |t.vcpus| == |s.vcpus| && t.vcpus == s.vcpus[i := t.vcpus[i]] && t.coco == s.coco && t.fatal == s.fatal
                && t.count == s.count
            && (Waiting(t.vcpus[i]) ==> Waiting(s.vcpus[i]))
  {
    hide AtGate, Leave, Settle;
    var v := s.vcpus[i];
    GateMoves(s, i);
    if v.pc.Wait? { LeaveMoves(s, i, v.pc.b); }
    if v.pc.PauseWait? { SettleMoves(s, i, v.pc.request); }
    if v.pc.Exited? { SettleMoves(s.(state := Requested(s.state, v.pc.request)), i, v.pc.request); }
  }

  lemma GateMoves(s: State, i: nat)
    requires i < |s.vcpus|
    ensures var t := AtGate(s, i);
            && |t.vcpus| == |s.vcpus| && t.vcpus == s.vcpus[i := t.vcpus[i]] && !t.vcpus[i].pc.Wait?
            && t.coco == s.coco && t.fatal == s.fatal && t.count == s.count
  {
  }

  lemma LeaveMoves(s: State, i: nat, b: Barrier)
    requires i < |s.vcpus|
    ensures var t := Leave(s, i, b);
            && |t.vcpus| == |s.vcpus| && t.vcpus == s.vcpus[i := t.vcpus[i]] && !t.vcpus[i].pc.Wait?
            && t.coco == s.coco && t.fatal == s.fatal && t.count == s.count
  {
  }

  lemma SettleMoves(s: State, i: nat, request: Request)
    requires i < |s.vcpus|
    ensures var t := Settle(s, i, request);
            && |t.vcpus| == |s.vcpus| && t.vcpus == s.vcpus[i := t.vcpus[i]] && !t.vcpus[i].pc.Wait?
            && t.coco == s.coco && t.fatal == s.fatal && t.count == s.count
  {
  }

  lemma {:induction false} ReleasableRun(s: State, run: seq<Label>)
    requires Releasable(s)
    ensures Releasable(Run(s, run))
    decreases |run|
  {
    hide Releasable, Next;
    if run != [] {
      ReleasableNext(s, run[0]);
      ReleasableRun(Next(s, run[0]), run[1..]);
    }
  }

  /** Once a failing VCPU has set `fatal`, no VCPU is blocked in a barrier un-notified, and whoever enters or wakes
      up in one afterwards returns with PeerFailure. This holds of every run, pauses included. */
  lemma FailureReleases(s: State, run: seq<Label>, i: nat, ok: bool, request: Request)
    requires Fresh(s)
    ensures var t := Run(s, run);
            t.fatal ==>
              && Waiters(t.vcpus) == 0
              && (i < |t.vcpus| && (t.vcpus[i].pc.Enter? || t.vcpus[i].pc.Wait?) ==>
                  Next(t, Act(i, ok, request)).vcpus[i].pc == Gone)
  {
    WaitersNone(s.vcpus);
    ReleasableRun(s, run);
    WaitersNone(Run(s, run).vcpus);
  }

  // -------------------------------------------------------- what a pause can do to it

  lemma CountBelow(s: State, l: Label)
    requires s.count < |s.vcpus|
    ensures Next(s, l).count < |s.vcpus|
  {
    if l.Act? && l.vcpu < |s.vcpus| {
      var i := l.vcpu;
      if s.vcpus[i].pc.Enter? {
        SyncSame(s, i, s.vcpus[i].pc.b);
      } else if !s.vcpus[i].pc.Failing? {
        hide Step;
        OneMoves(s, i, l.ok, l.request);
      }
    }
  }

  lemma {:induction false} CountBelowRun(s: State, run: seq<Label>)
    requires s.count < |s.vcpus|
    ensures Run(s, run).count < |s.vcpus| == |Run(s, run).vcpus|
    decreases |run|
  {
    hide Next;
    if run != [] {
      CountBelow(s, run[0]);
      SameVcpus(s, run[0]);
      CountBelowRun(Next(s, run[0]), run[1..]);
    }
  }

  /** Whenever a quiet run has led to a paused board with a VCPU in a barrier, the next `resume` wakes that VCPU, and
      if it is the first to act it leaves before all have entered. */
  lemma ResumeBreaksBarrier(s: State, run: seq<Label>, i: nat)
    requires Fresh(s) && Quiet(s, run)
    requires var t := Run(s, run); !t.fatal && t.state == Paused && i < |t.vcpus| && Waiting(t.vcpus[i])
    ensures var t := Run(s, run);
            !Undisturbed(t, Resume) && !Together(Next(Next(t, Resume), Act(i, true, AskPause)))
  {
    FreshInv(s);
    RunKeeps(s, run);
    CountBelowRun(s, run);
    hide Fresh, Quiet, Run;
    WokenEarly(Run(s, run), i);
  }

  lemma WokenEarly(s: State, i: nat)
    requires Inv(s) && !s.fatal && s.state == Paused && s.count < |s.vcpus|
    requires i < |s.vcpus| && Waiting(s.vcpus[i])
    ensures !Undisturbed(s, Resume)
    ensures !Together(Next(Next(s, Resume), Act(i, true, AskPause)))
  {
    WaitersNone(s.vcpus);
    var j := NotAllIn(s);
    PlaceOf(s, i);
    PlaceOf(s, j);
    var t := Next(Next(s, Resume), Act(i, true, AskPause));
    assert t.vcpus[i].left > t.vcpus[j].entered;
  }

  lemma NotAllIn(s: State) returns (j: nat)
    requires Counted(s) && !s.fatal && s.count < |s.vcpus|
    ensures j < |s.vcpus| && !Waiting(s.vcpus[j])
  {
    if forall k :: 0 <= k < |s.vcpus| ==> Waiting(s.vcpus[k]) {
      AllWaiting(s.vcpus);
      assert false;
    } else {
      j :| 0 <= j < |s.vcpus| && !Waiting(s.vcpus[j]);
    }
  }

  lemma {:induction false} AllWaiting(vcpus: seq<Vcpu>)
    requires forall k :: 0 <= k < |vcpus| ==> Waiting(vcpus[k])
    ensures Waiters(vcpus) == |vcpus|
    decreases |vcpus|
  {
    if vcpus != [] { AllWaiting(vcpus[..|vcpus| - 1]); }
  }

  /** Only VCPUs act. */
  ghost predicate OnlyActs(run: seq<Label>) {
    forall k :: 0 <= k < |run| ==> run[k].Act?
  }

  /** However far the run has got, whatever the VCPUs do from there: the barrier holds. */
  ghost predicate Secure(s: State, run: seq<Label>) {
    forall k, more :: 0 <= k <= |run| && OnlyActs(more) ==> Together(Run(s, run[..k] + more))
  }

  lemma {:induction false} RunAppend(s: State, run: seq<Label>, more: seq<Label>)
    ensures Run(s, run + more) == Run(Run(s, run), more)
    ensures Quiet(s, run + more) <==> Quiet(s, run) && Quiet(Run(s, run), more)
    decreases |run|
  {
    hide Next, Undisturbed;
    if run == [] {
      assert run + more == more;
    } else {
      assert (run + more)[1..] == run[1..] + more;
      RunAppend(Next(s, run[0]), run[1..], more);
    }
  }

  lemma {:induction false} ActsAreQuiet(s: State, run: seq<Label>)
    requires OnlyActs(run)
    ensures Quiet(s, run)
    decreases |run|
  {
    hide Next;
    if run != [] {
      ActsAreQuiet(Next(s, run[0]), run[1..]);
    }
  }

  /** The first label of a run that finds somebody in a barrier. */
  lemma {:induction false} FirstDisturbed(s: State, run: seq<Label>) returns (k: nat)
    requires !Quiet(s, run)
    ensures k < |run| && Quiet(s, run[..k]) && !Undisturbed(Run(s, run[..k]), run[k])
    decreases |run|
  {
    hide Next, Undisturbed;
    if !Undisturbed(s, run[0]) {
      k := 0;
    } else {
      var j := FirstDisturbed(Next(s, run[0]), run[1..]);
      k := j + 1;
      assert run[..k][1..] == run[1..][..j];
    }
  }

  /** What the barrier needs, for every run of a new board: its VCPUs cannot part at any point, however they are
      scheduled, if and only if no `resume` of the run finds one waiting in a barrier. */
  lemma BarrierIff(s: State, run: seq<Label>)
    requires Fresh(s)
    ensures Secure(s, run) <==> Quiet(s, run)
  {
    hide Fresh, Quiet, Run, Together;
    if Quiet(s, run) {
      forall k, more | 0 <= k <= |run| && OnlyActs(more)
        ensures Together(Run(s, run[..k] + more))
      {
        assert run[..k] + run[k..] == run;
        RunAppend(s, run[..k], run[k..]);
        RunAppend(s, run[..k], more);
        ActsAreQuiet(Run(s, run[..k]), more);
        BarrierHolds(s, run[..k] + more);
      }
    } else {
      var k := FirstDisturbed(s, run);
      var i := WaiterFound(s, run[..k]);
      Parted(s, run, k, i);
    }
  }

  /** With the counter above zero somebody waits. */
  lemma WaiterFound(s: State, run: seq<Label>) returns (i: nat)
    requires Fresh(s) && Quiet(s, run) && !Undisturbed(Run(s, run), Resume)
    ensures var t := Run(s, run); i < |t.vcpus| && Waiting(t.vcpus[i])
  {
    var t := Run(s, run);
    BarrierHolds(s, run);
    WaitersNone(t.vcpus);
    hide Fresh, Quiet, Run, Together;
    i :| 0 <= i < |t.vcpus| && Waiting(t.vcpus[i]);
  }

  lemma Parted(s: State, run: seq<Label>, k: nat, i: nat)
    requires Fresh(s) && k < |run| && Quiet(s, run[..k]) && !Undisturbed(Run(s, run[..k]), run[k])
    requires var t := Run(s, run[..k]); i < |t.vcpus| && Waiting(t.vcpus[i])
    ensures !Secure(s, run)
  {
    var t, act := Run(s, run[..k]), Act(i, true, AskPause);
    assert run[..k + 1] == run[..k] + [Resume];
    RunAppend(s, run[..k], [Resume]);
    RunAppend(s, run[..k + 1], [act]);
    RunOne(t, Resume);
    RunOne(Next(t, Resume), act);
    ResumeBreaksBarrier(s, run[..k], i);
    hide Fresh, Quiet, Run, Together, Next;
    assert OnlyActs([act]);
    assert !Together(Run(s, run[..k + 1] + [act]));
  }

  lemma RunOne(s: State, l: Label)
    ensures Run(s, [l]) == Next(s, l)
  {
    assert [l][1..] == [];
  }

  /** Such a state is reached by pausing while one of two VCPUs is still on its way to the boot barrier. */
  lemma PausedInBarrier()
    ensures exists s, run ::
              Fresh(s) && Quiet(s, run) && var t := Run(s, run);
                !t.fatal && t.state == Paused && |t.vcpus| == 2 && Waiting(t.vcpus[0])
  {
    var v := Vcpu(Start, 0, 0, 0);
    var s0 := State(false, [v, v], Paused, false, 0, 0, []);
    var go := Act(0, true, AskPause);
    var s1 := s0.(vcpus := [v.(pc := Gate), v]);
    assert Next(s0, go) == s1;
    var s2 := s1.(state := Running);
    assert NotifyAll(s1.vcpus) == s1.vcpus;
    assert Next(s1, Resume) == s2;
    var s3 := s2.(vcpus := [v.(pc := Load), v], log := [Begin(0, 0)]);
    assert Next(s2, go) == s3;
    var s4 := s3.(vcpus := [v.(pc := Enter(BootBarrier)), v]);
    assert Next(s3, go) == s4;
    var s5 := s4.(vcpus := [Vcpu(Wait(BootBarrier, false), 0, 1, 0), v], count := 1, log := [Begin(0, 0), End(0, 0)]);
    assert Next(s4, go) == s5;
    var s6 := s5.(state := Paused);
    assert Next(s5, Pause) == s6;
    hide Next;
    var r6: seq<Label> := [];
    var r5 := [Pause] + r6;
    RunCons(s5, Pause, r6);
    var r4 := [go] + r5;
    RunCons(s4, go, r5);
    var r3 := [go] + r4;
    RunCons(s3, go, r4);
    var r2 := [go] + r3;
    RunCons(s2, go, r3);
    var r1 := [Resume] + r2;
    RunCons(s1, Resume, r2);
    RunCons(s0, go, r1);
    assert Run(s0, [go] + r1) == s6;
  }

  lemma RunCons(s: State, l: Label, rest: seq<Label>)
    requires Undisturbed(s, l) && Quiet(Next(s, l), rest)
    ensures Quiet(s, [l] + rest) && Run(s, [l] + rest) == Run(Next(s, l), rest)
  {
    var run := [l] + rest;
    assert run[0] == l && run[1..] == rest;
  }
}
