/**
 The VCPU threads of a board: the counter-and-condition-variable barrier they meet at,
 the boot and reboot phases it separates, and the failure path that must release it.
 A step is a stretch of one thread between two acquisitions of the lock, or a request
 from outside.
 */
module Board {

  datatype BoardState = Paused | Running | Shutdown | RebootPending

  /** What `vcpu_loop` returns. */
  datatype Request = AskReboot | AskShutdown | AskPause | Broken

  /** The calls of `sync_vcpus` in a round: in `init_ap` and `coco_finalize`, which exist only with
      confidential compute, at the end of `boot_init_sync`, and before a reboot. */
  datatype Barrier = ApBarrier | FinalBarrier | BootBarrier | RebootBarrier

  datatype Pc =
    | Start
    | Gate                                       // about to look at the board state
    | GateWait(notified: bool)                   // waiting there for `resume`
    | Load                                       // index 0 creates RAM and loads the payload
    | Enter(b: Barrier)                          // about to call `sync_vcpus`
    | Wait(b: Barrier, notified: bool)           // blocked in it
    | ApInit                                     // other indices initialise their VCPU
    | Finalize                                   // index 0 finalises
    | Guest                                      // in `vcpu_loop`
    | Exited(request: Request)
    | PauseWait(request: Request, notified: bool)
    | Reset(request: Request)
    | Failing                                    // returned an error, `fatal` not set yet
    | Gone

  /** `entered` and `left` count the barrier calls begun and the ones returned from with success. */
  datatype Vcpu = Vcpu(pc: Pc, round: nat, entered: nat, left: nat)

  /** Stretches of work between barriers, numbered along each VCPU's life. */
  datatype Event = Begin(vcpu: nat, segment: nat) | End(vcpu: nat, segment: nat)

  datatype State = State(
    coco: bool,
    vcpus: seq<Vcpu>,
    state: BoardState,
    fatal: bool,
    count: nat,
    released: nat,      // barriers released so far
    log: seq<Event>
  )

  datatype Label =
    | Act(vcpu: nat, ok: bool, request: Request)
    | Resume
    | Pause

  // ------------------------------------------------------------------- segments

  function PerRound(coco: bool): nat {
    if coco then 4 else 2
  }

  function LoadSegment(coco: bool, round: nat): nat {
    PerRound(coco) * round
  }

  function ApSegment(round: nat): nat {
    4 * round + 1
  }

  function FinalSegment(round: nat): nat {
    4 * round + 2
  }

  function GuestSegment(coco: bool, round: nat): nat {
    PerRound(coco) * round + PerRound(coco) - 1
  }

  /** The segment that a barrier call ends. */
  function SegmentBefore(coco: bool, b: Barrier, round: nat): nat {
    match b
    case ApBarrier => LoadSegment(coco, round)
    case FinalBarrier => ApSegment(round)
    case BootBarrier => if coco then FinalSegment(round) else LoadSegment(coco, round)
    case RebootBarrier => GuestSegment(coco, round)
  }

  // ----------------------------------------------------------------------- steps

  function Waiting(v: Vcpu): bool {
    v.pc.Wait? && !v.pc.notified
  }

  function Notify(v: Vcpu): Vcpu {
    match v.pc
    case GateWait(_) => v.(pc := GateWait(true))
    case Wait(b, _) => v.(pc := Wait(b, true))
    case PauseWait(request, _) => v.(pc := PauseWait(request, true))
    case _ => v
  }

  /** `notify_all` on the one condition variable. */
  function NotifyAll(vcpus: seq<Vcpu>): seq<Vcpu> {
    seq(|vcpus|, i requires 0 <= i < |vcpus| => Notify(vcpus[i]))
  }

  function Put(s: State, i: nat, v: Vcpu): State
    requires i < |s.vcpus|
  {
    s.(vcpus := s.vcpus[i := v])
  }

  function Goto(s: State, i: nat, pc: Pc): State
    requires i < |s.vcpus|
  {
    Put(s, i, s.vcpus[i].(pc := pc))
  }

  /** The loop at the top of every round. */
  function AtGate(s: State, i: nat): State
    requires i < |s.vcpus|
  {
    match s.state
    case Paused => Goto(s, i, GateWait(false))
    case Running => Started(Goto(s, i, Load), i)
    case Shutdown => Goto(s, i, Gone)
    case RebootPending => Started(Goto(s, i, Load).(state := Running), i)
  }

  function Started(s: State, i: nat): State
    requires i < |s.vcpus|
  {
    s.(log := s.log + [Begin(i, s.vcpus[i].left)])
  }

  /** Where a VCPU goes after a barrier. */
  function After(b: Barrier): Pc {
    match b
    case ApBarrier => ApInit
    case FinalBarrier => Finalize
    case BootBarrier => Guest
    case RebootBarrier => Gate
  }

  /** Returning from `sync_vcpus` with success. */
  function Leave(s: State, i: nat, b: Barrier): State
    requires i < |s.vcpus|
  {
    var v := s.vcpus[i];
    var w := v.(pc := After(b), left := v.left + 1, round := if b.RebootBarrier? then v.round + 1 else v.round);
    var t := Put(s, i, w);
    if b.RebootBarrier? then t else Started(t, i)
  }

  /** `sync_vcpus` up to its wait. */
  function Sync(s: State, i: nat, b: Barrier): State
    requires i < |s.vcpus|
  {
    if s.fatal then Goto(s, i, Gone)
    else
      var v := s.vcpus[i];
      var t := Put(s, i, v.(entered := v.entered + 1)).(log := s.log + [End(i, v.left)]);
      if s.count + 1 == |s.vcpus| then
        Leave(t.(count := 0, released := s.released + 1, vcpus := NotifyAll(t.vcpus)), i, b)
      else Goto(t.(count := s.count + 1), i, Wait(b, false))
  }

  /** The rest of `run_vcpu` after an error: set `fatal`, wake whoever waits. */
  function Fail(s: State, i: nat): State
    requires i < |s.vcpus|
  {
    var t := Goto(s.(fatal := true), i, Gone);
    if s.count > 0 then t.(vcpus := NotifyAll(t.vcpus)) else t
  }

  /** The state a board goes to on a request, if it is still running. */
  function Requested(state: BoardState, request: Request): BoardState {
    if state != Running then state
    else
      match request
      case AskReboot => RebootPending
      case AskPause => Paused
      case _ => Shutdown
  }

  /** The inner loop after `vcpu_loop`: back to the guest, wait, or go on to reset. */
  function Settle(s: State, i: nat, request: Request): State
    requires i < |s.vcpus|
  {
    match s.state
    case Running => Goto(s, i, Guest)
    case Paused => Goto(s, i, PauseWait(request, false))
    case _ => Goto(s, i, Reset(request))
  }

  /** One step of VCPU `i`. `ok` is whether the work of this step succeeds. */
  function Step(s: State, i: nat, ok: bool, request: Request): State
    requires i < |s.vcpus|
  {
    match s.vcpus[i].pc
    case Start => Goto(s, i, if ok then Gate else Failing)
    case Gate => AtGate(s, i)
    case GateWait(notified) => if notified then AtGate(s, i) else s
    case Load => Goto(s, i, if !ok then Failing else Enter(if s.coco then ApBarrier else BootBarrier))
    case Enter(b) => Sync(s, i, b)
    case Wait(b, notified) =>
      if !notified then s else if s.fatal then Goto(s, i, Gone) else Leave(s, i, b)
    case ApInit => Goto(s, i, if ok then Enter(FinalBarrier) else Failing)
    case Finalize => Goto(s, i, if ok then Enter(BootBarrier) else Failing)
    case Guest => Goto(s, i, Exited(request))
    case Exited(req) =>
      var t := s.(state := Requested(s.state, req));
      if s.state == Running && !ok then Goto(t, i, Failing) else Settle(t, i, req)
    case PauseWait(req, notified) => if notified then Settle(s, i, req) else s
    case Reset(req) => Goto(s, i, if !ok || req.Broken? then Failing else Enter(RebootBarrier))
    case Failing => Fail(s, i)
    case Gone => s
  }

  function Next(s: State, l: Label): State {
    match l
    case Act(i, ok, request) => if i < |s.vcpus| then Step(s, i, ok, request) else s
    case Resume => if s.state == Paused then s.(state := Running, vcpus := NotifyAll(s.vcpus)) else s
    case Pause => if s.state == Running then s.(state := Paused) else s
  }

  /** A new board: every thread starting, nothing counted. */
  predicate Fresh(s: State) {
    && 0 < |s.vcpus|
    && (forall i :: 0 <= i < |s.vcpus| ==> s.vcpus[i] == Vcpu(Start, 0, 0, 0))
    && s.state == Paused && !s.fatal && s.count == 0 && s.released == 0 && s.log == []
  }
}
