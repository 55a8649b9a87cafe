/**
 The virtqueue as an unbounded protocol: what a device running `handle_desc` and
 `handle_deferred` and a driver following Virtio 1.2 do to each other, one memory
 access at a time, with every ring position an unbounded counter. The rings in
 guest memory are refined to this machine in `QueueMachine`.
 */
module QueueSpec {
  import opened RingIndex

  datatype Kind = Packed | Split

  /** A descriptor's buffer; an indirect one is a table of further descriptors. */
  datatype Buf = Buf(addr: nat, len: nat, write: bool, indirect: bool)

  /** A descriptor chain: its id, the ring slots it occupies, its buffers, and for a
      split ring the descriptor-table entries it is linked through. */
  datatype Chain = Chain(id: nat, delta: nat, bufs: seq<Buf>, path: seq<nat>)

  /** What the device's callback made of a chain. */
  datatype Status = Done(len: nat) | Deferred | Break | Error

  /** Where a chain the device has taken is now. */
  datatype Fate = InHand | Parked | Returned | Lost

  /** What the device tells the driver about wanting kicks. */
  datatype Notify = Flag(enabled: bool) | Event(at: nat)

  /** A stored ring index. */
  datatype Code = Wrapped(w: WrappedIndex) | Plain(n: nat)

  /** What the driver tells the device about wanting interrupts. */
  datatype Arm = Never | Always | AtCode(code: Code)

  /** The device's program counter; `late` marks `handle_deferred`, `failed` the
      error exit of `handle_desc`. `C` is how a chain in hand is identified. */
  datatype Pc<C> =
    | Idle
    | Top
    | Disable
    | DisableWrite(v: nat)
    | Fetch
    | Running(c: C, late: bool)
    | Writing(c: C, len: nat, late: bool)
    | Publishing(c: C, len: nat, late: bool)
    | AskIrq(delta: nat, late: bool)
    | Enable(failed: bool)
    | EnableWrite(v: nat, failed: bool)
    | EnableReread(v: nat, failed: bool)
    | Leave

  /** One atomic step of the driver (`D...`) or of the device (`V...`). */
  datatype Label =
    | DBegin(chain: Chain)
    | DWrite(junk: nat)
    | DPublish(chain: Chain)
    | DCheck
    | DKick
    | DReclaim
    | DArm(arm: Arm)
    | VStart
    | VTop
    | VDisable
    | VFetch
    | VFetchFail
    | VOp(status: Status)
    | VPut
    | VPublish
    | VAsk
    | VEnable
    | VLeave
    | VLate(id: nat)

  /** The life of every chain. */
  datatype Tape = Tape(
    posted: seq<Chain>,      // every chain the driver has published, in order
    fates: seq<Fate>,        // of the chains the device has taken, in order
    returned: seq<nat>,      // chain numbers, in the order the device returned them
    lens: seq<nat>,          // how many bytes the device wrote to each of these
    reclaimed: nat           // how many of these the driver has read back
  )

  /** Kicks, and their suppression. */
  datatype Bell = Bell(
    notify: Notify,
    checked: nat,            // chains published when the driver last read `notify`
    due: bool,               // the driver has decided to kick and not done so
    kick: bool,              // a kick the device has not consumed
    settled: bool            // the last `handle_desc` returned from the top of its loop
  )

  /** Interrupts, and their suppression. */
  datatype Line = Line(
    arm: Arm,
    send: bool,              // `send_irq` of the running `handle_desc`
    raised: nat,             // interrupts raised so far
    from: nat,               // `used` when the current `handle_desc` started
    steady: bool,            // the driver has not changed `arm` since
    base: nat                // `raised` at that time
  )

  datatype State = State(
    kind: Kind,
    size: nat,
    tape: Tape,
    avail: nat,              // the device's unbounded `avail`
    used: nat,               // the device's unbounded `used`
    bell: Bell,
    line: Line,
    pc: Pc<nat>
  )

  // ---------------------------------------------------------------- measures

  function Slots(chains: seq<Chain>): nat {
    if chains == [] then 0 else Slots(chains[..|chains| - 1]) + chains[|chains| - 1].delta
  }

  /** The slots of the taken chains that met a given fate. */
  function SlotsOf(posted: seq<Chain>, fates: seq<Fate>, f: Fate): nat
    requires |fates| <= |posted|
  {
    if fates == [] then 0
    else
      var n := |fates| - 1;
      SlotsOf(posted, fates[..n], f) + if fates[n] == f then posted[n].delta else 0
  }

  ghost predicate Known(posted: seq<Chain>, returned: seq<nat>) {
    forall k :: 0 <= k < |returned| ==> returned[k] < |posted|
  }

  /** The slots of the returned chains, in order of return. */
  ghost function SlotsBack(posted: seq<Chain>, returned: seq<nat>): nat
    requires Known(posted, returned)
  {
    if returned == [] then 0
    else SlotsBack(posted, returned[..|returned| - 1]) + posted[returned[|returned| - 1]].delta
  }

  function Encode(kind: Kind, size: nat, p: nat): Code
    requires size > 0
  {
    match kind
    case Packed => Wrapped(At(p, size))
    case Split => Plain(U16(p))
  }

  /** Section 2.7.10 of Virtio 1.2: the event index lies among the entries published since `before`. */
  predicate NeedEvent(event: nat, now: nat, before: nat) {
    (now + (2 * U16_SPAN - event - 1)) % U16_SPAN < (now + (U16_SPAN - before)) % U16_SPAN
  }

  predicate NeedKick(notify: Notify, posted: nat, checked: nat)
    requires notify.Event? ==> notify.at < U16_SPAN
  {
    match notify
    case Flag(enabled) => enabled
    case Event(at) => NeedEvent(at, U16(posted), U16(checked))
  }

  /** The interrupt the driver asked for falls due when positions `lo..hi` are returned. */
  ghost predicate Wants(kind: Kind, size: nat, arm: Arm, lo: nat, hi: nat)
    requires size > 0
  {
    match arm
    case Never => false
    case Always => lo < hi
    case AtCode(code) => exists q: nat :: lo <= q < hi && Encode(kind, size, q) == code
  }

  // ------------------------------------------------------------------- steps

  /** The chain in hand belongs to the running `handle_desc`. */
  predicate Holding<C>(pc: Pc<C>) {
    match pc
    case Running(_, late) => !late
    case Writing(_, _, late) => !late
    case Publishing(_, _, late) => !late
    case AskIrq(_, late) => !late
    case _ => false
  }

  /** The device is not between the start and the return decision of a `handle_desc`. */
  predicate Calm<C>(pc: Pc<C>) {
    match pc
    case Idle | Leave => true
    case Running(_, late) => late
    case Writing(_, _, late) => late
    case Publishing(_, _, late) => late
    case AskIrq(_, late) => late
    case _ => false
  }

  ghost predicate Outstanding(t: Tape, i: nat) {
    i < |t.posted| && forall k :: 0 <= k < t.reclaimed && k < |t.returned| ==> t.returned[k] != i
  }

  /** What the standard asks of a driver before it publishes a chain. */
  ghost predicate MayPost(t: Tape, size: nat, chain: Chain)
    requires Known(t.posted, t.returned) && t.reclaimed <= |t.returned|
  {
    && 0 < chain.delta <= size
    && (forall i: nat :: Outstanding(t, i) ==> t.posted[i].id != chain.id)
    && Slots(t.posted) + chain.delta <= SlotsBack(t.posted, t.returned[..t.reclaimed]) + size
  }

  ghost predicate ParkedAs(t: Tape, id: nat, i: nat) {
    i < |t.fates| && i < |t.posted| && t.fates[i] == Parked && t.posted[i].id == id
  }

  ghost predicate Enabled(a: State, l: Label) {
    var t := a.tape;
    match l
    case DBegin(_) => true
    case DWrite(_) => true
    case DPublish(chain) =>
      && Known(t.posted, t.returned) && t.reclaimed <= |t.returned|
      && MayPost(t, a.size, chain)
      && |t.posted| + 1 < a.bell.checked + U16_SPAN
    case DCheck => a.bell.notify.Event? ==> a.bell.notify.at < U16_SPAN
    case DKick => a.bell.due
    case DReclaim => t.reclaimed < |t.returned|
    case DArm(_) => true
    case VStart => a.pc.Idle?
    case VTop => a.pc.Top?
    case VDisable => a.pc.Disable? || a.pc.DisableWrite?
    case VFetch => a.pc.Fetch?
    case VFetchFail => a.pc.Fetch? && |t.fates| < |t.posted|
    case VOp(status) =>
      a.pc.Running? && a.pc.c < |t.fates| && a.pc.c < |t.posted| && (a.pc.late ==> status.Done? || status.Error?)
    case VPut => a.pc.Writing?
    case VPublish => a.pc.Publishing? && a.pc.c < |t.fates| && a.pc.c < |t.posted|
    case VAsk => a.pc.AskIrq? && a.pc.delta <= a.used && a.size > 0
    case VEnable => a.pc.Enable? || a.pc.EnableWrite? || a.pc.EnableReread?
    case VLeave => a.pc.Leave?
    case VLate(_) => a.pc.Idle?
  }

  function SetFate(t: Tape, i: nat, f: Fate): Tape
    requires i < |t.fates|
  {
    t.(fates := t.fates[i := f])
  }

  function Untake(t: Tape): Tape
    requires |t.fates| > 0
  {
    t.(fates := t.fates[..|t.fates| - 1])
  }

  function Return(t: Tape, i: nat, len: nat): Tape
    requires i < |t.fates|
  {
    t.(fates := t.fates[i := Returned], returned := t.returned + [i], lens := t.lens + [len])
  }

  ghost function Driver(a: State, l: Label): State
    requires Enabled(a, l)
  {
    match l
    case DPublish(chain) => a.(tape := a.tape.(posted := a.tape.posted + [chain]))
    case DCheck =>
      var due := a.bell.due || NeedKick(a.bell.notify, |a.tape.posted|, a.bell.checked);
      a.(bell := a.bell.(due := due, checked := |a.tape.posted|))
    case DKick => a.(bell := a.bell.(due := false, kick := true))
    case DReclaim => a.(tape := a.tape.(reclaimed := a.tape.reclaimed + 1))
    case DArm(arm) => a.(line := a.line.(arm := arm, steady := a.line.steady && arm == a.line.arm))
    case _ => a
  }

  function Operate(a: State, status: Status): State
    requires a.pc.Running? && a.pc.c < |a.tape.fates| && a.pc.c < |a.tape.posted|
  {
    var Running(i, late) := a.pc;
    match status
    case Done(len) => a.(pc := Writing(i, len, late))
    case Deferred =>
      a.(tape := SetFate(a.tape, i, Parked), pc := Fetch, avail := a.avail + a.tape.posted[i].delta)
    case Break => a.(tape := Untake(a.tape), pc := Leave, bell := a.bell.(settled := false))
    case Error =>
      if late then a.(tape := SetFate(a.tape, i, Lost), pc := Idle)
      else a.(tape := Untake(a.tape), pc := Enable(true), bell := a.bell.(settled := false))
  }

  function DisableStep(a: State): State
    requires a.pc.Disable? || a.pc.DisableWrite?
  {
    if a.pc.DisableWrite? then a.(bell := a.bell.(notify := Event(U16Dec(U16(a.pc.v)))), pc := Fetch)
    else if a.bell.notify.Flag? then a.(bell := a.bell.(notify := Flag(false)), pc := Fetch)
    else a.(pc := DisableWrite(|a.tape.posted|))
  }

  function EnableStep(a: State): State
    requires a.pc.Enable? || a.pc.EnableWrite? || a.pc.EnableReread?
  {
    match a.pc
    case Enable(failed) =>
      if a.bell.notify.Flag? then a.(bell := a.bell.(notify := Flag(true)), pc := if failed then Leave else Top)
      else a.(pc := EnableWrite(|a.tape.posted|, failed))
    case EnableWrite(v, failed) => a.(bell := a.bell.(notify := Event(U16(v))), pc := EnableReread(v, failed))
    case EnableReread(v, failed) =>
      if v == |a.tape.posted| then a.(pc := if failed then Leave else Top)
      else a.(pc := EnableWrite(|a.tape.posted|, failed))
  }

  ghost function Ask(a: State): State
    requires a.pc.AskIrq? && a.pc.delta <= a.used && a.size > 0
  {
    var AskIrq(delta, late) := a.pc;
    var due := Wants(a.kind, a.size, a.line.arm, a.used - delta, a.used);
    if late then a.(pc := Idle, line := a.line.(raised := if due then a.line.raised + 1 else a.line.raised))
    else a.(pc := Fetch, avail := a.avail + delta, line := a.line.(send := a.line.send || due))
  }

  /** `handle_deferred` finding its chain, or not. */
  ghost function Recall(a: State, id: nat): State {
    if exists i: nat :: ParkedAs(a.tape, id, i) then
      var i: nat :| ParkedAs(a.tape, id, i);
      a.(pc := Running(i, true), tape := SetFate(a.tape, i, InHand))
    else a
  }

  ghost function Device(a: State, l: Label): State
    requires Enabled(a, l)
  {
    match l
    case VStart =>
      a.(pc := Top, bell := a.bell.(kick := false),
          line := a.line.(send := false, from := a.used, steady := true, base := a.line.raised))
    case VTop =>
      if |a.tape.fates| < |a.tape.posted| then a.(pc := Disable)
      else a.(pc := Leave, bell := a.bell.(settled := true))
    case VDisable => DisableStep(a)
    case VFetch =>
      if |a.tape.fates| < |a.tape.posted| then
        a.(pc := Running(|a.tape.fates|, false), tape := a.tape.(fates := a.tape.fates + [InHand]))
      else a.(pc := Enable(false))
    case VFetchFail => a.(pc := Idle, bell := a.bell.(settled := false))
    case VOp(status) => Operate(a, status)
    case VPut => a.(pc := Publishing(a.pc.c, a.pc.len, a.pc.late))
    case VPublish =>
      var delta := a.tape.posted[a.pc.c].delta;
      a.(pc := AskIrq(delta, a.pc.late), tape := Return(a.tape, a.pc.c, a.pc.len), used := a.used + delta)
    case VAsk => Ask(a)
    case VEnable => EnableStep(a)
    case VLeave => a.(pc := Idle, line := a.line.(raised := if a.line.send then a.line.raised + 1 else a.line.raised))
    case VLate(id) => Recall(a, id)
    case _ => a
  }

  predicate OfDriver(l: Label) {
    l.DBegin? || l.DWrite? || l.DPublish? || l.DCheck? || l.DKick? || l.DReclaim? || l.DArm?
  }

  ghost function Next(a: State, l: Label): State
    requires Enabled(a, l)
  {
    if OfDriver(l) then Driver(a, l) else Device(a, l)
  }
}
