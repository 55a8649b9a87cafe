/**
 The device and a conforming driver interleaving on a ring in guest memory. Every
 step reads and writes only what the code reads and writes: ring memory, the device's
 16-bit indices and deferred map, the driver's own bookkeeping. The unbounded
 protocol of `QueueSpec` is not consulted.
 */
module QueueMachine {
  import opened Wrappers
  import opened RingIndex
  import opened QueueSpec
  import opened Rings

  /** A chain the driver is writing into the ring, and how many of its writes are done. */
  datatype Stage = Stage(chain: Chain, done: nat)

  datatype Guest = Guest(
    stage: Option<Stage>,
    avail: Code,                // where the next chain goes
    used: Code,                 // where the next returned chain appears
    free: nat,                  // ring slots not in use
    inflight: map<nat, Chain>,  // published chains by id, until read back
    pending: nat,               // chains published since the last look at the notification area
    checked: nat,               // stored index at that look
    due: bool,
    back: seq<UsedElem>,        // ids and lengths read back, in order
    broken: bool                // an id was read back that is not in flight
  )

  datatype World = World(
    ring: Ring,
    avail: Code,
    used: Code,
    deferred: map<nat, Chain>,
    pc: Pc<Chain>,
    send: bool,
    raised: nat,
    kick: bool,
    guest: Guest
  )

  // ------------------------------------------------------------------ driver

  ghost predicate NoRepeats(path: seq<nat>) {
    forall j, k :: 0 <= j < k < |path| ==> path[j] != path[k]
  }

  ghost predicate Apart(p: seq<nat>, q: seq<nat>) {
    forall j, k :: 0 <= j < |p| && 0 <= k < |q| ==> p[j] != q[k]
  }

  /** A chain as the standard allows it on this ring. */
  ghost predicate WellFormed(kind: Kind, size: nat, chain: Chain) {
    match kind
    case Packed => 0 < |chain.bufs| == chain.delta <= size && chain.path == []
    case Split =>
      && chain.delta == 1 && 0 < |chain.bufs| == |chain.path| <= size && chain.path[0] == chain.id
      && NoRepeats(chain.path) && (forall j :: 0 <= j < |chain.path| ==> chain.path[j] < size)
  }

  /** Memory writes that precede the publishing one. */
  function Writes(kind: Kind, chain: Chain): int {
    match kind
    case Packed => chain.delta - 1
    case Split => |chain.path| + 1
  }

  /** The `j`-th descriptor of a packed chain, for a slot whose wrap counter is `wrap`. */
  function PackedEntry(chain: Chain, j: nat, wrap: bool, id: nat): PackedDesc
    requires j < |chain.bufs|
  {
    var b := chain.bufs[j];
    PackedDesc(b.addr, b.len, id, DescFlag(j + 1 < |chain.bufs|, b.write, b.indirect, wrap, !wrap, 0))
  }

  function SplitEntry(chain: Chain, j: nat): SplitDesc
    requires j < |chain.bufs| == |chain.path|
  {
    var b := chain.bufs[j];
    SplitDesc(b.addr, b.len, DescFlag(j + 1 < |chain.bufs|, b.write, b.indirect, false, false, 0),
              if j + 1 < |chain.path| then chain.path[j + 1] else 0)
  }

  /** The driver's next write for a staged chain: packed chains from the tail towards the head. */
  function StageWrite(r: Ring, at: Code, s: Stage, junk: nat): Ring
    requires Fits(r, at)
  {
    var chain := s.chain;
    match r
    case PackedRing(size, desc, _, _, _) =>
      if s.done + 1 < |chain.bufs| then
        var j := |chain.bufs| - 1 - s.done;
        var i := WrappingAdd(at.w, j, size);
        var id := if j + 1 == |chain.bufs| then chain.id else junk;
        if i.offset < |desc| then r.(desc := desc[i.offset := PackedEntry(chain, j, i.wrap, id)]) else r
      else r
    case SplitRing(size, table, _, _, availRing, _, _, _, _, _) =>
      if s.done < |chain.path| then
        if |chain.bufs| == |chain.path| && chain.path[s.done] < |table| then
          r.(table := table[chain.path[s.done] := SplitEntry(chain, s.done)])
        else r
      else
        var slot := BitAnd(at.n, size - 1);
        if slot < |availRing| then r.(availRing := availRing[slot := chain.id]) else r
  }

  /** The publishing write: the head descriptor's flags, or the available index. */
  function PublishWrite(r: Ring, at: Code, chain: Chain): Ring
    requires Fits(r, at)
  {
    match r
    case PackedRing(_, desc, _, _, _) =>
      if 0 < |chain.bufs| then r.(desc := desc[at.w.offset := PackedEntry(chain, 0, at.w.wrap, chain.id)]) else r
    case SplitRing(_, _, _, _, _, _, _, _, _, _) => r.(availIdx := (at.n + 1) % U16_SPAN)
  }

  /** The driver sees a returned chain at its `used` index. */
  predicate SeesUsed(r: Ring, at: Code)
    requires Fits(r, at)
  {
    match r
    case PackedRing(_, desc, _, _, _) => FlagIsUsed(desc[at.w.offset].flag, at.w.wrap)
    case SplitRing(_, _, _, _, _, _, _, usedIdx, _, _) => usedIdx != at.n
  }

  /** What the driver reads there: the id of the chain and how many bytes were written to it. */
  function UsedAt(r: Ring, at: Code): UsedElem
    requires Fits(r, at)
  {
    match r
    case PackedRing(_, desc, _, _, _) => UsedElem(desc[at.w.offset].id, desc[at.w.offset].len)
    case SplitRing(size, _, _, _, _, _, _, _, usedRing, _) =>
      var slot := BitAnd(at.n, size - 1);
      if slot < |usedRing| then usedRing[slot] else UsedElem(0, 0)
  }

  /** What the driver ought to read of the `k`-th chain returned. */
  function BackElem(t: Tape, k: nat): UsedElem
    requires k < |t.returned| == |t.lens| && t.returned[k] < |t.posted|
  {
    UsedElem(t.posted[t.returned[k]].id, t.lens[k])
  }

  /** The element in the slot of position `p` of a packed ring. */
  function ElemAt(desc: seq<PackedDesc>, p: nat): UsedElem
    requires |desc| > 0
  {
    var d := desc[Off(p, |desc|)];
    UsedElem(d.id, d.len)
  }

  /** Settings of the interrupt area a driver may choose on this ring. */
  ghost predicate MayArm(r: Ring, arm: Arm) {
    match r
    case PackedRing(size, _, eventIdx, _, _) =>
      arm.AtCode? ==> eventIdx && arm.code.Wrapped? && arm.code.w.offset < size
    case SplitRing(_, _, _, _, _, usedEvent, _, _, _, _) =>
      if usedEvent.Some? then arm.AtCode? && arm.code.Plain? && arm.code.n < U16_SPAN else !arm.AtCode?
  }

  function SetArm(r: Ring, arm: Arm): Ring {
    match r
    case PackedRing(_, _, _, _, interrupt) =>
      (match arm
       case Never => r.(interrupt := interrupt.(flag := 1))
       case Always => r.(interrupt := interrupt.(flag := 0))
       case AtCode(code) => if code.Wrapped? then r.(interrupt := DescEvent(code.w, 2)) else r)
    case SplitRing(_, _, _, _, _, _, _, _, _, _) =>
      match arm
      case Never => r.(availFlags := 1)
      case Always => r.(availFlags := 0)
      case AtCode(code) => if code.Plain? then r.(usedEvent := Some(code.n)) else r
  }

  /** The driver's reading of the notification area, sections 2.7.10 and 2.8.9 of Virtio 1.2. */
  predicate WantsKick(r: Ring, checked: nat) {
    match r
    case PackedRing(_, _, _, notification, _) => notification == 0
    case SplitRing(_, _, _, availIdx, _, _, usedFlags, _, _, availEvent) =>
      match availEvent
      case Some(event) => event < U16_SPAN && NeedEvent(event, availIdx, checked)
      case None => usedFlags == 0
  }

  ghost predicate DriverReady(w: World, l: Label) {
    var g := w.guest;
    match l
    case DBegin(chain) =>
      && g.stage.None?
      && WellFormed(KindOf(w.ring), w.ring.size, chain)
      && chain.delta <= g.free && chain.id !in g.inflight
      && (forall id :: id in g.inflight ==> Apart(chain.path, g.inflight[id].path))
    case DWrite(_) => g.stage.Some? && g.stage.value.done < Writes(KindOf(w.ring), g.stage.value.chain)
        && Fits(w.ring, g.avail)
    case DPublish(chain) =>
      && g.stage.Some? && g.stage.value == Stage(chain, g.stage.value.done)
      && g.stage.value.done == Writes(KindOf(w.ring), chain)
      && g.pending + 1 < U16_SPAN && chain.delta <= g.free && Fits(w.ring, g.avail)
    case DCheck => true
    case DKick => g.due
    case DReclaim => Fits(w.ring, g.used) && SeesUsed(w.ring, g.used)
    case DArm(arm) => MayArm(w.ring, arm)
    case _ => false
  }

  function Publish(w: World, chain: Chain): World
    requires Fits(w.ring, w.guest.avail) && chain.delta <= w.guest.free
  {
    var g := w.guest;
    w.(ring := PublishWrite(w.ring, g.avail, chain),
       guest := g.(stage := None, avail := IndexAdd(w.ring, g.avail, chain.delta), free := g.free - chain.delta,
                   inflight := g.inflight[chain.id := chain], pending := g.pending + 1))
  }

  function Reclaim(w: World): World
    requires Fits(w.ring, w.guest.used)
  {
    var g := w.guest;
    var e := UsedAt(w.ring, g.used);
    var id := e.id;
    if id in g.inflight then
      var delta := g.inflight[id].delta;
      w.(guest := g.(inflight := g.inflight - {id}, free := g.free + delta,
                     used := IndexAdd(w.ring, g.used, delta), back := g.back + [e]))
    else w.(guest := g.(broken := true))
  }

  ghost function DriverDo(w: World, l: Label): World
    requires DriverReady(w, l)
  {
    var g := w.guest;
    match l
    case DBegin(chain) => w.(guest := g.(stage := Some(Stage(chain, 0))))
    case DWrite(junk) =>
      w.(ring := StageWrite(w.ring, g.avail, g.stage.value, junk),
         guest := g.(stage := Some(Stage(g.stage.value.chain, g.stage.value.done + 1))))
    case DPublish(chain) => Publish(w, chain)
    case DCheck =>
      var now := if w.ring.SplitRing? then w.ring.availIdx else 0;
      w.(guest := g.(due := g.due || WantsKick(w.ring, g.checked), checked := now, pending := 0))
    case DKick => w.(kick := true, guest := g.(due := false))
    case DReclaim => Reclaim(w)
    case DArm(arm) => w.(ring := SetArm(w.ring, arm))
  }

  // ------------------------------------------------------------------ device

  ghost predicate DeviceReady(w: World, l: Label) {
    match l
    case VStart => w.pc.Idle?
    case VTop => w.pc.Top? && Fits(w.ring, w.avail)
    case VDisable => w.pc.Disable? || (w.pc.DisableWrite? && UsesEvents(w.ring))
    case VFetch =>
      w.pc.Fetch? && Fits(w.ring, w.avail) && (DescAvail(w.ring, w.avail) ==> GetChain(w.ring, w.avail).Some?)
    case VFetchFail => w.pc.Fetch? && Fits(w.ring, w.avail) && DescAvail(w.ring, w.avail)
    case VOp(status) => w.pc.Running? && Fits(w.ring, w.avail) && (w.pc.late ==> status.Done? || status.Error?)
    case VPut => w.pc.Writing? && Fits(w.ring, w.used)
    case VPublish => w.pc.Publishing? && Fits(w.ring, w.used)
    case VAsk => w.pc.AskIrq? && Fits(w.ring, w.used) && Fits(w.ring, w.avail) && w.pc.delta <= w.ring.size
    case VEnable => w.pc.Enable? || ((w.pc.EnableWrite? || w.pc.EnableReread?) && UsesEvents(w.ring))
    case VLeave => w.pc.Leave?
    case VLate(_) => w.pc.Idle?
    case _ => false
  }

  function Operation(w: World, status: Status): World
    requires w.pc.Running? && Fits(w.ring, w.avail)
  {
    var Running(chain, late) := w.pc;
    match status
    case Done(len) => w.(pc := Writing(chain, len, late))
    case Deferred =>
      w.(deferred := w.deferred[chain.id := chain], avail := IndexAdd(w.ring, w.avail, chain.delta), pc := Fetch)
    case Break => w.(pc := Leave)
    case Error => w.(pc := if late then Idle else Enable(true))
  }

  function Disabling(w: World): World
    requires w.pc.Disable? || (w.pc.DisableWrite? && UsesEvents(w.ring))
  {
    if w.pc.DisableWrite? then w.(ring := WriteAvailEvent(w.ring, U16Dec(w.pc.v)), pc := Fetch)
    else if UsesEvents(w.ring) then w.(pc := DisableWrite(w.ring.availIdx))
    else w.(ring := WriteFlag(w.ring, false), pc := Fetch)
  }

  function Enabling(w: World): World
    requires w.pc.Enable? || ((w.pc.EnableWrite? || w.pc.EnableReread?) && UsesEvents(w.ring))
  {
    match w.pc
    case Enable(failed) =>
      if UsesEvents(w.ring) then w.(pc := EnableWrite(w.ring.availIdx, failed))
      else w.(ring := WriteFlag(w.ring, true), pc := if failed then Leave else Top)
    case EnableWrite(v, failed) => w.(ring := WriteAvailEvent(w.ring, v), pc := EnableReread(v, failed))
    case EnableReread(v, failed) =>
      if w.ring.availIdx == v then w.(pc := if failed then Leave else Top)
      else w.(pc := EnableWrite(w.ring.availIdx, failed))
  }

  function Asking(w: World): World
    requires w.pc.AskIrq? && Fits(w.ring, w.used) && Fits(w.ring, w.avail) && w.pc.delta <= w.ring.size
  {
    var AskIrq(delta, late) := w.pc;
    var due := InterruptEnabled(w.ring, w.used, delta);
    if late then w.(pc := Idle, raised := if due then w.raised + 1 else w.raised)
    else w.(pc := Fetch, avail := IndexAdd(w.ring, w.avail, delta), send := w.send || due)
  }

  ghost function DeviceDo(w: World, l: Label): World
    requires DeviceReady(w, l)
  {
    match l
    case VStart => w.(pc := Top, kick := false, send := false)
    case VTop => if DescAvail(w.ring, w.avail) then w.(pc := Disable) else w.(pc := Leave)
    case VDisable => Disabling(w)
    case VFetch =>
      if DescAvail(w.ring, w.avail) then w.(pc := Running(GetChain(w.ring, w.avail).value, false))
      else w.(pc := Enable(false))
    case VFetchFail => w.(pc := Idle)
    case VOp(status) => Operation(w, status)
    case VPut => w.(ring := PutElem(w.ring, w.used, w.pc.c.id, w.pc.len), pc := Publishing(w.pc.c, w.pc.len, w.pc.late))
    case VPublish =>
      w.(ring := PutVisible(w.ring, w.used), used := IndexAdd(w.ring, w.used, w.pc.c.delta),
         pc := AskIrq(w.pc.c.delta, w.pc.late))
    case VAsk => Asking(w)
    case VEnable => Enabling(w)
    case VLeave => w.(pc := Idle, raised := if w.send then w.raised + 1 else w.raised)
    case VLate(id) =>
      if id in w.deferred then w.(pc := Running(w.deferred[id], true), deferred := w.deferred - {id}) else w
  }

  ghost predicate Ready(w: World, l: Label) {
    if OfDriver(l) then DriverReady(w, l) else DeviceReady(w, l)
  }

  ghost function Do(w: World, l: Label): World
    requires Ready(w, l)
  {
    if OfDriver(l) then DriverDo(w, l) else DeviceDo(w, l)
  }

  /** A queue as it is when the driver has just enabled it, all ring memory zeroed. */
  ghost predicate Booted(w: World) {
    && Laid(w.ring)
    && var origin := Encode(KindOf(w.ring), w.ring.size, 0);
    && w.avail == origin && w.used == origin && w.deferred == map[] && w.pc.Idle?
    && !w.send && w.raised == 0 && !w.kick
    && w.guest == Guest(None, origin, origin, w.ring.size, map[], 0, 0, false, [], false)
    && match w.ring
       case PackedRing(_, desc, _, notification, _) =>
         notification == 0 && forall s :: 0 <= s < |desc| ==> !desc[s].flag.avail && !desc[s].flag.used
       case SplitRing(_, _, _, availIdx, _, _, usedFlags, usedIdx, _, availEvent) =>
         availIdx == 0 && usedIdx == 0 && usedFlags == 0 && (availEvent.Some? ==> availEvent.value == 0)
  }
}
