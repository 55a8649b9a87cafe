/**
 PCI functions with six base address registers each, and the regions of guest memory and port
 space that follow them: command writes, BAR writes, boot assignment and reset.
 */
module PciBars {
  import opened Wrappers

  const BARS: nat := 6
  const BAR_IO: bv32 := 0x1
  const BAR_MEM64: bv32 := 0x4
  const BAR_IO_MASK: bv32 := 0x3
  const BAR_MEM_MASK: bv32 := 0xF

  const COMMAND_IO: bv16 := 0x1
  const COMMAND_MEM: bv16 := 0x2
  const COMMAND_WRITABLE: bv16 := 0x547

  /** What is behind a register. */
  datatype Kind = Empty | MemBar | IoBar

  datatype Function = Function(kinds: seq<Kind>, bars: seq<bv32>, masks: seq<bv32>, command: bv16)

  /** A 64-bit address in halves. */
  datatype Addr = Addr(lo: bv32, hi: bv32)

  datatype IoPort = IoPort(number: bv16)

  /** Whose region it is: a BAR's, or one the board put there. */
  datatype Owner = Bar(dev: nat, index: nat) | Other(id: nat)

  datatype World = World(devs: seq<Function>, mem: map<Addr, Owner>, io: map<IoPort, Owner>)

  // ------------------------------------------------------------------------- registers

  /** `mask_bits!`. */
  function MaskBits(dst: bv32, src: bv32, mask: bv32): bv32 {
    (dst & !mask) | (src & mask)
  }

  predicate Is64(bar: bv32) {
    bar & BAR_MEM64 == BAR_MEM64
  }

  predicate IsIo(bar: bv32) {
    bar & BAR_IO == BAR_IO
  }

  function MemAddr(bar: bv32): bv32 {
    bar & !BAR_MEM_MASK
  }

  predicate MemOn(f: Function) {
    f.command & COMMAND_MEM == COMMAND_MEM
  }

  predicate IoOn(f: Function) {
    f.command & COMMAND_IO == COMMAND_IO
  }

  predicate Shaped(f: Function) {
    |f.kinds| == BARS && |f.bars| == BARS && |f.masks| == BARS
  }

  function SetBar(f: Function, i: nat, val: bv32): (g: Function)
    requires Shaped(f) && i < BARS
    ensures Shaped(g)
  {
    f.(bars := f.bars[i := MaskBits(f.bars[i], val, f.masks[i])])
  }

  /** `BarCallback::mapped`: the register follows its region, and the upper half of a 64-bit one too, except where the
      callback overruns the registers. */
  function Mapped(f: Function, i: nat, a: Addr): (g: Function)
    requires Shaped(f) && i < BARS
    ensures Shaped(g)
  {
    var g := SetBar(f, i, a.lo);
    if Is64(f.bars[i]) && i + 1 < BARS then SetBar(g, i + 1, a.hi) else g
  }

  /** The callback would set a register past the last one: the program indexes it unchecked and panics. */
  predicate Overruns(f: Function, i: nat)
    requires Shaped(f) && i < BARS
  {
    Is64(f.bars[i]) && i + 1 >= BARS
  }

  /** The memory address that register `i` spells. The program reads the upper half unchecked; the guard on the index
      matters only for a 64-bit register in the last place, where it panics and which no well-formed function has. */
  function AddrOf(f: Function, i: nat): Addr
    requires Shaped(f) && i < BARS
  {
    Addr(MemAddr(f.bars[i]), if Is64(f.bars[i]) && i + 1 < BARS then f.bars[i + 1] else 0)
  }

  /** The port that an I/O register names, cut to 16 bits. */
  function Port(bar: bv32): IoPort {
    IoPort(((bar & !BAR_IO_MASK) & 0xFFFF) as bv16)
  }

  function PortAddr(port: IoPort): Addr {
    Addr(port.number as bv32, 0)
  }

  // ------------------------------------------------------------------- regions and ports

  predicate Known(w: World, o: Owner) {
    o.Bar? ==> o.dev < |w.devs| && o.index < BARS && Shaped(w.devs[o.dev])
  }

  /** The callback of the region of `o` panics. */
  predicate Panics(w: World, o: Owner)
    requires Known(w, o)
  {
    o.Bar? && Overruns(w.devs[o.dev], o.index)
  }

  /** `add_region` and the callback of the region, when the list has nothing at `a`. */
  function AddRegion(w: World, a: Addr, o: Owner): Option<World>
    requires Known(w, o)
  {
    if a in w.mem || Panics(w, o) then None
    else if o.Bar? then Some(w.(mem := w.mem[a := o], devs := w.devs[o.dev := Mapped(w.devs[o.dev], o.index, a)]))
    else Some(w.(mem := w.mem[a := o]))
  }

  function AddIoRegion(w: World, port: IoPort, o: Owner): Option<World>
    requires Known(w, o)
  {
    if port in w.io || Panics(w, o) then None
    else if o.Bar? then
      Some(w.(io := w.io[port := o], devs := w.devs[o.dev := Mapped(w.devs[o.dev], o.index, PortAddr(port))]))
    else Some(w.(io := w.io[port := o]))
  }

  /** `MoveBarCallback::change`. */
  function MoveBar(w: World, src: Addr, dst: Addr): Option<World> {
    if IsIo(src.lo) then
      var p := Port(src.lo);
      if p !in w.io || !Known(w, w.io[p]) then None else AddIoRegion(w.(io := w.io - {p}), Port(dst.lo), w.io[p])
    else
      var a := Addr(MemAddr(src.lo), src.hi);
      if a !in w.mem || !Known(w, w.mem[a]) then None
      else AddRegion(w.(mem := w.mem - {a}), Addr(MemAddr(dst.lo), dst.hi), w.mem[a])
  }

  // ---------------------------------------------------------------------------- writes

  predicate DevIn(w: World, d: nat) {
    d < |w.devs| && Shaped(w.devs[d])
  }

  /** A four-byte write to register `i`. */
  function WriteBar(w: World, d: nat, i: nat, val: bv32): Option<World>
    requires DevIn(w, d) && i < BARS
  {
    var f := w.devs[d];
    var before, after := f.bars[i], MaskBits(f.bars[i], val, f.masks[i]);
    if before == after then Some(w)
    else if f.kinds[i].IoBar? && IoOn(f) then MoveBar(w, Addr(before, 0), Addr(after, 0))
    else if f.kinds[i].MemBar? && MemOn(f) then
      var hi := if Is64(before) && i + 1 < BARS then f.bars[i + 1] else 0;
      MoveBar(w, Addr(before, hi), Addr(after, hi))
    else if f.kinds[i].Empty? && MemOn(f) && i > 0 && Is64(f.bars[i - 1]) then
      MoveBar(w, Addr(f.bars[i - 1], before), Addr(f.bars[i - 1], after))
    else Some(w.(devs := w.devs[d := f.(bars := f.bars[i := after])]))
  }

  predicate MemChanged(changed: bv16) {
    changed & COMMAND_MEM == COMMAND_MEM
  }

  predicate IoChanged(changed: bv16) {
    changed & COMMAND_IO == COMMAND_IO
  }

  function Flipped(before: bv16, now: bv16): bv16 {
    before ^ now
  }

  function NewCommand(command: bv16, val: bv16): bv16 {
    (command & !COMMAND_WRITABLE) | (val & COMMAND_WRITABLE)
  }

  /** One register's turn in `UpdateCommandCallback::change`; `bars` are the registers when the command was written. */
  function UpdateOne(w: World, d: nat, i: nat, bars: seq<bv32>, changed: bv16): Option<World>
    requires DevIn(w, d) && i < BARS && |bars| == BARS
  {
    var f := w.devs[d];
    match f.kinds[i]
    case Empty => Some(w)
    case MemBar =>
      if !MemChanged(changed) then Some(w)
      else
        var a := AddrOf(f.(bars := bars), i);
        if MemOn(f) then AddRegion(w, a, Bar(d, i))
        else if a in w.mem then Some(w.(mem := w.mem - {a}))
        else None
    case IoBar =>
      if !IoChanged(changed) then Some(w)
      else
        var p := Port(bars[i]);
        if IoOn(f) then AddIoRegion(w, p, Bar(d, i))
        else if p in w.io then Some(w.(io := w.io - {p}))
        else None
  }

  /** The registers from `i` on. */
  function UpdateFrom(w: World, d: nat, i: nat, bars: seq<bv32>, changed: bv16): Option<World>
    requires DevIn(w, d) && i <= BARS && |bars| == BARS
    decreases BARS - i
  {
    if i == BARS then Some(w)
    else
      match UpdateOne(w, d, i, bars, changed)
      case None => None
      case Some(v) => if DevIn(v, d) then UpdateFrom(v, d, i + 1, bars, changed) else None
  }

  /** A two-byte write to the command register. */
  function WriteCommand(w: World, d: nat, val: bv16): Option<World>
    requires DevIn(w, d)
  {
    var f := w.devs[d];
    var current := NewCommand(f.command, val);
    var changed := Flipped(f.command, current);
    var v := w.(devs := w.devs[d := f.(command := current)]);
    if MemChanged(changed) || IoChanged(changed) then UpdateFrom(v, d, 0, f.bars, changed) else Some(v)
  }

  /** A base address from the boot-time allocator, which sets the upper half unchecked; an upper half for the last
      register, excluded by `MayAssign`, would make it panic. */
  function Assign(f: Function, i: nat, a: Addr): Function
    requires Shaped(f) && i < BARS
  {
    var g := SetBar(f, i, a.lo);
    if a.hi != 0 && i + 1 < BARS then SetBar(g, i + 1, a.hi) else g
  }

  /** Every function's reset, then the reset of memory. */
  function Reset(w: World): World {
    World(seq(|w.devs|, d requires 0 <= d < |w.devs| => w.devs[d].(command := 0)), map[], map[])
  }

  // ------------------------------------------------------------------------------ runs

  datatype Step =
    | CommandWrite(d: nat, val: bv16)
    | BarWrite(d: nat, i: nat, to: bv32)
    | BootAssign(d: nat, i: nat, a: Addr)
    | ResetAll
    | BoardAdds(at: Addr, id: nat)
    | BoardRemoves(at: Addr)
    | BoardAddsPort(port: IoPort, id: nat)
    | BoardRemovesPort(port: IoPort)

  /** The allocator runs while a function decodes nothing, and gives an upper half only to a 64-bit register. */
  predicate MayAssign(f: Function, i: nat, a: Addr)
    requires Shaped(f) && i < BARS
  {
    !MemOn(f) && !IoOn(f) && (a.hi != 0 ==> f.kinds[i].MemBar? && Is64(f.bars[i]))
  }

  /** One step; nothing where the program returns an error or panics, or the step cannot happen. */
  function Do(w: World, s: Step): Option<World> {
    match s
    case CommandWrite(d, val) => if DevIn(w, d) then WriteCommand(w, d, val) else None
    case BarWrite(d, i, to) => if DevIn(w, d) && i < BARS then WriteBar(w, d, i, to) else None
    case BootAssign(d, i, a) =>
      if DevIn(w, d) && i < BARS && MayAssign(w.devs[d], i, a)
          then Some(w.(devs := w.devs[d := Assign(w.devs[d], i, a)]))
      else None
    case ResetAll => Some(Reset(w))
    case BoardAdds(at, id) => if at in w.mem then None else Some(w.(mem := w.mem[at := Other(id)]))
    case BoardRemoves(at) => if at in w.mem && w.mem[at].Other? then Some(w.(mem := w.mem - {at})) else None
    case BoardAddsPort(port, id) => if port in w.io then None else Some(w.(io := w.io[port := Other(id)]))
    case BoardRemovesPort(port) => if port in w.io && w.io[port].Other? then Some(w.(io := w.io - {port})) else None
  }

  function Run(w: World, steps: seq<Step>): Option<World>
    decreases |steps|
  {
    if steps == [] then Some(w)
    else
      match Run(w, steps[..|steps| - 1])
      case None => None
      case Some(v) => Do(v, steps[|steps| - 1])
  }
}
