/**
 What a write does, in the bits of sections 6.2.2 and 6.2.5.1 of PCI Local Bus 3.0: which value a register holds
 afterwards, where the region goes that it stands for, and when the write fails.
 */
module PciEffects {
  import opened Wrappers
  import opened PciBars
  import opened PciBarTheorems
  import opened PciBarRuns

  // ----------------------------------------------------------------------- in plain bits

  /** The bits of `val` that a register takes, on top of those it keeps. */
  function Taken(bar: bv32, mask: bv32, val: bv32): bv32 {
    (bar & !mask) | (val & mask)
  }

  predicate Wide(bar: bv32) {
    bar & 0x4 == 0x4
  }

  predicate MemoryOn(command: bv16) {
    command & 0x2 == 0x2
  }

  predicate PortsOn(command: bv16) {
    command & 0x1 == 0x1
  }

  /** Bits 31 to 4. */
  function Upper(bar: bv32): bv32 {
    bar & 0xFFFF_FFF0
  }

  /** The memory address in register `i`: bits 31 to 4, and the next register above them if bit 2 says so. */
  function Address(bars: seq<bv32>, i: nat): Addr
    requires i < |bars|
  {
    Addr(Upper(bars[i]), if Wide(bars[i]) && i + 1 < |bars| then bars[i + 1] else 0)
  }

  /** The port in a register: bits 15 to 2. */
  function PortIn(bar: bv32): IoPort {
    IoPort((bar & 0xFFFC) as bv16)
  }

  lemma PlainBits(f: Function, i: nat)
    requires Shaped(f) && i < BARS
    ensures AddrOf(f, i) == Address(f.bars, i) && Port(f.bars[i]) == PortIn(f.bars[i])
    ensures (MemOn(f) <==> MemoryOn(f.command)) && (IoOn(f) <==> PortsOn(f.command))
    ensures Is64(f.bars[i]) <==> Wide(f.bars[i])
  {
    hide Upper, MemAddr, Wide, Is64, Port, PortIn, MemOn, IoOn, MemoryOn, PortsOn;
    PlainRegister(f.bars[i]);
    PlainPort(f.bars[i]);
    PlainCommand(f);
  }

  lemma PlainRegister(bar: bv32)
    ensures MemAddr(bar) == Upper(bar) && (Is64(bar) <==> Wide(bar))
  {
  }

  lemma PlainPort(bar: bv32)
    ensures Port(bar) == PortIn(bar)
  {
    SamePort(bar);
  }

  lemma SamePort(bar: bv32)
    ensures (bar & !BAR_IO_MASK) & 0xFFFF == bar & 0xFFFC
  {
  }

  lemma PlainCommand(f: Function)
    ensures (MemOn(f) <==> MemoryOn(f.command)) && (IoOn(f) <==> PortsOn(f.command))
  {
  }

  lemma PlainTaken(bar: bv32, val: bv32, mask: bv32)
    ensures MaskBits(bar, val, mask) == Taken(bar, mask, val)
  {
  }

  // -------------------------------------------------------------------------- agreement

  /** The region of register `i` is in memory exactly while bit 1 of the command is set, once, at the address in the
      register; that of a port exactly while bit 0 is set, once, at the port in the register. */
  ghost predicate InPlace(v: World, d: nat, i: nat)
    requires DevIn(v, d) && i < BARS
  {
    var f := v.devs[d];
    && (f.kinds[i].MemBar? ==>
          forall a :: a in v.mem && v.mem[a] == Bar(d, i) <==> MemoryOn(f.command) && a == Address(f.bars, i))
    && (f.kinds[i].IoBar? ==>
          forall p :: p in v.io && v.io[p] == Bar(d, i) <==> PortsOn(f.command) && p == PortIn(f.bars[i]))
  }

  /** After every error-free run of functions whose ports are safe. */
  lemma BarsInPlace(w: World, steps: seq<Step>, d: nat, i: nat)
    requires Powered(w) && AllSealed(w) && Run(w, steps).Some? && d < |w.devs| && i < BARS
    ensures DevIn(Run(w, steps).value, d) && InPlace(Run(w, steps).value, d, i)
  {
    hide Powered, AllSealed, Run, AddrOf, Address, Port, PortIn, MemOn, IoOn, MemoryOn, PortsOn, Spellable, Spells;
    BarsAgree(w, steps, d, i);
    PlainBits(Run(w, steps).value.devs[d], i);
  }

  /** In a state that agrees, a decoding BAR is where its register says. */
  lemma InvPlace(w: World, d: nat, i: nat)
    requires Inv(w) && DevIn(w, d) && i < BARS
    ensures WellBuilt(w.devs[d])
    ensures w.devs[d].kinds[i].MemBar? && MemoryOn(w.devs[d].command) ==>
              var a := Address(w.devs[d].bars, i); a in w.mem && w.mem[a] == Bar(d, i)
    ensures w.devs[d].kinds[i].IoBar? && PortsOn(w.devs[d].command) ==>
              var p := PortIn(w.devs[d].bars[i]);
              p in w.io && w.io[p] == Bar(d, i) && Spells(w.devs[d].bars[i], Port(w.devs[d].bars[i]))
  {
    hide Expect, AddrOf, Address, Port, PortIn, MemOn, IoOn, MemoryOn, PortsOn, Spells, Well, Sealed;
    ExpectAt(w, Decoding(w), d, i);
    InDecoding(w, d, i);
    PlainBits(w.devs[d], i);
  }

  // -------------------------------------------------------------------------- registers

  function In(val: bv32, mask: bv32): bv32 {
    val & mask
  }

  lemma TakenRaw(bar: bv32, a: bv32, b: bv32, mask: bv32)
    requires a & mask == b & mask
    ensures Taken(bar, mask, a) == Taken(bar, mask, b)
  {
    var part := a & mask;
    assert Taken(bar, mask, a) == (bar & !mask) | part;
    assert Taken(bar, mask, b) == (bar & !mask) | part;
  }

  lemma TakenInside(bar: bv32, val: bv32, mask: bv32)
    ensures In(Taken(bar, mask, val), mask) == In(val, mask)
  {
  }

  lemma TakenSame(bar: bv32, a: bv32, b: bv32, mask: bv32)
    requires In(a, mask) == In(b, mask)
    ensures Taken(bar, mask, a) == Taken(bar, mask, b)
  {
    hide Taken;
    TakenRaw(bar, a, b, mask);
  }

  lemma TakenSelf(bar: bv32, mask: bv32)
    ensures Taken(bar, mask, bar) == bar
  {
  }

  lemma TakenAgain(bar: bv32, val: bv32, mask: bv32)
    ensures Taken(bar, mask, Taken(bar, mask, val)) == Taken(bar, mask, val)
  {
    hide Taken, In;
    TakenInside(bar, val, mask);
    TakenSame(bar, Taken(bar, mask, val), val, mask);
  }

  lemma UpperInside(v: bv32, mask: bv32)
    requires mask & 0xFFF == 0
    ensures In(Upper(v), mask) == In(v, mask)
  {
    assert mask & 0xF == (mask & 0xFFF) & 0xF;
  }

  lemma TakenType(bar: bv32, val: bv32, mask: bv32)
    requires mask & 0xFFF == 0
    ensures Wide(Taken(bar, mask, val)) == Wide(bar)
  {
    assert mask & 0x4 == (mask & 0xFFF) & 0x4;
  }

  /** Bits 15 to 2, as an address. */
  function Low(bar: bv32): bv32 {
    bar & 0xFFFC
  }

  /** An I/O register that holds the 16-bit part of what it can take of `val`. */
  function Cut(val: bv32, mask: bv32): bv32 {
    0x1 | (val & mask & 0xFFFF)
  }

  lemma NumberIs(bar: bv32)
    ensures PortIn(bar).number as bv32 == Low(bar)
  {
  }

  lemma SameNumber(a: bv32, b: bv32)
    requires Low(a) == Low(b)
    ensures PortIn(a) == PortIn(b)
  {
  }

  lemma CutBits(bar: bv32, val: bv32, mask: bv32)
    requires IoBits(bar, mask)
    ensures Taken(bar, mask, Low(Taken(bar, mask, val))) == Cut(val, mask)
  {
  }

  lemma CutLow(bar: bv32, val: bv32, mask: bv32)
    requires IoBits(bar, mask)
    ensures Low(Cut(val, mask)) == Low(Taken(bar, mask, val))
  {
  }

  /** A register with a 16-bit port in it that takes nothing new. */
  lemma CutSame(bar: bv32, val: bv32, mask: bv32)
    requires IoBits(bar, mask) && bar & 0xFFFF_0000 == 0 && Taken(bar, mask, val) == bar
    ensures Cut(val, mask) == bar
  {
  }

  lemma SpelledLow(bar: bv32)
    requires Spells(bar, Port(bar))
    ensures bar & 0xFFFF_0000 == 0
  {
    NumberLow(Port(bar).number);
  }

  lemma NumberLow(n: bv16)
    ensures (n as bv32) & 0xFFFF_0000 == 0
  {
  }

  /** What an I/O register holds once its region is at the port that `val` names. */
  lemma TakenPort(bar: bv32, val: bv32, mask: bv32)
    requires IoBits(bar, mask)
    ensures Taken(bar, mask, PortIn(Taken(bar, mask, val)).number as bv32) == Cut(val, mask)
    ensures PortIn(Cut(val, mask)) == PortIn(Taken(bar, mask, val))
  {
    hide Taken, Low, Cut, IoBits, PortIn;
    NumberIs(Taken(bar, mask, val));
    CutBits(bar, val, mask);
    CutLow(bar, val, mask);
    SameNumber(Cut(val, mask), Taken(bar, mask, val));
  }

  /** The callback of a memory region that moved to where a write to its register, or to its upper half, points. */
  lemma MemRegister(f: Function, i: nat, next: bv32)
    requires WellBuilt(f) && i < BARS && f.kinds[i].MemBar?
    requires Taken(f.bars[i], f.masks[i], Upper(next)) == next && (Is64(next) <==> Is64(f.bars[i]))
    ensures var bars := f.bars[i := next];
            && Address(bars, i).hi == Address(f.bars, i).hi && Mapped(f, i, Address(bars, i)) == f.(bars := bars)
  {
    hide MemBits, Covered, Is64, MaskBits, Taken, Wide, Upper, Sealed, Port, PortIn, MemOn, IoOn, MemAddr;
    WellAt(f, i);
    PlainBits(f, i);
    var bar, mask, bars := f.bars[i], f.masks[i], f.bars[i := next];
    PlainRegister(next);
    PlainTaken(bar, Upper(next), mask);
    if Is64(bar) {
      TakenSelf(f.bars[i + 1], f.masks[i + 1]);
      PlainTaken(f.bars[i + 1], f.bars[i + 1], f.masks[i + 1]);
    }
    assert Mapped(f, i, Address(bars, i)).bars == bars;
  }

  lemma LowMask(bar: bv32, mask: bv32)
    requires MemBits(bar, mask)
    ensures mask & 0xFFF == 0
  {
  }

  lemma PageMask(f: Function, i: nat)
    requires WellBuilt(f) && i < BARS && f.kinds[i].MemBar?
    ensures f.masks[i] & 0xFFF == 0
  {
    hide MemBits, Covered, Is64;
    WellAt(f, i);
    LowMask(f.bars[i], f.masks[i]);
  }

  lemma HighRegister(f: Function, m: nat, val: bv32)
    requires WellBuilt(f) && m + 1 < BARS && f.kinds[m].MemBar? && Wide(f.bars[m])
    ensures var bars := f.bars[m + 1 := Taken(f.bars[m + 1], f.masks[m + 1], val)];
            && Address(bars, m).lo == Address(f.bars, m).lo && Mapped(f, m, Address(bars, m)) == f.(bars := bars)
  {
    hide MemBits, Covered, Is64, MaskBits, Taken, Wide, Upper, Sealed, Port, PortIn, MemOn, IoOn, MemAddr;
    WellAt(f, m);
    PlainBits(f, m);
    var bar, mask, up := f.bars[m], f.masks[m], m + 1;
    var next := Taken(f.bars[up], f.masks[up], val);
    var bars := f.bars[up := next];
    PageMask(f, m);
    UpperInside(bar, mask);
    TakenSame(bar, Upper(bar), bar, mask);
    TakenSelf(bar, mask);
    PlainTaken(bar, Upper(bar), mask);
    TakenAgain(f.bars[up], val, f.masks[up]);
    PlainTaken(f.bars[up], next, f.masks[up]);
    assert Mapped(f, m, Address(bars, m)).bars == bars;
  }

  // ------------------------------------------------------------------------- a BAR write

  /** The memory BAR that register `i` belongs to, if it decodes: its own, or that of the 64-bit register before it. */
  function MemoryBar(f: Function, i: nat): Option<nat>
    requires Shaped(f) && i < BARS
  {
    if !MemoryOn(f.command) then None
    else if f.kinds[i].MemBar? then Some(i)
    else if f.kinds[i].Empty? && i > 0 && f.kinds[i - 1].MemBar? && Wide(f.bars[i - 1]) then Some(i - 1)
    else None
  }

  predicate PortBar(f: Function, i: nat)
    requires Shaped(f) && i < BARS
  {
    f.kinds[i].IoBar? && PortsOn(f.command)
  }

  /** The registers after the write: a port that decodes is cut to 16 bits. */
  function Afterwards(f: Function, i: nat, val: bv32): (bars: seq<bv32>)
    requires Shaped(f) && i < BARS
    ensures |bars| == BARS && forall j :: 0 <= j < BARS && j != i ==> bars[j] == f.bars[j]
  {
    f.bars[i := if PortBar(f, i) then Cut(val, f.masks[i]) else Taken(f.bars[i], f.masks[i], val)]
  }

  /** The region goes to where the registers now point: away from the old address, and nothing else moves. */
  ghost predicate Effect(w: World, d: nat, i: nat, val: bv32, v: World)
    requires DevIn(w, d) && i < BARS
  {
    var f := w.devs[d];
    var bars, m := Afterwards(f, i, val), MemoryBar(f, i);
    && v.devs == w.devs[d := f.(bars := bars)]
    && v.mem == (if m == None then w.mem
                 else (w.mem - {Address(f.bars, m.value)})[Address(bars, m.value) := Bar(d, m.value)])
    && v.io == (if PortBar(f, i) then (w.io - {PortIn(f.bars[i])})[PortIn(bars[i]) := Bar(d, i)] else w.io)
  }

  /** The new address belongs to somebody else, or the port is in the last register and looks like a 64-bit one. */
  ghost predicate Blocked(w: World, d: nat, i: nat, val: bv32)
    requires DevIn(w, d) && i < BARS
  {
    var f := w.devs[d];
    var bars, m := Afterwards(f, i, val), MemoryBar(f, i);
    && Taken(f.bars[i], f.masks[i], val) != f.bars[i]
    && ((m.Some? && Address(bars, m.value) in w.mem && Address(bars, m.value) != Address(f.bars, m.value))
        || (PortBar(f, i) && PortIn(bars[i]) in w.io && PortIn(bars[i]) != PortIn(f.bars[i]))
        || (PortBar(f, i) && i == 5 && Wide(f.bars[i])))
  }

  lemma EffectSame(w: World, d: nat, i: nat, val: bv32)
    requires Inv(w) && DevIn(w, d) && i < BARS
    requires Taken(w.devs[d].bars[i], w.devs[d].masks[i], val) == w.devs[d].bars[i]
    ensures Effect(w, d, i, val, w)
  {
    hide Inv, Taken, Cut, Address, PortIn, MemoryOn, PortsOn, Wide, WellBuilt, Spells, Port;
    var f := w.devs[d];
    InvPlace(w, d, i);
    if i > 0 { InvPlace(w, d, i - 1); }
    if PortBar(f, i) {
      PortWell(f, i);
      SpelledLow(f.bars[i]);
      CutSame(f.bars[i], val, f.masks[i]);
    }
    assert Afterwards(f, i, val) == f.bars;
    assert f.(bars := f.bars) == f;
    assert w.devs[d := f] == w.devs;
  }

  lemma PortWell(f: Function, i: nat)
    requires WellBuilt(f) && i < BARS && f.kinds[i].IoBar?
    ensures IoBits(f.bars[i], f.masks[i]) && IsIo(f.bars[i])
  {
    hide IoBits, IsIo, Is64, Outside, Sealed;
    WellAt(f, i);
    SameIo(f.bars[i], f.bars[i], f.masks[i]);
  }

  lemma MemWellIs(f: Function, i: nat)
    requires WellBuilt(f) && i < BARS && f.kinds[i].MemBar?
    ensures !IsIo(f.bars[i]) && !Overruns(f, i) && MemBits(f.bars[i], f.masks[i])
  {
    hide MemBits, IsIo, Is64, Outside, Sealed, Covered;
    MemStays(f, i);
    WellAt(f, i);
    SameMem(f.bars[i], f.bars[i], f.masks[i]);
  }

  /** Moving the region of register `m` to `to`, with the registers that its callback leaves. */
  lemma EffectMove(w: World, d: nat, m: nat, src: Addr, dst: Addr, bars: seq<bv32>)
    requires Inv(w) && DevIn(w, d) && m < BARS && w.devs[d].kinds[m].MemBar? && MemoryOn(w.devs[d].command)
    requires !IsIo(src.lo) && Addr(MemAddr(src.lo), src.hi) == Address(w.devs[d].bars, m)
    requires |bars| == BARS && Addr(MemAddr(dst.lo), dst.hi) == Address(bars, m)
    requires Mapped(w.devs[d], m, Address(bars, m)) == w.devs[d].(bars := bars)
    ensures var f := w.devs[d];
            var was, to := Address(f.bars, m), Address(bars, m);
            MoveBar(w, src, dst)
            == if to in w.mem && to != was then None
               else Some(World(w.devs[d := f.(bars := bars)], (w.mem - {was})[to := Bar(d, m)], w.io))
  {
    hide Inv, Address, MemoryOn, WellBuilt, Mapped, IsIo, MemAddr, Overruns, PortIn, PortsOn, Spells, Port;
    InvPlace(w, d, m);
    MemWellIs(w.devs[d], m);
  }

  lemma EffectLow(w: World, d: nat, i: nat, val: bv32)
    requires Inv(w) && DevIn(w, d) && i < BARS && w.devs[d].kinds[i].MemBar? && MemoryOn(w.devs[d].command)
    requires Taken(w.devs[d].bars[i], w.devs[d].masks[i], val) != w.devs[d].bars[i]
    ensures var r := WriteBar(w, d, i, val);
            (r == None <==> Blocked(w, d, i, val)) && (r.Some? ==> Effect(w, d, i, val, r.value))
  {
    hide Inv, Taken, Wide, WellBuilt, Mapped, MaskBits, IsIo, Is64, MemAddr, MemOn, IoOn, MemoryOn, PortsOn, Upper,
         MoveBar, Port, PortIn, MemBits, In;
    var f := w.devs[d];
    var bar, bars := f.bars[i], Afterwards(f, i, val);
    InvPlace(w, d, i);
    MemWellIs(f, i);
    PageMask(f, i);
    UpperInside(bars[i], f.masks[i]);
    TakenSame(bar, Upper(bars[i]), bars[i], f.masks[i]);
    TakenAgain(bar, val, f.masks[i]);
    TakenType(bar, val, f.masks[i]);
    PlainRegister(bar);
    PlainRegister(bars[i]);
    MemRegister(f, i, bars[i]);
    PlainBits(f, i);
    PlainTaken(bar, val, f.masks[i]);
    var hi := if Is64(bar) && i + 1 < BARS then f.bars[i + 1] else 0;
    EffectMove(w, d, i, Addr(bar, hi), Addr(bars[i], hi), bars);
  }

  lemma EffectHigh(w: World, d: nat, i: nat, val: bv32)
    requires Inv(w) && DevIn(w, d) && 0 < i < BARS && w.devs[d].kinds[i].Empty? && MemoryOn(w.devs[d].command)
    requires w.devs[d].kinds[i - 1].MemBar? && Wide(w.devs[d].bars[i - 1])
    requires Taken(w.devs[d].bars[i], w.devs[d].masks[i], val) != w.devs[d].bars[i]
    ensures var r := WriteBar(w, d, i, val);
            (r == None <==> Blocked(w, d, i, val)) && (r.Some? ==> Effect(w, d, i, val, r.value))
  {
    hide Inv, Taken, Wide, WellBuilt, Mapped, MaskBits, IsIo, Is64, MemAddr, MemOn, IoOn, MemoryOn, PortsOn, Upper,
         MoveBar, Port, PortIn;
    var f, m := w.devs[d], i - 1;
    var bars := Afterwards(f, i, val);
    InvPlace(w, d, m);
    MemWellIs(f, m);
    HighRegister(f, m, val);
    PlainBits(f, m);
    PlainTaken(f.bars[i], val, f.masks[i]);
    EffectMove(w, d, m, Addr(f.bars[m], f.bars[i]), Addr(f.bars[m], bars[i]), bars);
  }

  lemma EffectPort(w: World, d: nat, i: nat, val: bv32)
    requires Inv(w) && DevIn(w, d) && i < BARS && PortBar(w.devs[d], i)
    requires Taken(w.devs[d].bars[i], w.devs[d].masks[i], val) != w.devs[d].bars[i]
    ensures var r := WriteBar(w, d, i, val);
            (r == None <==> Blocked(w, d, i, val)) && (r.Some? ==> Effect(w, d, i, val, r.value))
  {
    hide Inv, Taken, Wide, WellBuilt, Mapped, MaskBits, IsIo, Is64, MemOn, IoOn, MemoryOn, PortsOn, Port, PortIn, Cut,
         IoBits, Spells, PortAddr, Address;
    var f := w.devs[d];
    var bar, mask := f.bars[i], f.masks[i];
    var next, bars := Taken(bar, mask, val), Afterwards(f, i, val);
    InvPlace(w, d, i);
    PortWell(f, i);
    PlainBits(f, i);
    PlainTaken(bar, val, mask);
    PlainPort(next);
    TakenPort(bar, val, mask);
    PortRegister(f, i, val);
    assert WriteBar(w, d, i, val) == MoveBar(w, Addr(bar, 0), Addr(next, 0));
  }

  lemma PortRegister(f: Function, i: nat, val: bv32)
    requires WellBuilt(f) && i < BARS && f.kinds[i].IoBar?
    ensures Mapped(f, i, PortAddr(PortIn(Taken(f.bars[i], f.masks[i], val))))
            == f.(bars := f.bars[i := Cut(val, f.masks[i])])
  {
    hide Well, Sealed, Taken, MaskBits, Cut, PortIn, Is64, IoBits;
    var bar, mask := f.bars[i], f.masks[i];
    var a := PortAddr(PortIn(Taken(bar, mask, val)));
    PortWell(f, i);
    PortSpares(f, i, a);
    TakenPort(bar, val, mask);
    PlainTaken(bar, a.lo, mask);
    assert Mapped(f, i, a).bars == f.bars[i := Cut(val, mask)];
  }

  lemma EffectQuiet(w: World, d: nat, i: nat, val: bv32)
    requires Inv(w) && DevIn(w, d) && i < BARS && !PortBar(w.devs[d], i) && MemoryBar(w.devs[d], i) == None
    requires Taken(w.devs[d].bars[i], w.devs[d].masks[i], val) != w.devs[d].bars[i]
    ensures var r := WriteBar(w, d, i, val);
            (r == None <==> Blocked(w, d, i, val)) && (r.Some? ==> Effect(w, d, i, val, r.value))
  {
    hide Inv, Taken, Wide, WellBuilt, Mapped, MaskBits, Is64, MemOn, IoOn, MemoryOn, PortsOn, Cut, MoveBar, Address,
         Port, PortIn;
    var f := w.devs[d];
    InvPlace(w, d, i);
    PlainBits(f, i);
    PlainTaken(f.bars[i], val, f.masks[i]);
    if f.kinds[i].Empty? && i > 0 {
      HighMove(f, i, val);
      PlainBits(f, i - 1);
    }
  }

  /** What a four-byte write to register `i` does in a state where registers and regions agree. Bits inside the mask are
      taken from the value and the others kept; no other register changes. While the BAR decodes, its region leaves the
      old address and is at the one in the registers afterwards. The write fails exactly if that is taken or the
      callback panics. */
  lemma WriteBarEffect(w: World, d: nat, i: nat, val: bv32)
    requires Inv(w) && DevIn(w, d) && i < BARS
    ensures var r := WriteBar(w, d, i, val);
            (r == None <==> Blocked(w, d, i, val)) && (r.Some? ==> Effect(w, d, i, val, r.value))
  {
    hide Inv, WriteBar, Effect, Taken, MaskBits, MemoryOn, PortsOn, Wide, Address, PortIn, Cut;
    var f := w.devs[d];
    if Taken(f.bars[i], f.masks[i], val) == f.bars[i] {
      EffectSame(w, d, i, val);
      NoChange(w, d, i, val);
    } else if PortBar(f, i) {
      EffectPort(w, d, i, val);
    } else if MemoryBar(f, i) == None {
      EffectQuiet(w, d, i, val);
    } else if f.kinds[i].MemBar? {
      EffectLow(w, d, i, val);
    } else {
      EffectHigh(w, d, i, val);
    }
  }

  lemma NoChange(w: World, d: nat, i: nat, val: bv32)
    requires DevIn(w, d) && i < BARS && Taken(w.devs[d].bars[i], w.devs[d].masks[i], val) == w.devs[d].bars[i]
    ensures WriteBar(w, d, i, val) == Some(w)
  {
    hide Taken, MaskBits;
    PlainTaken(w.devs[d].bars[i], val, w.devs[d].masks[i]);
  }

  // --------------------------------------------------------------------- a command write

  /** Bits 0 to 2, 6, 8 and 10 are taken from the value, the others kept. */
  predicate CommandTaken(before: bv16, val: bv16, now: bv16) {
    now & 0x547 == val & 0x547 && now & 0xFAB8 == before & 0xFAB8
  }

  lemma NewCommandBits(before: bv16, val: bv16)
    ensures CommandTaken(before, val, NewCommand(before, val))
  {
  }

  /** Who owns what, for everybody but function `d`. */
  ghost predicate OthersKept(w: World, v: World, d: nat) {
    && (forall a, o: Owner :: (o.Bar? ==> o.dev != d) ==>
          ((a in v.mem && v.mem[a] == o) <==> (a in w.mem && w.mem[a] == o)))
    && (forall p, o: Owner :: (o.Bar? ==> o.dev != d) ==>
          ((p in v.io && v.io[p] == o) <==> (p in w.io && w.io[p] == o)))
  }

  lemma OthersThen(u: World, v: World, w: World, d: nat)
    requires OthersKept(u, v, d) && OthersKept(v, w, d)
    ensures OthersKept(u, w, d)
  {
  }

  /** Registers `k` and up after their turns: those of ports that begin to decode are cut to 16 bits. */
  ghost predicate Turned(f: Function, g: Function, k: nat, starts: bool)
    requires Shaped(f)
  {
    && g.kinds == f.kinds && g.masks == f.masks && g.command == f.command && |g.bars| == BARS
    && forall j :: 0 <= j < BARS ==>
         g.bars[j] == if starts && j >= k && f.kinds[j].IoBar? then Cut(f.bars[j], f.masks[j]) else f.bars[j]
  }

  /** One register's turn changes its own register at most, and no region but its own. */
  lemma TurnOne(w: World, d: nat, k: nat, bars: seq<bv32>, changed: bv16, memWas: bool, ioWas: bool)
    requires Stage(w, d, k, bars, memWas, ioWas) && k < BARS
    requires MemChanged(changed) <==> memWas != MemOn(w.devs[d])
    requires IoChanged(changed) <==> ioWas != IoOn(w.devs[d])
    requires UpdateOne(w, d, k, bars, changed).Some?
    ensures var f, v := w.devs[d], UpdateOne(w, d, k, bars, changed).value;
            && OthersKept(w, v, d)
            && v.devs == w.devs[d := if !ioWas && IoOn(f) && f.kinds[k].IoBar?
                                     then f.(bars := f.bars[k := Cut(f.bars[k], f.masks[k])]) else f]
  {
    hide Expect, Upto, MemOn, IoOn, MemChanged, IoChanged, AddrOf, Port, Mapped, Cut, Well, Sealed, Spells, Overruns,
         PortAddr;
    var f, on := w.devs[d], Upto(w, d, k, memWas, ioWas);
    ExpectAt(w, on, d, k);
    InUpto(w, d, k, memWas, ioWas, d, k);
    SnapshotAddr(f, bars, k);
    assert w.devs[d := f] == w.devs;
    match f.kinds[k]
    case Empty =>
    case MemBar =>
      Refresh(f, k);
    case IoBar =>
      PortRefresh(f, k);
  }

  lemma PortRefresh(f: Function, k: nat)
    requires WellBuilt(f) && k < BARS && f.kinds[k].IoBar?
    ensures Mapped(f, k, PortAddr(Port(f.bars[k]))) == f.(bars := f.bars[k := Cut(f.bars[k], f.masks[k])])
  {
    hide Well, Sealed, Mapped, Taken, Cut, Port, PortIn, PortAddr;
    PortRegister(f, k, f.bars[k]);
    TakenSelf(f.bars[k], f.masks[k]);
    PlainPort(f.bars[k]);
  }

  lemma {:induction false} TurnAll(w: World, d: nat, k: nat, bars: seq<bv32>, changed: bv16, memWas: bool, ioWas: bool)
    requires Stage(w, d, k, bars, memWas, ioWas) && k <= BARS
    requires MemChanged(changed) <==> memWas != MemOn(w.devs[d])
    requires IoChanged(changed) <==> ioWas != IoOn(w.devs[d])
    requires UpdateFrom(w, d, k, bars, changed).Some?
    ensures var v := UpdateFrom(w, d, k, bars, changed).value;
            && OthersKept(w, v, d) && |v.devs| == |w.devs| && v.devs == w.devs[d := v.devs[d]]
            && Turned(w.devs[d], v.devs[d], k, !ioWas && IoOn(w.devs[d]))
    decreases BARS - k
  {
    hide Expect, UpdateOne, Upto, MemChanged, IoChanged, MemOn, IoOn, OthersKept, Cut;
    if k == BARS {
      OthersSame(w, d);
      assert w.devs[d := w.devs[d]] == w.devs;
    } else {
      UpdateOneKeeps(w, d, k, bars, changed, memWas, ioWas);
      TurnOne(w, d, k, bars, changed, memWas, ioWas);
      var u := UpdateOne(w, d, k, bars, changed).value;
      SameOn(w.devs[d], u.devs[d]);
      TurnAll(u, d, k + 1, bars, changed, memWas, ioWas);
      OthersThen(w, u, UpdateFrom(u, d, k + 1, bars, changed).value, d);
    }
  }

  lemma OthersSame(w: World, d: nat)
    ensures OthersKept(w, w, d)
  {
  }

  lemma SameOn(f: Function, g: Function)
    requires f.command == g.command
    ensures MemOn(f) == MemOn(g) && IoOn(f) == IoOn(g)
  {
  }

  /** The command's writable bits are taken and the others kept, registers stay but for ports that begin to decode,
      other functions and their regions stay, and every BAR of the function is in place under the new command. */
  ghost predicate CommandEffect(w: World, d: nat, val: bv16, v: World)
    requires DevIn(w, d)
  {
    && |v.devs| == |w.devs| && v.devs == w.devs[d := v.devs[d]] && OthersKept(w, v, d)
    && var f, g := w.devs[d], v.devs[d];
    && CommandTaken(f.command, val, g.command)
    && Turned(f.(command := g.command), g, 0, !PortsOn(f.command) && PortsOn(g.command))
    && forall i :: 0 <= i < BARS ==> InPlace(v, d, i)
  }

  /** What a write to the command register does in a state where registers and regions agree; it cannot fail unless it
      turns a decode bit on. */
  lemma WriteCommandEffect(w: World, d: nat, val: bv16)
    requires Inv(w) && DevIn(w, d)
    ensures WriteCommand(w, d, val).Some? ==> CommandEffect(w, d, val, WriteCommand(w, d, val).value)
    ensures WriteCommand(w, d, val) == None ==>
              var before := w.devs[d].command;
              (!MemoryOn(before) && MemoryOn(val)) || (!PortsOn(before) && PortsOn(val))
  {
    hide Inv, WriteCommand, CommandEffect, MemoryOn, PortsOn;
    if WriteCommand(w, d, val).Some? {
      CommandWorks(w, d, val);
    } else {
      CommandFails(w, d, val);
    }
  }

  lemma CommandFails(w: World, d: nat, val: bv16)
    requires Inv(w) && DevIn(w, d) && WriteCommand(w, d, val) == None
    ensures var before := w.devs[d].command;
            (!MemoryOn(before) && MemoryOn(val)) || (!PortsOn(before) && PortsOn(val))
  {
    hide Expect, Upto, Decoding, UpdateFrom, NewCommand, Flipped, MemChanged, IoChanged, MemOn, IoOn, MemoryOn, PortsOn;
    var f := w.devs[d];
    var g := f.(command := NewCommand(f.command, val));
    PlainCommand(f);
    PlainCommand(g);
    CommandSwitches(f.command, val);
    ChangedBits(f, g);
    CommandStage(w, d, g);
    if !(!MemOn(f) && MemOn(g)) && !(!IoOn(f) && IoOn(g)) {
      OffAll(w.(devs := w.devs[d := g]), d, 0, f.bars, Flipped(f.command, g.command), MemOn(f), IoOn(f));
    }
  }

  lemma CommandSwitches(before: bv16, val: bv16)
    ensures MemoryOn(NewCommand(before, val)) == MemoryOn(val) && PortsOn(NewCommand(before, val)) == PortsOn(val)
  {
  }

  /** Turning decode bits off finds every region where it is looked for. */
  lemma OffOne(w: World, d: nat, k: nat, bars: seq<bv32>, changed: bv16, memWas: bool, ioWas: bool)
    requires Stage(w, d, k, bars, memWas, ioWas) && k < BARS
    requires MemChanged(changed) <==> memWas != MemOn(w.devs[d])
    requires IoChanged(changed) <==> ioWas != IoOn(w.devs[d])
    requires (MemOn(w.devs[d]) ==> memWas) && (IoOn(w.devs[d]) ==> ioWas)
    ensures UpdateOne(w, d, k, bars, changed).Some?
  {
    hide Expect, Upto, MemOn, IoOn, MemChanged, IoChanged, AddrOf, Port, Mapped, Well, Sealed, Spells;
    ExpectAt(w, Upto(w, d, k, memWas, ioWas), d, k);
    InUpto(w, d, k, memWas, ioWas, d, k);
    SnapshotAddr(w.devs[d], bars, k);
  }

  lemma {:induction false} OffAll(w: World, d: nat, k: nat, bars: seq<bv32>, changed: bv16, memWas: bool, ioWas: bool)
    requires Stage(w, d, k, bars, memWas, ioWas) && k <= BARS
    requires MemChanged(changed) <==> memWas != MemOn(w.devs[d])
    requires IoChanged(changed) <==> ioWas != IoOn(w.devs[d])
    requires (MemOn(w.devs[d]) ==> memWas) && (IoOn(w.devs[d]) ==> ioWas)
    ensures UpdateFrom(w, d, k, bars, changed).Some?
    decreases BARS - k
  {
    hide Expect, UpdateOne, Upto, MemChanged, IoChanged, MemOn, IoOn;
    if k < BARS {
      OffOne(w, d, k, bars, changed, memWas, ioWas);
      UpdateOneKeeps(w, d, k, bars, changed, memWas, ioWas);
      var u := UpdateOne(w, d, k, bars, changed).value;
      SameOn(w.devs[d], u.devs[d]);
      OffAll(u, d, k + 1, bars, changed, memWas, ioWas);
    }
  }

  lemma CommandWorks(w: World, d: nat, val: bv16)
    requires Inv(w) && DevIn(w, d) && WriteCommand(w, d, val).Some?
    ensures CommandEffect(w, d, val, WriteCommand(w, d, val).value)
  {
    hide Expect, Upto, Decoding, UpdateFrom, NewCommand, Flipped, MemChanged, IoChanged, MemOn, IoOn, MemoryOn, PortsOn,
         CommandTaken, OthersKept, Turned, InPlace;
    var f := w.devs[d];
    var current := NewCommand(f.command, val);
    var changed, g := Flipped(f.command, current), f.(command := current);
    var u, v := w.(devs := w.devs[d := g]), WriteCommand(w, d, val).value;
    NewCommandBits(f.command, val);
    PlainCommand(f);
    PlainCommand(g);
    ChangedBits(f, g);
    OthersRegs(w, u, d);
    CommandStage(w, d, g);
    WriteCommandKeeps(w, d, val);
    if MemChanged(changed) || IoChanged(changed) {
      TurnAll(u, d, 0, f.bars, changed, MemOn(f), IoOn(f));
      OthersThen(w, u, v, d);
      TurnedCommand(g, v.devs[d], !IoOn(f) && IoOn(g));
      assert u.devs[d := v.devs[d]] == w.devs[d := v.devs[d]];
    } else {
      TurnedNone(g, !IoOn(f) && IoOn(g));
      assert v.devs == w.devs[d := v.devs[d]];
    }
    forall i | 0 <= i < BARS ensures InPlace(v, d, i) {
      InvInPlace(v, d, i);
    }
  }

  lemma OthersRegs(w: World, u: World, d: nat)
    requires u.mem == w.mem && u.io == w.io
    ensures OthersKept(w, u, d)
  {
  }

  lemma TurnedCommand(f: Function, g: Function, starts: bool)
    requires Shaped(f) && Turned(f, g, 0, starts)
    ensures g.command == f.command && Turned(f.(command := g.command), g, 0, starts) && Shaped(g)
  {
    hide Cut;
    assert f.(command := g.command) == f;
  }

  lemma TurnedNone(f: Function, starts: bool)
    requires Shaped(f) && !starts
    ensures Turned(f.(command := f.command), f, 0, starts)
  {
    hide Cut;
  }

  lemma CommandStage(w: World, d: nat, g: Function)
    requires Inv(w) && DevIn(w, d) && g == w.devs[d].(command := g.command)
    ensures Stage(w.(devs := w.devs[d := g]), d, 0, w.devs[d].bars, MemOn(w.devs[d]), IoOn(w.devs[d]))
  {
    hide Expect, Upto, Decoding, Outside, MemOn, IoOn;
    assert SameOutside(w.devs[d], g);
    Change(w, Decoding(w), d, g);
    NoneUpdated(w, d, g);
  }

  lemma InvInPlace(v: World, d: nat, i: nat)
    requires Inv(v) && DevIn(v, d) && i < BARS
    ensures InPlace(v, d, i)
  {
    hide Expect, AddrOf, Address, Port, PortIn, MemOn, IoOn, MemoryOn, PortsOn, Spells, Well, Sealed;
    ExpectAt(v, Decoding(v), d, i);
    InDecoding(v, d, i);
    PlainBits(v.devs[d], i);
  }
}
