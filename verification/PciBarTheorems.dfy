/**
 In every error-free run a BAR's region is mapped exactly while its decode bit is set, at exactly
 the address its registers spell, and the bits outside a BAR's mask never change.
 */
module PciBarTheorems {
  import opened PciBars

  // -------------------------------------------------------------------------------- bits

  /** The bits a write cannot change. */
  function Outside(bar: bv32, mask: bv32): bv32 {
    bar & !mask
  }

  /** No bit of `v` is outside `mask`. */
  predicate Covered(v: bv32, mask: bv32) {
    v & !mask == 0
  }

  /** A memory register: at least 4 KiB, and outside the mask nothing but the type bits. */
  predicate MemBits(bar: bv32, mask: bv32) {
    mask & 0xFFF == 0 && bar & BAR_IO == 0 && bar & !mask & !BAR_MEM_MASK == 0
  }

  /** An I/O register. */
  predicate IoBits(bar: bv32, mask: bv32) {
    mask & 0x3 == 0 && bar & !mask == BAR_IO
  }

  /** A mask for four bytes: the bit that makes a memory register a 64-bit one is an address bit. */
  predicate Narrow(mask: bv32) {
    mask & BAR_MEM64 != 0
  }

  lemma MaskedOutside(bar: bv32, val: bv32, mask: bv32)
    ensures Outside(MaskBits(bar, val, mask), mask) == Outside(bar, mask)
  {
  }

  lemma SameMem(a: bv32, b: bv32, mask: bv32)
    requires MemBits(a, mask) && Outside(a, mask) == Outside(b, mask)
    ensures MemBits(b, mask) && Is64(a) == Is64(b) && !IsIo(b)
  {
    assert mask & 0x4 == (mask & 0xFFF) & 0x4 && mask & 0x1 == (mask & 0xFFF) & 0x1;
    assert a & 0x4 == (a & !mask) & 0x4 && b & 0x4 == (b & !mask) & 0x4;
    assert a & 0x1 == (a & !mask) & 0x1 && b & 0x1 == (b & !mask) & 0x1;
  }

  lemma SameIo(a: bv32, b: bv32, mask: bv32)
    requires IoBits(a, mask) && Outside(a, mask) == Outside(b, mask)
    ensures IoBits(b, mask) && IsIo(b) && (Is64(b) ==> Narrow(mask))
  {
  }

  lemma SameNone(a: bv32, b: bv32)
    ensures Outside(a, 0) == Outside(b, 0) ==> a == b
  {
  }

  lemma SameHigh(a: bv32, b: bv32, mask: bv32)
    requires Covered(a, mask) && Outside(a, mask) == Outside(b, mask)
    ensures Covered(b, mask)
  {
  }

  /** A register set to an aligned address spells it. */
  lemma Recover(bar: bv32, lo: bv32, mask: bv32)
    requires MemBits(bar, mask) && Covered(lo, mask)
    ensures MemAddr(MaskBits(bar, lo, mask)) == lo
  {
    assert mask & 0xF == (mask & 0xFFF) & 0xF;
  }

  lemma RecoverHigh(bar: bv32, hi: bv32, mask: bv32)
    requires Covered(bar, mask) && Covered(hi, mask)
    ensures MaskBits(bar, hi, mask) == hi
  {
  }

  lemma AddrCovered(bar: bv32, mask: bv32)
    requires MemBits(bar, mask)
    ensures Covered(MemAddr(bar), mask)
  {
  }

  /** A register set to a port, cut to 16 bits, spells it. */
  lemma RecoverPort(bar: bv32, val: bv32, mask: bv32)
    requires IoBits(bar, mask) && Outside(bar, mask) == Outside(val, mask)
    ensures var port := Port(val);
            && MaskBits(bar, port.number as bv32, mask) & !BAR_IO_MASK == port.number as bv32
            && Port(MaskBits(bar, port.number as bv32, mask)) == port
  {
    SpelledPort(bar, val, mask);
    NumberPort(MaskBits(bar, Port(val).number as bv32, mask), Port(val));
  }

  lemma SpelledPort(bar: bv32, val: bv32, mask: bv32)
    requires IoBits(bar, mask) && Outside(bar, mask) == Outside(val, mask)
    ensures MaskBits(bar, Port(val).number as bv32, mask) & !BAR_IO_MASK == Port(val).number as bv32
  {
  }

  lemma NumberPort(bar: bv32, port: IoPort)
    requires bar & !BAR_IO_MASK == port.number as bv32
    ensures Port(bar) == port
  {
    CutBack(port.number);
  }

  lemma CutBack(n: bv16)
    ensures ((n as bv32) & 0xFFFF) as bv16 == n
  {
    WideLow(n);
  }

  lemma WideLow(n: bv16)
    ensures (n as bv32) & 0xFFFF == n as bv32
  {
  }

  // ------------------------------------------------------------------------- registers

  ghost predicate MemWell(f: Function, i: nat)
    requires Shaped(f) && i < BARS
  {
    && MemBits(f.bars[i], f.masks[i])
    && (Is64(f.bars[i]) ==> i + 1 < BARS && f.kinds[i + 1].Empty? && Covered(f.bars[i + 1], f.masks[i + 1]))
  }

  /** An empty register is zero, or the upper half of the one before it. */
  ghost predicate EmptyWell(f: Function, i: nat)
    requires Shaped(f) && i < BARS
  {
    (f.masks[i] == 0 && f.bars[i] == 0) || (i > 0 && f.kinds[i - 1].MemBar? && Is64(f.bars[i - 1]))
  }

  ghost predicate Well(f: Function, i: nat)
    requires Shaped(f) && i < BARS
  {
    match f.kinds[i]
    case Empty => EmptyWell(f, i)
    case MemBar => MemWell(f, i)
    case IoBar => IoBits(f.bars[i], f.masks[i])
  }

  /** Registers as headers are made. */
  ghost predicate Formed(f: Function) {
    Shaped(f) && forall i :: 0 <= i < BARS ==> Well(f, i)
  }

  /** A four-byte I/O register before a register that holds address bits. */
  predicate Exposed(f: Function, i: nat)
    requires Shaped(f) && i < BARS
  {
    f.kinds[i].IoBar? && Narrow(f.masks[i]) && i + 1 < BARS && f.masks[i + 1] != 0
  }

  predicate Sealed(f: Function)
    requires Shaped(f)
  {
    forall i :: 0 <= i < BARS ==> !Exposed(f, i)
  }

  ghost predicate WellBuilt(f: Function) {
    Formed(f) && Sealed(f)
  }

  /** Registers of one function before and after: the same up to masked bits. */
  ghost predicate SameOutside(f: Function, g: Function) {
    && Shaped(f) && Shaped(g) && g.kinds == f.kinds && g.masks == f.masks
    && forall i :: 0 <= i < BARS ==> Outside(g.bars[i], g.masks[i]) == Outside(f.bars[i], f.masks[i])
  }

  lemma WellStays(f: Function, g: Function)
    requires WellBuilt(f) && SameOutside(f, g)
    ensures WellBuilt(g)
    ensures forall i :: 0 <= i < BARS && f.kinds[i].MemBar? ==> Is64(g.bars[i]) == Is64(f.bars[i])
  {
    hide Well, Narrow, Is64, Outside;
    FormedStays(f, g);
    forall i | 0 <= i < BARS ensures !Exposed(g, i) {
      assert !Exposed(f, i);
    }
  }

  lemma {:induction false} FormedStays(f: Function, g: Function)
    requires Formed(f) && SameOutside(f, g)
    ensures Formed(g)
    ensures forall i :: 0 <= i < BARS && f.kinds[i].MemBar? ==> Is64(g.bars[i]) == Is64(f.bars[i])
  {
    hide Outside, Covered, MemBits, IoBits, Is64, IsIo, Narrow;
    forall i | 0 <= i < BARS && f.kinds[i].MemBar? ensures Is64(g.bars[i]) == Is64(f.bars[i]) {
      assert Well(f, i);
      SameMem(f.bars[i], g.bars[i], f.masks[i]);
    }
    forall i | 0 <= i < BARS ensures Well(g, i) {
      assert Well(f, i);
      WellKept(f, g, i);
    }
  }

  lemma WellKept(f: Function, g: Function, i: nat)
    requires Shaped(f) && Shaped(g) && g.kinds == f.kinds && g.masks == f.masks && i < BARS && Well(f, i)
    requires Outside(g.bars[i], f.masks[i]) == Outside(f.bars[i], f.masks[i])
    requires i + 1 < BARS ==> Outside(g.bars[i + 1], f.masks[i + 1]) == Outside(f.bars[i + 1], f.masks[i + 1])
    requires i > 0 && f.kinds[i - 1].MemBar? ==> Is64(g.bars[i - 1]) == Is64(f.bars[i - 1])
    ensures Well(g, i)
  {
    hide Outside, Covered, MemBits, IoBits, Is64, IsIo, Narrow;
    match f.kinds[i]
    case Empty =>
      SameNone(f.bars[i], g.bars[i]);
    case MemBar =>
      SameMem(f.bars[i], g.bars[i], f.masks[i]);
      if Is64(f.bars[i]) {
        SameHigh(f.bars[i + 1], g.bars[i + 1], f.masks[i + 1]);
      }
    case IoBar =>
      SameIo(f.bars[i], g.bars[i], f.masks[i]);
  }

  /** An address that register `i` can spell: aligned to the size of the BAR. */
  ghost predicate Spellable(f: Function, i: nat, a: Addr)
    requires Shaped(f) && i < BARS
  {
    Covered(a.lo, f.masks[i]) && (if Is64(f.bars[i]) && i + 1 < BARS then Covered(a.hi, f.masks[i + 1]) else a.hi == 0)
  }

  /** An address aligned to the size of the BAR is what the registers spell once the region is there. */
  lemma SpellsMapped(f: Function, i: nat, a: Addr)
    requires WellBuilt(f) && i < BARS && f.kinds[i].MemBar? && Spellable(f, i, a)
    ensures AddrOf(Mapped(f, i, a), i) == a
  {
    hide Outside, Covered, MemBits, IoBits, Is64, IsIo, MaskBits, MemAddr;
    assert Well(f, i);
    MaskedOutside(f.bars[i], a.lo, f.masks[i]);
    SameMem(f.bars[i], MaskBits(f.bars[i], a.lo, f.masks[i]), f.masks[i]);
    Recover(f.bars[i], a.lo, f.masks[i]);
    if Is64(f.bars[i]) {
      RecoverHigh(f.bars[i + 1], a.hi, f.masks[i + 1]);
    }
  }

  /** The address that registers spell is aligned to the size of the BAR. */
  lemma SpelledAligned(f: Function, i: nat)
    requires WellBuilt(f) && i < BARS && f.kinds[i].MemBar?
    ensures Spellable(f, i, AddrOf(f, i))
  {
    hide Outside, Covered, MemBits, IoBits, Is64, IsIo, MaskBits, MemAddr;
    assert Well(f, i);
    AddrCovered(f.bars[i], f.masks[i]);
  }

  lemma SetOutside(f: Function, i: nat, val: bv32)
    requires Shaped(f) && i < BARS
    ensures SameOutside(f, SetBar(f, i, val))
  {
    hide Outside, MaskBits;
    MaskedOutside(f.bars[i], val, f.masks[i]);
  }

  lemma MappedOutside(f: Function, i: nat, a: Addr)
    requires Shaped(f) && i < BARS
    ensures SameOutside(f, Mapped(f, i, a)) && Mapped(f, i, a).command == f.command
  {
    hide Outside, MaskBits, Is64;
    SetOutside(f, i, a.lo);
    if Is64(f.bars[i]) && i + 1 < BARS {
      SetOutside(SetBar(f, i, a.lo), i + 1, a.hi);
    }
  }

  /** The callback of one region leaves the other registers of the function alone. */
  lemma OthersStay(f: Function, i: nat, a: Addr, j: nat)
    requires WellBuilt(f) && i < BARS && j < BARS && j != i && !f.kinds[i].Empty? && !f.kinds[j].Empty?
    ensures Mapped(f, i, a).bars[j] == f.bars[j]
    ensures f.kinds[j].MemBar? ==> AddrOf(Mapped(f, i, a), j) == AddrOf(f, j)
  {
    hide Outside, Covered, MemBits, IoBits, Is64, IsIo, MaskBits, MemAddr, Narrow;
    assert Well(f, i) && Well(f, j);
    if f.kinds[i].IoBar? {
      PortSpares(f, i, a);
    }
  }

  /** A port's callback leaves all other registers alone, also when it takes its register for a 64-bit one. */
  lemma PortSpares(f: Function, i: nat, a: Addr)
    requires WellBuilt(f) && i < BARS && f.kinds[i].IoBar?
    ensures forall j :: 0 <= j < BARS && j != i ==> Mapped(f, i, a).bars[j] == f.bars[j]
    ensures Mapped(f, i, a).bars[i] == MaskBits(f.bars[i], a.lo, f.masks[i])
  {
    hide Outside, Covered, MemBits, IoBits, Is64, IsIo, MaskBits, MemAddr, Narrow;
    assert Well(f, i) && !Exposed(f, i);
    SameIo(f.bars[i], f.bars[i], f.masks[i]);
    if i + 1 < BARS {
      MaskNone(f.bars[i + 1], a.hi);
    }
  }

  lemma MaskNone(bar: bv32, val: bv32)
    ensures MaskBits(bar, val, 0) == bar
  {
  }

  // ------------------------------------------------------------------------- agreement

  ghost predicate MemAgrees(w: World, d: nat, i: nat, on: bool)
    requires DevIn(w, d) && i < BARS
  {
    var at := AddrOf(w.devs[d], i);
    && (on ==> at in w.mem && w.mem[at] == Bar(d, i))
    && (forall a :: a in w.mem && w.mem[a] == Bar(d, i) ==> on && a == at)
  }

  predicate Spells(bar: bv32, port: IoPort) {
    bar & !BAR_IO_MASK == port.number as bv32
  }

  ghost predicate IoAgrees(w: World, d: nat, i: nat, on: bool)
    requires DevIn(w, d) && i < BARS
  {
    var bar := w.devs[d].bars[i];
    && (on ==> Port(bar) in w.io && w.io[Port(bar)] == Bar(d, i) && Spells(bar, Port(bar)))
    && (forall p :: p in w.io && w.io[p] == Bar(d, i) ==> on && p == Port(bar))
  }

  ghost predicate Agrees(w: World, d: nat, i: nat, on: bool)
    requires DevIn(w, d) && i < BARS
  {
    match w.devs[d].kinds[i]
    case Empty => true
    case MemBar => MemAgrees(w, d, i, on)
    case IoBar => IoAgrees(w, d, i, on)
  }

  ghost predicate IsBar(w: World, o: Owner, kind: Kind) {
    o.Bar? ==> DevIn(w, o.dev) && o.index < BARS && w.devs[o.dev].kinds[o.index] == kind
  }

  /** Well-built functions, and regions that belong to BARs of the right kind. */
  ghost predicate Base(w: World) {
    && (forall d :: 0 <= d < |w.devs| ==> WellBuilt(w.devs[d]))
    && (forall a :: a in w.mem ==> IsBar(w, w.mem[a], MemBar))
    && (forall p :: p in w.io ==> IsBar(w, w.io[p], IoBar))
  }

  /** Exactly the BARs of `on` are mapped, each where its registers say. */
  ghost predicate Expect(w: World, on: set<(nat, nat)>) {
    Base(w) && forall d, i :: 0 <= d < |w.devs| && 0 <= i < BARS ==>
        WellBuilt(w.devs[d]) && Agrees(w, d, i, (d, i) in on)
  }

  /** Nothing that register `i` of function `d` depends on has changed. */
  ghost predicate Untouched(w: World, v: World, d: nat, i: nat)
    requires DevIn(w, d) && DevIn(v, d) && i < BARS
  {
    var f, g := w.devs[d], v.devs[d];
    && g.kinds[i] == f.kinds[i]
    && (f.kinds[i].MemBar? ==> AddrOf(g, i) == AddrOf(f, i)) && (f.kinds[i].IoBar? ==> g.bars[i] == f.bars[i])
    && (forall a :: (a in v.mem && v.mem[a] == Bar(d, i)) <==> (a in w.mem && w.mem[a] == Bar(d, i)))
    && (forall p :: (p in v.io && v.io[p] == Bar(d, i)) <==> (p in w.io && w.io[p] == Bar(d, i)))
  }

  lemma StillAgrees(w: World, v: World, d: nat, i: nat, on: bool)
    requires DevIn(w, d) && DevIn(v, d) && i < BARS && Untouched(w, v, d, i) && Agrees(w, d, i, on)
    ensures Agrees(v, d, i, on)
  {
    hide AddrOf, Port, Spells;
  }

  lemma ExpectAt(w: World, on: set<(nat, nat)>, d: nat, i: nat)
    requires Expect(w, on) && d < |w.devs| && i < BARS
    ensures DevIn(w, d) && WellBuilt(w.devs[d]) && Agrees(w, d, i, (d, i) in on)
  {
    assert WellBuilt(w.devs[d]);
  }

  lemma RemoveMem(w: World, on: set<(nat, nat)>, d: nat, i: nat)
    requires Expect(w, on) && DevIn(w, d) && i < BARS && w.devs[d].kinds[i].MemBar? && (d, i) in on
    ensures AddrOf(w.devs[d], i) in w.mem && w.mem[AddrOf(w.devs[d], i)] == Bar(d, i)
    ensures Expect(w.(mem := w.mem - {AddrOf(w.devs[d], i)}), on - {(d, i)})
  {
    hide AddrOf, Port, Spells, Well;
    ExpectAt(w, on, d, i);
    var at := AddrOf(w.devs[d], i);
    var v, off := w.(mem := w.mem - {at}), on - {(d, i)};
    assert Base(v);
    forall e, j | 0 <= e < |v.devs| && 0 <= j < BARS ensures WellBuilt(v.devs[e]) && Agrees(v, e, j, (e, j) in off) {
      ExpectAt(w, on, e, j);
      if (e, j) != (d, i) {
        StillAgrees(w, v, e, j, (e, j) in on);
      }
    }
  }

  lemma RemoveIo(w: World, on: set<(nat, nat)>, d: nat, i: nat)
    requires Expect(w, on) && DevIn(w, d) && i < BARS && w.devs[d].kinds[i].IoBar? && (d, i) in on
    ensures Port(w.devs[d].bars[i]) in w.io && w.io[Port(w.devs[d].bars[i])] == Bar(d, i)
    ensures Expect(w.(io := w.io - {Port(w.devs[d].bars[i])}), on - {(d, i)})
  {
    hide AddrOf, Port, Spells, Well;
    ExpectAt(w, on, d, i);
    var at := Port(w.devs[d].bars[i]);
    var v, off := w.(io := w.io - {at}), on - {(d, i)};
    assert Base(v);
    forall e, j | 0 <= e < |v.devs| && 0 <= j < BARS ensures WellBuilt(v.devs[e]) && Agrees(v, e, j, (e, j) in off) {
      ExpectAt(w, on, e, j);
      if (e, j) != (d, i) {
        StillAgrees(w, v, e, j, (e, j) in on);
      }
    }
  }

  /** Replacing one function by one with the same bits outside its masks keeps everything well built. */
  lemma BaseStays(w: World, d: nat, g: Function)
    requires Base(w) && DevIn(w, d) && SameOutside(w.devs[d], g)
    ensures Base(w.(devs := w.devs[d := g]))
  {
    hide Well;
    assert WellBuilt(w.devs[d]);
    WellStays(w.devs[d], g);
    var v := w.(devs := w.devs[d := g]);
    forall a | a in v.mem ensures IsBar(v, v.mem[a], MemBar) {
      assert IsBar(w, w.mem[a], MemBar);
    }
    forall p | p in v.io ensures IsBar(v, v.io[p], IoBar) {
      assert IsBar(w, w.io[p], IoBar);
    }
  }

  lemma AddMem(w: World, on: set<(nat, nat)>, d: nat, i: nat, a: Addr)
    requires Expect(w, on) && DevIn(w, d) && i < BARS && w.devs[d].kinds[i].MemBar? && (d, i) !in on
    requires a !in w.mem && Spellable(w.devs[d], i, a)
    ensures var v := AddRegion(w, a, Bar(d, i)); v.Some? && Expect(v.value, on + {(d, i)})
  {
    hide AddrOf, Port, Spells, Well, Mapped, Spellable, SameOutside, Overruns;
    ExpectAt(w, on, d, i);
    var f := w.devs[d];
    MemStays(f, i);
    var g := Mapped(f, i, a);
    MappedOutside(f, i, a);
    BaseStays(w, d, g);
    SpellsMapped(f, i, a);
    SameShape(f, g);
    var v, now := AddRegion(w, a, Bar(d, i)).value, on + {(d, i)};
    assert Base(v);
    forall e, j | 0 <= e < |v.devs| && 0 <= j < BARS ensures WellBuilt(v.devs[e]) && Agrees(v, e, j, (e, j) in now) {
      ExpectAt(w, on, e, j);
      if (e, j) != (d, i) {
        if e == d && !f.kinds[j].Empty? {
          OthersStay(f, i, a, j);
        }
        StillAgrees(w, v, e, j, (e, j) in on);
      }
    }
  }

  lemma MemStays(f: Function, i: nat)
    requires WellBuilt(f) && i < BARS && f.kinds[i].MemBar?
    ensures !Overruns(f, i)
  {
    hide Is64, MemBits, Covered;
    assert Well(f, i);
  }

  lemma SameShape(f: Function, g: Function)
    requires SameOutside(f, g)
    ensures Shaped(f) && Shaped(g) && g.kinds == f.kinds && g.masks == f.masks
  {
  }

  /** The port that a register value `val` names, on the bus and in the register. */
  lemma AddIo(w: World, on: set<(nat, nat)>, d: nat, i: nat, val: bv32)
    requires Expect(w, on) && DevIn(w, d) && i < BARS && w.devs[d].kinds[i].IoBar? && (d, i) !in on
    requires AddIoRegion(w, Port(val), Bar(d, i)).Some?
    requires Outside(val, w.devs[d].masks[i]) == Outside(w.devs[d].bars[i], w.devs[d].masks[i])
    ensures Expect(AddIoRegion(w, Port(val), Bar(d, i)).value, on + {(d, i)})
    ensures forall j :: 0 <= j < BARS && j != i ==>
            AddIoRegion(w, Port(val), Bar(d, i)).value.devs[d].bars[j] == w.devs[d].bars[j]
  {
    hide AddrOf, Port, Spells, Outside, MaskBits, Mapped, Well, SameOutside, Sealed, Overruns;
    ExpectAt(w, on, d, i);
    var f := w.devs[d];
    var a := PortAddr(Port(val));
    var g := Mapped(f, i, a);
    MappedOutside(f, i, a);
    BaseStays(w, d, g);
    SameShape(f, g);
    WellAt(f, i);
    PortSpares(f, i, a);
    PortSpelled(f.bars[i], val, f.masks[i]);
    var v, now := AddIoRegion(w, Port(val), Bar(d, i)).value, on + {(d, i)};
    assert Base(v);
    forall e, j | 0 <= e < |v.devs| && 0 <= j < BARS ensures WellBuilt(v.devs[e]) && Agrees(v, e, j, (e, j) in now) {
      ExpectAt(w, on, e, j);
      if (e, j) != (d, i) {
        if e == d && !f.kinds[j].Empty? {
          OthersStay(f, i, a, j);
        }
        StillAgrees(w, v, e, j, (e, j) in on);
      }
    }
  }

  lemma WellAt(f: Function, i: nat)
    requires Formed(f) && i < BARS
    ensures Well(f, i)
  {
  }

  lemma PortSpelled(bar: bv32, val: bv32, mask: bv32)
    requires IoBits(bar, mask) && Outside(val, mask) == Outside(bar, mask)
    ensures var r := MaskBits(bar, Port(val).number as bv32, mask); Port(r) == Port(val) && Spells(r, Port(val))
  {
    RecoverPort(bar, val, mask);
  }

  // ----------------------------------------------------------------- registers alone

  /** Changing registers of one function whose mapped BARs still spell the same. */
  lemma Change(w: World, on: set<(nat, nat)>, d: nat, g: Function)
    requires Expect(w, on) && DevIn(w, d) && SameOutside(w.devs[d], g)
    requires forall j :: 0 <= j < BARS && (d, j) in on ==>
               && (g.kinds[j].MemBar? ==> AddrOf(g, j) == AddrOf(w.devs[d], j))
               && (g.kinds[j].IoBar? ==> g.bars[j] == w.devs[d].bars[j])
    ensures Expect(w.(devs := w.devs[d := g]), on)
  {
    hide AddrOf, Port, Spells, Well, Outside;
    BaseStays(w, d, g);
    var v := w.(devs := w.devs[d := g]);
    forall e, j | 0 <= e < |v.devs| && 0 <= j < BARS ensures WellBuilt(v.devs[e]) && Agrees(v, e, j, (e, j) in on) {
      ExpectAt(w, on, e, j);
    }
  }

  ghost predicate Decodes(f: Function, i: nat)
    requires Shaped(f) && i < BARS
  {
    (f.kinds[i].MemBar? && MemOn(f)) || (f.kinds[i].IoBar? && IoOn(f))
  }

  /** The BARs whose decode bit is set. */
  ghost function Decoding(w: World): set<(nat, nat)> {
    set d, i | 0 <= d < |w.devs| && 0 <= i < BARS && Shaped(w.devs[d]) && Decodes(w.devs[d], i) :: (d, i)
  }

  /** The agreement of registers, memory and ports. */
  ghost predicate Inv(w: World) {
    Expect(w, Decoding(w))
  }

  ghost predicate SameDecode(f: Function, g: Function) {
    Shaped(f) && Shaped(g) && g.kinds == f.kinds && MemOn(g) == MemOn(f) && IoOn(g) == IoOn(f)
  }

  lemma DecodingStays(w: World, v: World)
    requires |v.devs| == |w.devs| && forall d :: 0 <= d < |w.devs| ==> SameDecode(w.devs[d], v.devs[d])
    ensures Decoding(v) == Decoding(w)
  {
    forall d, i | 0 <= d < |w.devs| && 0 <= i < BARS ensures (d, i) in Decoding(v) <==> (d, i) in Decoding(w) {
      assert SameDecode(w.devs[d], v.devs[d]);
    }
  }

  lemma InDecoding(w: World, d: nat, i: nat)
    requires DevIn(w, d) && i < BARS
    ensures (d, i) in Decoding(w) <==> Decodes(w.devs[d], i)
  {
  }

  lemma AllShaped(w: World)
    requires Base(w)
    ensures forall d :: 0 <= d < |w.devs| ==> Shaped(w.devs[d])
  {
    forall d | 0 <= d < |w.devs| ensures Shaped(w.devs[d]) {
      assert WellBuilt(w.devs[d]);
    }
  }

  // ------------------------------------------------------------------------ moving a BAR

  lemma MoveMem(w: World, d: nat, i: nat, src: Addr, dst: Addr)
    requires Inv(w) && DevIn(w, d) && i < BARS && w.devs[d].kinds[i].MemBar? && MemOn(w.devs[d])
    requires !IsIo(src.lo) && Addr(MemAddr(src.lo), src.hi) == AddrOf(w.devs[d], i)
    requires Spellable(w.devs[d], i, Addr(MemAddr(dst.lo), dst.hi)) && MoveBar(w, src, dst).Some?
    ensures Inv(MoveBar(w, src, dst).value)
  {
    hide MemOn, IoOn, AddrOf, MemAddr, Expect, Mapped, Spellable, SameOutside, IsIo;
    var on, at, a := Decoding(w), AddrOf(w.devs[d], i), Addr(MemAddr(dst.lo), dst.hi);
    InDecoding(w, d, i);
    RemoveMem(w, on, d, i);
    var u := w.(mem := w.mem - {at});
    AddMem(u, on - {(d, i)}, d, i, a);
    assert on - {(d, i)} + {(d, i)} == on;
    var v := AddRegion(u, a, Bar(d, i)).value;
    MappedDecode(w.devs[d], i, a);
    ShapedIn(w, on);
    DecodingStays(w, v);
  }

  lemma ShapedIn(w: World, on: set<(nat, nat)>)
    requires Expect(w, on)
    ensures forall d :: 0 <= d < |w.devs| ==> Shaped(w.devs[d])
  {
    AllShaped(w);
  }

  lemma MappedDecode(f: Function, i: nat, a: Addr)
    requires Shaped(f) && i < BARS
    ensures SameDecode(f, Mapped(f, i, a))
  {
    MappedOutside(f, i, a);
  }

  lemma MoveIo(w: World, d: nat, i: nat, val: bv32)
    requires Inv(w) && DevIn(w, d) && i < BARS && w.devs[d].kinds[i].IoBar? && IoOn(w.devs[d])
    requires IsIo(w.devs[d].bars[i]) && Outside(val, w.devs[d].masks[i])
             == Outside(w.devs[d].bars[i], w.devs[d].masks[i])
    requires MoveBar(w, Addr(w.devs[d].bars[i], 0), Addr(val, 0)).Some?
    ensures Inv(MoveBar(w, Addr(w.devs[d].bars[i], 0), Addr(val, 0)).value)
  {
    hide MemOn, IoOn, AddrOf, Port, Expect, Mapped, SameOutside, IsIo, Outside;
    var on, at := Decoding(w), Port(w.devs[d].bars[i]);
    InDecoding(w, d, i);
    RemoveIo(w, on, d, i);
    var u := w.(io := w.io - {at});
    AddIo(u, on - {(d, i)}, d, i, val);
    assert on - {(d, i)} + {(d, i)} == on;
    var v := AddIoRegion(u, Port(val), Bar(d, i)).value;
    MappedDecode(w.devs[d], i, PortAddr(Port(val)));
    ShapedIn(w, on);
    DecodingStays(w, v);
  }
}
