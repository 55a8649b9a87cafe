/**
 Which functions keep their regions and registers together in every error-free run: exactly those without
 a four-byte I/O register before a register that holds address bits. For any other function there is a run
 in which moving the port clears the register after it.
 */
module PciExposure {
  import opened Wrappers
  import opened PciBars
  import opened PciBarTheorems
  import opened PciBarRuns
  import opened PciHeader

  // ------------------------------------------------------------------------ distinct places

  /** The top four bits are address bits: at most 256 MiB, or 2^60 bytes where it is an upper half. */
  predicate TopFree(mask: bv32) {
    mask & 0xF000_0000 == 0xF000_0000
  }

  /** At most 4096 ports. */
  predicate PortFree(mask: bv32) {
    mask & 0xF000 == 0xF000
  }

  /** The registers of a function can be given addresses of their own: without this the program may refuse to map them
      all, and no run gets past that. */
  predicate RoomyAt(f: Function, i: nat)
    requires Shaped(f) && i < BARS
  {
    match f.kinds[i]
    case Empty => true
    case MemBar => if Is64(f.bars[i]) && i + 1 < BARS then TopFree(f.masks[i + 1]) else TopFree(f.masks[i])
    case IoBar => PortFree(f.masks[i])
  }

  predicate Roomy(f: Function) {
    Shaped(f) && forall i :: 0 <= i < BARS ==> RoomyAt(f, i)
  }

  predicate Subset(a: bv64, b: bv64) {
    a & !b == 0
  }

  lemma {:induction false} OnesIn(k: nat, n: nat)
    requires k <= n
    ensures Subset(Ones(k), Ones(n))
  {
    hide OneMore, Subset;
    if k == 0 {
      NoneIn(Ones(n));
    } else {
      OnesIn(k - 1, n - 1);
      OneMoreIn(Ones(k - 1), Ones(n - 1));
    }
  }

  lemma NoneIn(b: bv64)
    ensures Subset(0, b)
  {
  }

  lemma OneMoreIn(a: bv64, b: bv64)
    requires Subset(a, b)
    ensures Subset(OneMore(a), OneMore(b))
  {
  }

  lemma SomeOnes()
    ensures Ones(12) == 0xFFF && Ones(28) == 0xFFF_FFFF && Ones(60) == 0xFFF_FFFF_FFFF_FFFF
  {
    assert Ones(8) == 0xFF;
    assert Ones(12) == 0xFFF;
    assert Ones(16) == 0xFFFF;
    assert Ones(20) == 0xF_FFFF;
    assert Ones(24) == 0xFF_FFFF;
    assert Ones(28) == 0xFFF_FFFF;
    assert Ones(32) == 0xFFFF_FFFF;
    assert Ones(36) == 0xF_FFFF_FFFF;
    assert Ones(40) == 0xFF_FFFF_FFFF;
    assert Ones(44) == 0xFFF_FFFF_FFFF;
    assert Ones(48) == 0xFFFF_FFFF_FFFF;
    assert Ones(52) == 0xF_FFFF_FFFF_FFFF;
    assert Ones(56) == 0xFF_FFFF_FFFF_FFFF;
  }

  lemma SmallMasks(ones: bv64)
    ensures Subset(ones, 0xFFF) ==> PortFree(Lo(!ones))
    ensures Subset(ones, 0xFFF_FFFF) ==> TopFree(Lo(!ones))
    ensures Subset(ones, 0xFFF_FFFF_FFFF_FFFF) ==> TopFree(Hi(!ones))
  {
  }

  /** Headers for I/O regions of up to 4 KiB, 32-bit memory regions of up to 256 MiB and 64-bit ones of up to 2^60
      bytes are roomy. */
  lemma NewIsRoomy(kinds: seq<Kind>, sizes: seq<nat>, bars: seq<bv32>, masks: seq<bv32>)
    requires Buildable(kinds, sizes, bars) && |masks| == BARS
    requires forall i :: 0 <= i < BARS ==> masks[i] == MaskFor(kinds, sizes, bars, i)
    requires forall i :: 0 <= i < BARS && kinds[i].MemBar? ==>
             SizeLog(sizes[i], 12) <= if Is64(bars[i]) then 60 else 28
    requires forall i :: 0 <= i < BARS && kinds[i].IoBar? ==> SizeLog(sizes[i], 2) <= 12
    ensures Roomy(Function(kinds, bars, masks, 0))
  {
    hide Ones, Lo, Hi, Is64, TopFree, PortFree, Subset, SizeLog;
    var f := Function(kinds, bars, masks, 0);
    SomeOnes();
    forall i | 0 <= i < BARS ensures RoomyAt(f, i) {
      assert BuildableAt(kinds, sizes, bars, i) && masks[i] == MaskFor(kinds, sizes, bars, i);
      match kinds[i]
      case Empty =>
      case IoBar =>
        OnesIn(SizeLog(sizes[i], 2), 12);
        SmallMasks(Ones(SizeLog(sizes[i], 2)));
      case MemBar =>
        OnesIn(SizeLog(sizes[i], 12), if Is64(bars[i]) then 60 else 28);
        SmallMasks(Ones(SizeLog(sizes[i], 12)));
        if Is64(bars[i]) {
          assert masks[i + 1] == MaskFor(kinds, sizes, bars, i + 1);
        }
    }
  }

  function Tag(i: nat): bv32 {
    if i == 0 then 0x1000_0000
    else if i == 1 then 0x2000_0000
    else if i == 2 then 0x3000_0000
    else if i == 3 then 0x4000_0000
    else if i == 4 then 0x5000_0000
    else 0x6000_0000
  }

  function PortTag(i: nat): bv32 {
    if i == 0 then 0x1000
    else if i == 1 then 0x2000
    else if i == 2 then 0x3000
    else if i == 3 then 0x4000
    else if i == 4 then 0x5000
    else 0x6000
  }

  function Top(v: bv32): bv32 {
    v & 0xF000_0000
  }

  function PortTop(p: IoPort): bv16 {
    p.number & 0xF000
  }

  function Cut(v: bv32): bv16 {
    (v & 0xFFFF) as bv16
  }

  /** What tells the addresses of a function's memory registers apart. */
  function Mark(a: Addr): bv32 {
    if a.hi == 0 then Top(a.lo) else Top(a.hi)
  }

  predicate PortValue(v: bv32, tag: bv32) {
    v == tag || v == tag | BAR_MEM64
  }

  lemma TagsDiffer(i: nat, j: nat)
    requires i < BARS && j < BARS && i != j
    ensures Tag(i) != Tag(j) && Cut(PortTag(i)) != Cut(PortTag(j))
  {
  }

  lemma TagBits(i: nat)
    ensures Tag(i) != 0 && Top(Tag(i)) == Tag(i)
    ensures PortTag(i) & 0xF000 == PortTag(i) && Cut(PortTag(i)) != 0
  {
  }

  // ----------------------------------------------------------------------------------- bits

  lemma LowTag(bar: bv32, tag: bv32, mask: bv32)
    requires MemBits(bar, mask) && TopFree(mask) && Top(tag) == tag
    ensures Top(MemAddr(MaskBits(bar, tag, mask))) == tag
  {
  }

  lemma HighTag(bar: bv32, tag: bv32, mask: bv32)
    requires TopFree(mask) && Top(tag) == tag
    ensures Top(MaskBits(bar, tag, mask)) == tag
  {
  }

  lemma AllOnes(bar: bv32, mask: bv32)
    requires MemBits(bar, mask) && mask != 0
    ensures MemAddr(MaskBits(bar, 0xFFFF_FFFF, mask)) != 0
  {
    assert mask & 0xF == (mask & 0xFFF) & 0xF;
    assert MemAddr(MaskBits(bar, 0xFFFF_FFFF, mask)) == mask;
  }

  lemma ClearedMem(bar: bv32, mask: bv32)
    requires MemBits(bar, mask)
    ensures MemAddr(MaskBits(bar, 0, mask)) == 0
  {
  }

  lemma MaskedTwice(bar: bv32, a: bv32, b: bv32, mask: bv32)
    ensures MaskBits(MaskBits(bar, a, mask), b, mask) == MaskBits(bar, b, mask)
  {
    hide MaskBits, Outside;
    MaskedOutside(bar, a, mask);
    var r := MaskBits(bar, a, mask);
    MaskSplit(r, b, mask);
    MaskSplit(bar, b, mask);
  }

  lemma MaskSplit(bar: bv32, v: bv32, mask: bv32)
    ensures MaskBits(bar, v, mask) == Outside(bar, mask) | (v & mask)
  {
  }

  lemma PortTagged(bar: bv32, v: bv32, tag: bv32, mask: bv32)
    requires IoBits(bar, mask) && PortFree(mask) && tag & 0xF000 == tag && PortValue(v, tag)
    ensures PortTop(Port(MaskBits(bar, v, mask))) == Cut(tag)
  {
  }

  lemma PortKept(bar: bv32, v: bv32, tag: bv32, mask: bv32)
    requires IoBits(bar, mask) && tag & 0xF000 == tag && PortValue(v, tag)
    ensures var r := MaskBits(bar, v, mask); MaskBits(r, Port(r).number as bv32, mask) == r
  {
  }

  lemma PortWide(bar: bv32, tag: bv32, mask: bv32)
    requires IoBits(bar, mask) && tag & 0xF000 == tag
    ensures !Is64(MaskBits(bar, tag, mask))
    ensures Narrow(mask) ==> Is64(MaskBits(bar, tag | BAR_MEM64, mask))
  {
  }

  lemma ClearedPort(bar: bv32, mask: bv32)
    requires IoBits(bar, mask)
    ensures PortTop(Port(MaskBits(bar, 0, mask))) == 0 && !Is64(MaskBits(bar, 0, mask))
  {
  }

  // ---------------------------------------------------------------- the registers, aimed

  predicate Upper(f: Function, j: nat)
    requires Shaped(f) && j < BARS
  {
    j > 0 && f.kinds[j - 1].MemBar? && Is64(f.bars[j - 1])
  }

  /** What the guest writes to register `j`; register `i` gets a port with bit 2 set. */
  function Value(f: Function, i: nat, j: nat): bv32
    requires Shaped(f) && j < BARS
  {
    match f.kinds[j]
    case Empty => if Upper(f, j) then Tag(j - 1) else 0
    case MemBar => if Is64(f.bars[j]) then 0xFFFF_FFFF else Tag(j)
    case IoBar => if j == i then PortTag(j) | BAR_MEM64 else PortTag(j)
  }

  /** The function after the first `k` of these writes. */
  function Aimed(f: Function, i: nat, k: nat): (g: Function)
    requires Shaped(f)
    ensures Shaped(g)
  {
    f.(bars := seq(BARS, j requires 0 <= j < BARS =>
                           if j < k then MaskBits(f.bars[j], Value(f, i, j), f.masks[j]) else f.bars[j]))
  }

  lemma AimedSame(f: Function, i: nat)
    requires Formed(f)
    ensures SameOutside(f, Aimed(f, i, BARS)) && Formed(Aimed(f, i, BARS))
    ensures forall j :: 0 <= j < BARS && f.kinds[j].MemBar? ==> Is64(Aimed(f, i, BARS).bars[j]) == Is64(f.bars[j])
  {
    hide Outside, MaskBits, Value, Well, Is64;
    forall j | 0 <= j < BARS
      ensures Outside(MaskBits(f.bars[j], Value(f, i, j), f.masks[j]), f.masks[j]) == Outside(f.bars[j], f.masks[j])
    {
      MaskedOutside(f.bars[j], Value(f, i, j), f.masks[j]);
    }
    FormedStays(f, Aimed(f, i, BARS));
  }

  ghost predicate MemSpread(g: Function, j: nat)
    requires Shaped(g) && j < BARS
  {
    Mark(AddrOf(g, j)) == Tag(j)
  }

  ghost predicate PortSpread(g: Function, i: nat, j: nat)
    requires Shaped(g) && j < BARS
  {
    var bar := g.bars[j];
    && PortTop(Port(bar)) == Cut(PortTag(j)) && MaskBits(bar, Port(bar).number as bv32, g.masks[j]) == bar
    && (Is64(bar) <==> j == i)
  }

  /** Registers with places of their own, and bit 2 set in the port of the exposed register `i` alone, or in no port if
      there is no register `i`. */
  ghost predicate Spread(g: Function, i: nat) {
    && Formed(g)
    && (forall j :: 0 <= j < BARS && g.kinds[j].MemBar? ==> MemSpread(g, j))
    && (forall j :: 0 <= j < BARS && g.kinds[j].IoBar? ==> PortSpread(g, i, j))
    && (i < BARS ==> Exposed(g, i) && (g.kinds[i + 1].MemBar? ==> MemAddr(g.bars[i + 1]) != 0))
  }

  lemma AimedMem(f: Function, i: nat, j: nat)
    requires Formed(f) && Roomy(f) && j < BARS && f.kinds[j].MemBar?
    ensures MemSpread(Aimed(f, i, BARS), j)
    ensures f.masks[j] != 0 ==> MemAddr(Aimed(f, i, BARS).bars[j]) != 0
  {
    AimedSame(f, i);
    hide Outside, MaskBits, MemBits, Covered, Is64, TopFree, MemAddr, Tag, Top, SameOutside;
    assert Well(f, j) && RoomyAt(f, j);
    TagBits(j);
    if Is64(f.bars[j]) {
      assert Value(f, i, j + 1) == Tag(j);
      HighTag(f.bars[j + 1], Tag(j), f.masks[j + 1]);
      TopZero();
      if f.masks[j] != 0 {
        AllOnes(f.bars[j], f.masks[j]);
      }
    } else {
      LowTag(f.bars[j], Tag(j), f.masks[j]);
      TopZero();
    }
  }

  lemma TopZero()
    ensures Top(0) == 0
  {
  }

  lemma AimedPort(f: Function, i: nat, j: nat)
    requires Formed(f) && Roomy(f) && j < BARS && f.kinds[j].IoBar? && (j == i ==> Narrow(f.masks[j]))
    ensures PortSpread(Aimed(f, i, BARS), i, j)
  {
    hide Outside, MaskBits, IoBits, Is64, PortFree, Port, PortTop, PortTag, Cut, Narrow;
    assert Well(f, j) && RoomyAt(f, j);
    TagBits(j);
    var v := Value(f, i, j);
    PortTagged(f.bars[j], v, PortTag(j), f.masks[j]);
    PortKept(f.bars[j], v, PortTag(j), f.masks[j]);
    PortWide(f.bars[j], PortTag(j), f.masks[j]);
  }

  lemma AimedSpreads(f: Function, i: nat)
    requires Formed(f) && Roomy(f) && (i < BARS ==> Exposed(f, i))
    ensures Spread(Aimed(f, i, BARS), i)
  {
    AimedSame(f, i);
    hide Aimed, Roomy, Well, MemSpread, PortSpread, Narrow, MemAddr, Outside;
    var g := Aimed(f, i, BARS);
    forall j | 0 <= j < BARS && g.kinds[j].MemBar? ensures MemSpread(g, j) {
      AimedMem(f, i, j);
    }
    forall j | 0 <= j < BARS && g.kinds[j].IoBar? ensures PortSpread(g, i, j) {
      AimedPort(f, i, j);
    }
    if i < BARS && f.kinds[i + 1].MemBar? {
      AimedMem(f, i, i + 1);
    }
  }

  /** A register after an exposed port is a BAR of its own. */
  lemma NextIsBar(g: Function, i: nat)
    requires Formed(g) && i < BARS && Exposed(g, i)
    ensures !g.kinds[i + 1].Empty?
  {
    hide MemBits, IoBits, Covered, Is64, Narrow;
    assert Well(g, i + 1);
  }

  // ---------------------------------------------------------------- both decode bits on

  function Wiped(g: Function, j: nat): (h: Function)
    requires Shaped(g) && j < BARS
    ensures Shaped(h)
  {
    SetBar(g, j, 0)
  }

  /** The registers when those below `k` have been mapped: after register `i` the next one is wiped, until its turn. */
  function Mid(g: Function, i: nat, k: nat): (h: Function)
    requires Shaped(g)
    ensures Shaped(h)
  {
    if k == i + 1 && k < BARS then Wiped(g, k) else g
  }

  function Mems(g: Function, d: nat, k: nat): map<Addr, Owner>
    requires Shaped(g) && k <= BARS
  {
    if k == 0 then map[]
    else if g.kinds[k - 1].MemBar? then Mems(g, d, k - 1)[AddrOf(g, k - 1) := Bar(d, k - 1)]
    else Mems(g, d, k - 1)
  }

  function Ports(g: Function, d: nat, k: nat): map<IoPort, Owner>
    requires Shaped(g) && k <= BARS
  {
    if k == 0 then map[]
    else if g.kinds[k - 1].IoBar? then Ports(g, d, k - 1)[Port(g.bars[k - 1]) := Bar(d, k - 1)]
    else Ports(g, d, k - 1)
  }

  lemma {:induction false} MemsAt(g: Function, d: nat, k: nat, a: Addr)
    requires Shaped(g) && k <= BARS && forall j :: 0 <= j < BARS && g.kinds[j].MemBar? ==> MemSpread(g, j)
    ensures a in Mems(g, d, k) ==>
              exists j: nat :: j < k && g.kinds[j].MemBar? && a == AddrOf(g, j) && Mems(g, d, k)[a] == Bar(d, j)
    ensures forall j :: 0 <= j < k && g.kinds[j].MemBar? && a == AddrOf(g, j) ==>
              a in Mems(g, d, k) && Mems(g, d, k)[a] == Bar(d, j)
    decreases k
  {
    hide AddrOf, Mark, Tag;
    if k > 0 {
      MemsAt(g, d, k - 1, a);
      forall j | 0 <= j < k - 1 && g.kinds[j].MemBar? && g.kinds[k - 1].MemBar?
        ensures AddrOf(g, j) != AddrOf(g, k - 1)
      {
        assert MemSpread(g, j) && MemSpread(g, k - 1);
        TagsDiffer(j, k - 1);
      }
    }
  }

  lemma {:induction false} PortsAt(g: Function, d: nat, i: nat, k: nat, p: IoPort)
    requires Shaped(g) && k <= BARS && forall j :: 0 <= j < BARS && g.kinds[j].IoBar? ==> PortSpread(g, i, j)
    ensures p in Ports(g, d, k) ==>
              exists j: nat :: j < k && g.kinds[j].IoBar? && p == Port(g.bars[j]) && Ports(g, d, k)[p] == Bar(d, j)
    ensures forall j :: 0 <= j < k && g.kinds[j].IoBar? && p == Port(g.bars[j]) ==>
              p in Ports(g, d, k) && Ports(g, d, k)[p] == Bar(d, j)
    decreases k
  {
    hide Port, PortTop, PortTag, Cut, Is64, MaskBits;
    if k > 0 {
      PortsAt(g, d, i, k - 1, p);
      forall j | 0 <= j < k - 1 && g.kinds[j].IoBar? && g.kinds[k - 1].IoBar?
        ensures Port(g.bars[j]) != Port(g.bars[k - 1])
      {
        assert PortSpread(g, i, j) && PortSpread(g, i, k - 1);
        TagsDiffer(j, k - 1);
      }
    }
  }

  /** Function `d` half-way through the write that turns both decode bits on. */
  function Half(devs: seq<Function>, d: nat, g: Function, i: nat, k: nat): World
    requires d < |devs| && Shaped(g) && k <= BARS
  {
    World(devs[d := Mid(g, i, k)], Mems(g, d, k), Ports(g, d, k))
  }

  lemma WipedBack(g: Function, j: nat, v: bv32)
    requires Shaped(g) && j < BARS
    ensures SetBar(Wiped(g, j), j, v) == SetBar(g, j, v)
  {
    hide MaskBits;
    MaskedTwice(g.bars[j], 0, v, g.masks[j]);
    assert SetBar(Wiped(g, j), j, v).bars == SetBar(g, j, v).bars;
  }

  /** Mapping a memory register at its address puts back what was wiped. */
  lemma MemTurn(g: Function, i: nat, k: nat)
    requires Spread(g, i) && k < BARS && g.kinds[k].MemBar?
    ensures !Overruns(Mid(g, i, k), k) && Mapped(Mid(g, i, k), k, AddrOf(g, k)) == g
  {
    hide MaskBits, MemBits, IoBits, Covered, Is64, MemAddr, MemSpread, PortSpread, Outside, Narrow;
    assert Well(g, k);
    var h, a := Mid(g, i, k), AddrOf(g, k);
    if k == i + 1 {
      MaskedOutside(g.bars[k], 0, g.masks[k]);
      SameMem(g.bars[k], h.bars[k], g.masks[k]);
      WipedBack(g, k, a.lo);
    }
    RefreshLow(g.bars[k], g.masks[k]);
    assert SetBar(h, k, a.lo).bars == g.bars;
    if Is64(g.bars[k]) {
      RecoverHigh(g.bars[k + 1], g.bars[k + 1], g.masks[k + 1]);
      assert SetBar(g, k + 1, a.hi).bars == g.bars;
    }
  }

  /** Mapping a port at its number puts back what was wiped; that of register `i` wipes the next register. */
  lemma PortTurn(g: Function, i: nat, k: nat)
    requires Spread(g, i) && k < BARS && g.kinds[k].IoBar?
    ensures !Overruns(Mid(g, i, k), k)
    ensures Mapped(Mid(g, i, k), k, PortAddr(Port(g.bars[k]))) == Mid(g, i, k + 1)
  {
    hide MaskBits, MemBits, IoBits, Covered, Is64, MemAddr, MemSpread, Port, Narrow, Cut, PortTop, PortTag, Outside;
    assert Well(g, k) && PortSpread(g, i, k);
    var h, a := Mid(g, i, k), PortAddr(Port(g.bars[k]));
    if k == i + 1 {
      WipedBack(g, k, a.lo);
      ClearedPort(g.bars[k], g.masks[k]);
    }
    assert SetBar(h, k, a.lo).bars == g.bars;
  }

  lemma HalfTurn(devs: seq<Function>, d: nat, g: Function, i: nat, k: nat)
    requires d < |devs| && Spread(g, i) && MemOn(g) && IoOn(g) && k < BARS
    ensures DevIn(Half(devs, d, g, i, k), d)
    ensures UpdateOne(Half(devs, d, g, i, k), d, k, g.bars, 3) == Some(Half(devs, d, g, i, k + 1))
  {
    if i < BARS { NextIsBar(g, i); }
    hide AddrOf, Port, MemOn, IoOn, MemSpread, PortSpread, Well, Wiped, MemAddr, Mapped, Narrow, PortAddr;
    var w, v := Half(devs, d, g, i, k), Half(devs, d, g, i, k + 1);
    assert MemChanged(3) && IoChanged(3);
    match g.kinds[k]
    case Empty =>
      assert v == w;
    case MemBar =>
      MemTurn(g, i, k);
      NoneYet(g, d, k);
      Same(w.devs[d], g, k);
      assert w.devs[d := g] == v.devs;
    case IoBar =>
      PortTurn(g, i, k);
      NoPortYet(g, d, i, k);
      assert w.devs[d := Mid(g, i, k + 1)] == v.devs;
  }

  lemma Same(h: Function, g: Function, k: nat)
    requires Shaped(h) && Shaped(g) && k < BARS
    ensures AddrOf(h.(bars := g.bars), k) == AddrOf(g, k)
  {
  }

  lemma NoneYet(g: Function, d: nat, k: nat)
    requires Shaped(g) && k < BARS && forall j :: 0 <= j < BARS && g.kinds[j].MemBar? ==> MemSpread(g, j)
    requires g.kinds[k].MemBar?
    ensures AddrOf(g, k) !in Mems(g, d, k)
  {
    hide AddrOf, Mark, Tag, Mems;
    MemsAt(g, d, k, AddrOf(g, k));
    forall j | 0 <= j < k && g.kinds[j].MemBar? ensures AddrOf(g, j) != AddrOf(g, k) {
      assert MemSpread(g, j) && MemSpread(g, k);
      TagsDiffer(j, k);
    }
  }

  lemma NoPortYet(g: Function, d: nat, i: nat, k: nat)
    requires Shaped(g) && k < BARS && forall j :: 0 <= j < BARS && g.kinds[j].IoBar? ==> PortSpread(g, i, j)
    requires g.kinds[k].IoBar?
    ensures Port(g.bars[k]) !in Ports(g, d, k)
  {
    hide Port, PortTop, PortTag, Cut, Is64, MaskBits, Ports;
    PortsAt(g, d, i, k, Port(g.bars[k]));
    forall j | 0 <= j < k && g.kinds[j].IoBar? ensures Port(g.bars[j]) != Port(g.bars[k]) {
      assert PortSpread(g, i, j) && PortSpread(g, i, k);
      TagsDiffer(j, k);
    }
  }

  lemma {:induction false} HalfRuns(devs: seq<Function>, d: nat, g: Function, i: nat, k: nat)
    requires d < |devs| && Spread(g, i) && MemOn(g) && IoOn(g) && k <= BARS
    ensures DevIn(Half(devs, d, g, i, k), d)
    ensures UpdateFrom(Half(devs, d, g, i, k), d, k, g.bars, 3) == Some(Half(devs, d, g, i, BARS))
    decreases BARS - k
  {
    hide Half, Spread, UpdateOne, MemOn, IoOn;
    SpreadShaped(g, i);
    HalfIn(devs, d, g, i, k);
    if k < BARS {
      HalfTurn(devs, d, g, i, k);
      HalfRuns(devs, d, g, i, k + 1);
    }
  }

  lemma SpreadShaped(g: Function, i: nat)
    requires Spread(g, i)
    ensures Shaped(g)
  {
  }

  lemma HalfIn(devs: seq<Function>, d: nat, g: Function, i: nat, k: nat)
    requires d < |devs| && Shaped(g) && k <= BARS
    ensures DevIn(Half(devs, d, g, i, k), d)
  {
  }

  /** Both decode bits on: every region of the function is at its place. */
  function Live(devs: seq<Function>, d: nat, g: Function): World
    requires d < |devs| && Shaped(g)
  {
    World(devs[d := g], Mems(g, d, BARS), Ports(g, d, BARS))
  }

  lemma CommandOn(devs: seq<Function>, d: nat, f: Function, i: nat)
    requires d < |devs| && Shaped(f) && f.command == 0 && Spread(f.(command := 3), i)
    ensures WriteCommand(World(devs[d := f], map[], map[]), d, 3) == Some(Live(devs, d, f.(command := 3)))
  {
    var g, w := f.(command := 3), World(devs[d := f], map[], map[]);
    assert NewCommand(0, 3) == 3 && Flipped(0, 3) == 3 && MemChanged(3);
    assert MemOn(g) && IoOn(g);
    hide Spread, UpdateFrom, MemOn, IoOn, NewCommand, Flipped, MemChanged, IoChanged;
    HalfRuns(devs, d, g, i, 0);
    assert w.devs[d := g] == devs[d := g];
    assert Half(devs, d, g, i, 0) == World(devs[d := g], map[], map[]);
  }

  // --------------------------------------------------------------------------- the move

  /** Moving the port of register `i` wipes the next register, whose region stays where it is. */
  lemma MovesAway(devs: seq<Function>, d: nat, g: Function, i: nat)
    requires d < |devs| && i < BARS && Spread(g, i) && Roomy(g) && MemOn(g) && IoOn(g)
    ensures DevIn(Live(devs, d, g), d)
    ensures var r := WriteBar(Live(devs, d, g), d, i, PortTag(i));
            r.Some? && DevIn(r.value, d) && !Follows(r.value, d, i + 1)
  {
    NextIsBar(g, i);
    var w := Live(devs, d, g);
    var before, after := g.bars[i], MaskBits(g.bars[i], PortTag(i), g.masks[i]);
    PortMoves(g, i);
    hide AddrOf, Port, MemOn, IoOn, MemSpread, PortSpread, Well, MemAddr, Mapped, Narrow, PortAddr, MaskBits, Is64,
         IsIo;
    hide PortTag, PortTop, Cut, RoomyAt, Mems, Ports;
    var p, q := Port(before), Port(after);
    PortsAt(g, d, i, BARS, p);
    PortsAt(g, d, i, BARS, q);
    OnlyHere(g, i, i, q);
    var u := w.(io := w.io - {p});
    assert WriteBar(w, d, i, PortTag(i)) == MoveBar(w, Addr(before, 0), Addr(after, 0));
    assert q !in u.io;
    var h := Mapped(g, i, PortAddr(q));
    var v := World(w.devs[d := h], w.mem, u.io[q := Bar(d, i)]);
    assert WriteBar(w, d, i, PortTag(i)) == Some(v);
    WipesNext(g, i, PortAddr(q));
    LeftBehind(g, d, i, h, v);
  }

  lemma PortMoves(g: Function, i: nat)
    requires i < BARS && Spread(g, i) && Roomy(g)
    ensures var after := MaskBits(g.bars[i], PortTag(i), g.masks[i]);
            after != g.bars[i] && PortTop(Port(after)) == Cut(PortTag(i)) && IsIo(g.bars[i])
  {
    hide MaskBits, IoBits, Is64, IsIo, Port, PortTop, Cut, PortTag, MemSpread, Narrow, PortFree, MemAddr, Outside;
    assert Well(g, i) && PortSpread(g, i, i) && RoomyAt(g, i);
    TagBits(i);
    PortWide(g.bars[i], PortTag(i), g.masks[i]);
    PortTagged(g.bars[i], PortTag(i), PortTag(i), g.masks[i]);
    SameIo(g.bars[i], g.bars[i], g.masks[i]);
  }

  /** A port in register `i`'s block is no other register's. */
  lemma OnlyHere(g: Function, s: nat, i: nat, q: IoPort)
    requires i < BARS && Spread(g, s) && PortTop(q) == Cut(PortTag(i))
    ensures forall j :: 0 <= j < BARS && g.kinds[j].IoBar? && Port(g.bars[j]) == q ==> j == i
  {
    hide MaskBits, Is64, Port, PortTop, Cut, PortTag, MemSpread, MemAddr, Well;
    forall j | 0 <= j < BARS && g.kinds[j].IoBar? && Port(g.bars[j]) == q ensures j == i {
      assert PortSpread(g, s, j);
      if j != i {
        TagsDiffer(i, j);
      }
    }
  }

  lemma WipesNext(g: Function, i: nat, a: Addr)
    requires i < BARS && Spread(g, i) && a.hi == 0
    ensures var h := Mapped(g, i, a);
            && Shaped(h) && h.kinds == g.kinds && h.bars[i + 1] == MaskBits(g.bars[i + 1], 0, g.masks[i + 1])
            && h.command == g.command && !Overruns(g, i)
  {
    hide MaskBits, Is64, Port, PortTop, Cut, PortTag, MemSpread, MemAddr, Well, Narrow;
    assert PortSpread(g, i, i);
  }

  lemma LeftBehind(g: Function, d: nat, i: nat, h: Function, v: World)
    requires i < BARS && Spread(g, i) && Shaped(h) && h.kinds == g.kinds && !g.kinds[i + 1].Empty?
    requires h.bars[i + 1] == MaskBits(g.bars[i + 1], 0, g.masks[i + 1])
    requires DevIn(v, d) && v.devs[d] == h && v.mem == Mems(g, d, BARS)
    requires forall p :: p in Ports(g, d, BARS) && Ports(g, d, BARS)[p] == Bar(d, i + 1) ==>
             p in v.io && v.io[p] == Bar(d, i + 1)
    ensures !Follows(v, d, i + 1)
  {
    hide Well, MemSpread, PortSpread, MaskBits, Is64, AddrOf, Port, Narrow, MemAddr, Mems, Ports;
    var j := i + 1;
    if g.kinds[j].MemBar? {
      MemsAt(g, d, BARS, AddrOf(g, j));
      WipedAddr(g, i, h);
    } else {
      PortsAt(g, d, i, BARS, Port(g.bars[j]));
      WipedPort(g, i);
    }
  }

  lemma WipedAddr(g: Function, i: nat, h: Function)
    requires i < BARS && Spread(g, i) && g.kinds[i + 1].MemBar? && Shaped(h)
    requires h.bars[i + 1] == MaskBits(g.bars[i + 1], 0, g.masks[i + 1])
    ensures AddrOf(h, i + 1) != AddrOf(g, i + 1)
  {
    hide MaskBits, MemBits, Is64, MemAddr, MemSpread, PortSpread, Covered, Narrow;
    assert Well(g, i + 1);
    ClearedMem(g.bars[i + 1], g.masks[i + 1]);
  }

  lemma WipedPort(g: Function, i: nat)
    requires i < BARS && Spread(g, i) && g.kinds[i + 1].IoBar?
    ensures Port(MaskBits(g.bars[i + 1], 0, g.masks[i + 1])) != Port(g.bars[i + 1])
  {
    hide MaskBits, IoBits, Is64, Port, PortTop, Cut, PortTag, MemSpread, MemAddr, Narrow;
    assert Well(g, i + 1) && PortSpread(g, i, i + 1);
    ClearedPort(g.bars[i + 1], g.masks[i + 1]);
    TagBits(i + 1);
  }

  // ---------------------------------------------------------------------------- the run

  /** Reset, then the first `k` register writes. */
  function Aim(f: Function, d: nat, i: nat, k: nat): seq<Step>
    requires Shaped(f) && k <= BARS
  {
    if k == 0 then [ResetAll] else Aim(f, d, i, k - 1) + [BarWrite(d, k - 1, Value(f, i, k - 1))]
  }

  lemma {:induction false} AimRuns(w: World, d: nat, i: nat, k: nat)
    requires Shapes(w) && d < |w.devs| && k <= BARS
    ensures var f, devs := w.devs[d].(command := 0), Reset(w).devs;
            |devs| == |w.devs| && Run(w, Aim(f, d, i, k)) == Some(World(devs[d := Aimed(f, i, k)], map[], map[]))
    decreases k
  {
    hide MaskBits, Value, WriteBar;
    var f, devs := w.devs[d].(command := 0), Reset(w).devs;
    if k == 0 {
      assert Run(w, []) == Some(w);
      RunSnoc(w, [], ResetAll);
      assert [] + [ResetAll] == [ResetAll];
      assert Aimed(f, i, 0).bars == f.bars;
      assert devs[d := f] == devs;
    } else {
      AimRuns(w, d, i, k - 1);
      var v := World(devs[d := Aimed(f, i, k - 1)], map[], map[]);
      RunSnoc(w, Aim(f, d, i, k - 1), BarWrite(d, k - 1, Value(f, i, k - 1)));
      AimStep(v, d, f, i, k - 1);
      assert v.devs[d := Aimed(f, i, k)] == devs[d := Aimed(f, i, k)];
    }
  }

  lemma AimStep(v: World, d: nat, f: Function, i: nat, k: nat)
    requires d < |v.devs| && Shaped(f) && f.command == 0 && k < BARS && v.devs[d] == Aimed(f, i, k)
    ensures WriteBar(v, d, k, Value(f, i, k)) == Some(v.(devs := v.devs[d := Aimed(f, i, k + 1)]))
  {
    hide MaskBits, Value, MoveBar;
    var g := Aimed(f, i, k);
    assert !MemOn(g) && !IoOn(g);
    var h := SetBar(g, k, Value(f, i, k));
    assert h.bars == Aimed(f, i, k + 1).bars;
    assert h == Aimed(f, i, k + 1);
    if g.bars[k] == h.bars[k] {
      assert h.bars == g.bars;
      assert v.devs[d := h] == v.devs;
    }
  }

  lemma AimedCommand(f: Function, i: nat)
    requires Formed(f) && Roomy(f) && Spread(Aimed(f, i, BARS), i)
    ensures Spread(Aimed(f, i, BARS).(command := 3), i) && Roomy(Aimed(f, i, BARS).(command := 3))
  {
    AimedSame(f, i);
    hide Aimed, MemSpread, PortSpread, Well, MemAddr, Narrow, Is64, Outside, TopFree, PortFree;
    var a := Aimed(f, i, BARS);
    var g := a.(command := 3);
    forall j | 0 <= j < BARS ensures Well(g, j) && RoomyAt(g, j) {
      assert Well(a, j) && RoomyAt(f, j);
      CommandApart(a, j);
    }
    forall j | 0 <= j < BARS && g.kinds[j].MemBar? ensures MemSpread(g, j) {
      assert MemSpread(a, j);
      CommandApart(a, j);
    }
    forall j | 0 <= j < BARS && g.kinds[j].IoBar? ensures PortSpread(g, i, j) {
      assert PortSpread(a, i, j);
      SpreadApart(a, i, j);
    }
  }

  lemma CommandApart(f: Function, j: nat)
    requires Shaped(f) && j < BARS
    ensures var g := f.(command := 3); (Well(g, j) <==> Well(f, j)) && (MemSpread(g, j) <==> MemSpread(f, j))
  {
    hide MemBits, IoBits, Covered, Is64, Mark, Tag, MemAddr;
  }

  lemma SpreadApart(f: Function, i: nat, j: nat)
    requires Shaped(f) && j < BARS
    ensures PortSpread(f.(command := 3), i, j) <==> PortSpread(f, i, j)
  {
    hide Port, PortTop, PortTag, Cut, Is64, MaskBits;
  }

  /** A run after which register `i + 1` of function `d` no longer says where its region is. */
  lemma ExposedBreaks(w: World, d: nat, i: nat) returns (steps: seq<Step>)
    requires Powered(w) && d < |w.devs| && i < BARS && Exposed(w.devs[d], i) && Roomy(w.devs[d])
    ensures Run(w, steps).Some? && DevIn(Run(w, steps).value, d) && !Follows(Run(w, steps).value, d, i + 1)
  {
    PoweredShapes(w);
    var f, devs := w.devs[d], Reset(w).devs;
    assert f.(command := 0) == f;
    AimedSame(f, i);
    AimedSpreads(f, i);
    AimedCommand(f, i);
    AimRuns(w, d, i, BARS);
    var a := Aimed(f, i, BARS);
    var g := a.(command := 3);
    assert MemOn(g) && IoOn(g);
    hide Powered, Formed, Roomy, Exposed, Spread, Aimed, MemOn, IoOn, WriteCommand, WriteBar, Follows, SameOutside;
    var aim := Aim(f, d, i, BARS);
    CommandOn(devs, d, a, i);
    RunSnoc(w, aim, CommandWrite(d, 3));
    MovesAway(devs, d, g, i);
    RunSnoc(w, aim + [CommandWrite(d, 3)], BarWrite(d, i, PortTag(i)));
    steps := aim + [CommandWrite(d, 3)] + [BarWrite(d, i, PortTag(i))];
  }

  lemma PoweredShapes(w: World)
    requires Powered(w)
    ensures Shapes(w) && forall d :: 0 <= d < |w.devs| ==> Formed(w.devs[d])
  {
    hide Well;
  }

  // ----------------------------------------------------------------------------- exactly

  /** Every BAR of every function follows its registers. */
  ghost predicate AllFollow(v: World) {
    Shapes(v) && forall d, i :: 0 <= d < |v.devs| && 0 <= i < BARS ==> Follows(v, d, i)
  }

  lemma KeepsCount(w: World, steps: seq<Step>)
    requires Shapes(w) && Run(w, steps).Some?
    ensures |Run(w, steps).value.devs| == |w.devs| && Shapes(Run(w, steps).value)
  {
    hide Outside, Run;
    BitsFixed(w, steps);
    KeptShapes(w, Run(w, steps).value);
  }

  lemma AllAgree(w: World, steps: seq<Step>)
    requires Powered(w) && AllSealed(w) && Run(w, steps).Some?
    ensures AllFollow(Run(w, steps).value)
  {
    PoweredShapes(w);
    hide Powered, AllSealed, Follows, Do;
    KeepsCount(w, steps);
    var v := Run(w, steps).value;
    forall d, i | 0 <= d < |v.devs| && 0 <= i < BARS ensures Follows(v, d, i) {
      BarsAgree(w, steps, d, i);
    }
  }

  /** Regions follow registers in every error-free run if and only if no function has a four-byte I/O register before a
      register that holds address bits. */
  lemma BarsAgreeIff(w: World)
    requires Powered(w) && forall d :: 0 <= d < |w.devs| ==> Roomy(w.devs[d])
    ensures (forall steps :: Run(w, steps).Some? ==> AllFollow(Run(w, steps).value)) <==> AllSealed(w)
  {
    PoweredShapes(w);
    hide Powered, Roomy, Formed, Exposed, Follows, Run;
    if AllSealed(w) {
      forall steps | Run(w, steps).Some? ensures AllFollow(Run(w, steps).value) {
        AllAgree(w, steps);
      }
    } else {
      var d :| 0 <= d < |w.devs| && !Sealed(w.devs[d]);
      var i :| 0 <= i < BARS && Exposed(w.devs[d], i);
      var steps := ExposedBreaks(w, d, i);
      ExposedNext(w.devs[d], i);
    }
  }

  lemma ExposedNext(f: Function, i: nat)
    requires Shaped(f) && i < BARS && Exposed(f, i)
    ensures i + 1 < BARS
  {
  }

  // -------------------------------------------------------------------- the last register

  /** A write that moves the port of register `i` gets as far as the callback, which indexes past the registers. */
  ghost predicate MovePanics(r: Option<World>, d: nat, i: nat, val: bv32) {
    && r.Some? && DevIn(r.value, d) && i < BARS
    && var v, f := r.value, r.value.devs[d];
    var before, after := f.bars[i], MaskBits(f.bars[i], val, f.masks[i]);
    && f.kinds[i].IoBar? && IoOn(f) && before != after
    && Port(before) in v.io && v.io[Port(before)] == Bar(d, i) && Port(after) !in v.io - {Port(before)}
    && WouldOverrun(r, d, i)
  }

  /** Any callback of register `i` would index past the registers. */
  ghost predicate WouldOverrun(r: Option<World>, d: nat, i: nat) {
    r.Some? && DevIn(r.value, d) && i < BARS && Overruns(r.value.devs[d], i)
  }

  /** An I/O register that was given a port with bit 2 set. */
  function Widened(bar: bv32, tag: bv32, mask: bv32): bv32 {
    MaskBits(bar, tag | BAR_MEM64, mask)
  }

  /** An I/O register after its callback. */
  function Returned(bar: bv32, p: IoPort, mask: bv32): bv32 {
    MaskBits(bar, p.number as bv32, mask)
  }

  lemma WidenedPort(bar: bv32, tag: bv32, mask: bv32)
    requires IoBits(bar, mask) && PortFree(mask) && Narrow(mask) && tag & 0xF000 == tag
    ensures Is64(Widened(bar, tag, mask)) && PortTop(Port(Widened(bar, tag, mask))) == Cut(tag)
  {
    hide MaskBits, IoBits, Is64, Port, PortTop, Cut, PortFree, Narrow;
    PortWide(bar, tag, mask);
    PortTagged(bar, tag | BAR_MEM64, tag, mask);
  }

  lemma WidenedBack(bar: bv32, tag: bv32, mask: bv32)
    requires IoBits(bar, mask) && tag & 0xF000 == tag
    ensures Returned(bar, Port(Widened(bar, tag, mask)), mask) == Widened(bar, tag, mask)
    ensures MaskBits(Widened(bar, tag, mask), tag, mask) == MaskBits(bar, tag, mask)
  {
    hide MaskBits, IoBits, Port, Returned;
    WidenedKept(bar, tag, mask);
    ReturnedTwice(bar, tag | BAR_MEM64, Port(Widened(bar, tag, mask)), mask);
    MaskedTwice(bar, tag | BAR_MEM64, tag, mask);
  }

  lemma WidenedKept(bar: bv32, tag: bv32, mask: bv32)
    requires IoBits(bar, mask) && tag & 0xF000 == tag
    ensures Returned(Widened(bar, tag, mask), Port(Widened(bar, tag, mask)), mask) == Widened(bar, tag, mask)
  {
    hide MaskBits, IoBits, Port;
    PortKept(bar, tag | BAR_MEM64, tag, mask);
  }

  lemma ReturnedTwice(bar: bv32, a: bv32, p: IoPort, mask: bv32)
    ensures Returned(MaskBits(bar, a, mask), p, mask) == Returned(bar, p, mask)
  {
    hide MaskBits;
    MaskedTwice(bar, a, p.number as bv32, mask);
  }

  /** The port of the last register with bit 2 set, and with it clear again. */
  lemma LastBits(g: Function)
    requires Spread(g, BARS) && Roomy(g) && g.kinds[BARS - 1].IoBar? && Narrow(g.masks[BARS - 1])
    ensures var bar, mask, tag := g.bars[BARS - 1], g.masks[BARS - 1], PortTag(BARS - 1);
            var there, back := Widened(bar, tag, mask), MaskBits(bar, tag, mask);
            && IsIo(bar) && !Is64(bar) && Is64(there) && !Is64(back)
            && PortTop(Port(there)) == Cut(tag) && PortTop(Port(back)) == Cut(tag)
            && Returned(bar, Port(there), mask) == there && MaskBits(there, tag, mask) == back
  {
    hide MaskBits, IoBits, Is64, IsIo, Port, PortTop, Cut, PortTag, MemSpread, Narrow, PortFree, MemAddr, Outside,
         Widened, Returned;
    var i := BARS - 1;
    assert Well(g, i) && PortSpread(g, BARS, i) && RoomyAt(g, i);
    var bar, mask, tag := g.bars[i], g.masks[i], PortTag(i);
    TagBits(i);
    PortWide(bar, tag, mask);
    PortTagged(bar, tag, tag, mask);
    SameIo(bar, bar, mask);
    WidenedPort(bar, tag, mask);
    WidenedBack(bar, tag, mask);
  }

  /** Function `d` with the port of its last register moved. */
  function Shifted(devs: seq<Function>, d: nat, g: Function): World
    requires d < |devs| && Shaped(g)
  {
    var i := BARS - 1;
    var there := Widened(g.bars[i], PortTag(i), g.masks[i]);
    World(devs[d := g.(bars := g.bars[i := there])], Mems(g, d, BARS),
          (Ports(g, d, BARS) - {Port(g.bars[i])})[Port(there) := Bar(d, i)])
  }

  /** The ports around the last register's. */
  lemma LastPort(g: Function, d: nat, q: IoPort)
    requires Spread(g, BARS) && g.kinds[BARS - 1].IoBar? && PortTop(q) == Cut(PortTag(BARS - 1))
    ensures var p := Port(g.bars[BARS - 1]);
            && p in Ports(g, d, BARS) && Ports(g, d, BARS)[p] == Bar(d, BARS - 1) && q !in Ports(g, d, BARS) - {p}
  {
    hide Port, MemSpread, PortSpread, Well, MemAddr, PortTag, PortTop, Cut, Ports;
    PortsAt(g, d, BARS, BARS, Port(g.bars[BARS - 1]));
    PortsAt(g, d, BARS, BARS, q);
    OnlyHere(g, BARS, BARS - 1, q);
  }

  /** The last register is moved to a port with bit 2 set. */
  lemma LastMoves(devs: seq<Function>, d: nat, g: Function, val: bv32)
    requires d < |devs| && Spread(g, BARS) && Roomy(g) && IoOn(g)
    requires g.kinds[BARS - 1].IoBar? && Narrow(g.masks[BARS - 1])
    requires var bar, mask := g.bars[BARS - 1], g.masks[BARS - 1];
             MaskBits(bar, val, mask) == Widened(bar, PortTag(BARS - 1), mask)
    ensures DevIn(Live(devs, d, g), d)
    ensures WriteBar(Live(devs, d, g), d, BARS - 1, val) == Some(Shifted(devs, d, g))
  {
    LastBits(g);
    LastMapped(g);
    hide Port, IoOn, Spread, Roomy, MaskBits, Is64, IsIo, PortTag, PortTop, Cut, Mems, Ports, Widened, PortAddr,
         Mapped, WriteBar, Narrow;
    var i := BARS - 1;
    var w := Live(devs, d, g);
    var there := Widened(g.bars[i], PortTag(i), g.masks[i]);
    LastPort(g, d, Port(there));
    PortWrite(w, d, i, val);
    assert w.devs[d := Mapped(g, i, PortAddr(Port(there)))] == Shifted(devs, d, g).devs;
  }

  /** A write that moves a port to where there is none. */
  lemma PortWrite(w: World, d: nat, i: nat, val: bv32)
    requires DevIn(w, d) && i < BARS && w.devs[d].kinds[i].IoBar? && IoOn(w.devs[d]) && !Overruns(w.devs[d], i)
    requires var f := w.devs[d];
             var before, after := f.bars[i], MaskBits(f.bars[i], val, f.masks[i]);
             && before != after && IsIo(before) && Port(before) in w.io && w.io[Port(before)] == Bar(d, i)
             && Port(after) !in w.io - {Port(before)}
    ensures var f := w.devs[d];
            var p, q := Port(f.bars[i]), Port(MaskBits(f.bars[i], val, f.masks[i]));
            WriteBar(w, d, i, val)
            == Some(World(w.devs[d := Mapped(f, i, PortAddr(q))], w.mem, (w.io - {p})[q := Bar(d, i)]))
  {
    hide Port, IoOn, MaskBits, Is64, IsIo, PortAddr, Mapped;
  }

  lemma WidenedIs(bar: bv32, tag: bv32, mask: bv32)
    ensures Widened(bar, tag, mask) == MaskBits(bar, tag | BAR_MEM64, mask)
  {
  }

  lemma LastMapped(g: Function)
    requires Spread(g, BARS) && Roomy(g) && g.kinds[BARS - 1].IoBar? && Narrow(g.masks[BARS - 1])
    ensures var there := Widened(g.bars[BARS - 1], PortTag(BARS - 1), g.masks[BARS - 1]);
            Mapped(g, BARS - 1, PortAddr(Port(there))) == g.(bars := g.bars[BARS - 1 := there])
  {
    LastBits(g);
    hide Port, MemSpread, PortSpread, Well, Narrow, MaskBits, Is64, IsIo, PortTag, PortTop, Cut, RoomyAt, Widened;
  }

  /** Moving it back panics. */
  lemma LastPanics(devs: seq<Function>, d: nat, g: Function)
    requires d < |devs| && Spread(g, BARS) && Roomy(g) && IoOn(g)
    requires g.kinds[BARS - 1].IoBar? && Narrow(g.masks[BARS - 1])
    ensures MovePanics(Some(Shifted(devs, d, g)), d, BARS - 1, PortTag(BARS - 1))
  {
    var i := BARS - 1;
    LastBits(g);
    var h := Shifted(devs, d, g).devs[d];
    SameIoOn(g, h);
    hide Port, IoOn, MemSpread, PortSpread, Well, Narrow, MaskBits, Is64, IsIo, PortTag, PortTop, Cut, RoomyAt, Mems,
         Ports, Widened;
    LastPort(g, d, Port(MaskBits(g.bars[i], PortTag(i), g.masks[i])));
  }

  lemma SameIoOn(g: Function, h: Function)
    requires h.command == g.command
    ensures IoOn(h) == IoOn(g)
  {
  }

  /** A run up to the write that panics. */
  lemma LastPortRuns(w: World, d: nat) returns (steps: seq<Step>)
    requires Powered(w) && d < |w.devs| && Shaped(w.devs[d]) && Roomy(w.devs[d])
    requires w.devs[d].kinds[BARS - 1].IoBar? && Narrow(w.devs[d].masks[BARS - 1])
    ensures MovePanics(Run(w, steps), d, BARS - 1, PortTag(BARS - 1))
  {
    PoweredShapes(w);
    var f, devs := w.devs[d], Reset(w).devs;
    assert f.(command := 0) == f;
    AimedSpreads(f, BARS);
    AimedCommand(f, BARS);
    AimRuns(w, d, BARS, BARS);
    var a := Aimed(f, BARS, BARS);
    var g := a.(command := 3);
    assert MemOn(g) && IoOn(g) && g.kinds == f.kinds && g.masks == f.masks;
    hide Powered, Formed, Roomy, Spread, Aimed, MemOn, IoOn, WriteCommand, WriteBar, MovePanics, Narrow;
    var aim := Aim(f, d, BARS, BARS);
    CommandOn(devs, d, a, BARS);
    RunSnoc(w, aim, CommandWrite(d, 3));
    var val := PortTag(BARS - 1) | BAR_MEM64;
    WidenedIs(g.bars[BARS - 1], PortTag(BARS - 1), g.masks[BARS - 1]);
    LastMoves(devs, d, g, val);
    LastPanics(devs, d, g);
    var move := BarWrite(d, BARS - 1, val);
    RunSnoc(w, aim + [CommandWrite(d, 3)], move);
    steps := aim + [CommandWrite(d, 3)] + [move];
  }

  /** The last register has no register after it. Some run leads to a write that moves a port and makes the program
      panic if and only if the port is in the last register and of four bytes; and no callback of another port's can
      panic. */
  lemma LastPortPanics(w: World, d: nat, i: nat)
    requires Powered(w) && d < |w.devs| && Shaped(w.devs[d]) && Roomy(w.devs[d])
    requires i < BARS && w.devs[d].kinds[i].IoBar?
    ensures (exists steps, val :: MovePanics(Run(w, steps), d, i, val))
            <==> i == BARS - 1 && Narrow(w.devs[d].masks[i])
    ensures forall steps :: WouldOverrun(Run(w, steps), d, i) ==> i == BARS - 1 && Narrow(w.devs[d].masks[i])
  {
    PoweredShapes(w);
    if i == BARS - 1 && Narrow(w.devs[d].masks[i]) {
      var steps := LastPortRuns(w, d);
    }
    hide Powered, Roomy, Formed, WouldOverrun;
    forall steps | WouldOverrun(Run(w, steps), d, i) ensures i == BARS - 1 && Narrow(w.devs[d].masks[i]) {
      OverrunIsLast(w, steps, d, i);
    }
  }

  lemma OverrunIsLast(w: World, steps: seq<Step>, d: nat, i: nat)
    requires Shapes(w) && d < |w.devs| && Formed(w.devs[d]) && i < BARS && w.devs[d].kinds[i].IoBar?
    requires WouldOverrun(Run(w, steps), d, i)
    ensures i == BARS - 1 && Narrow(w.devs[d].masks[i])
  {
    hide Outside, MaskBits, IoBits, Is64, Narrow, Run;
    var f, g := w.devs[d], Run(w, steps).value.devs[d];
    BitsFixed(w, steps);
    assert SameOutside(f, g);
    assert Well(f, i);
    SameIo(f.bars[i], g.bars[i], f.masks[i]);
  }
}
