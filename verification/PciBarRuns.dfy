/** BAR agreement and fixed bits over every run. */
module PciBarRuns {
  import opened PciBars
  import opened PciBarTheorems

  // --------------------------------------------------------------------- BAR writes

  lemma MemMove(f: Function, i: nat, val: bv32)
    requires WellBuilt(f) && i < BARS && f.kinds[i].MemBar?
    ensures var hi := if Is64(f.bars[i]) && i + 1 < BARS then f.bars[i + 1] else 0;
            var after := MaskBits(f.bars[i], val, f.masks[i]);
            !IsIo(f.bars[i]) && Spellable(f, i, Addr(MemAddr(after), hi))
  {
    hide Outside, Covered, MemBits, IoBits, Is64, IsIo, MaskBits, MemAddr;
    WellAt(f, i);
    var after := MaskBits(f.bars[i], val, f.masks[i]);
    MaskedOutside(f.bars[i], val, f.masks[i]);
    SameMem(f.bars[i], after, f.masks[i]);
    SameMem(f.bars[i], f.bars[i], f.masks[i]);
    AddrCovered(after, f.masks[i]);
  }

  lemma HighMove(f: Function, i: nat, val: bv32)
    requires WellBuilt(f) && 0 < i < BARS && f.kinds[i].Empty? && MaskBits(f.bars[i], val, f.masks[i]) != f.bars[i]
    ensures f.kinds[i - 1].MemBar? && Is64(f.bars[i - 1]) && !IsIo(f.bars[i - 1])
    ensures Spellable(f, i - 1, Addr(MemAddr(f.bars[i - 1]), MaskBits(f.bars[i], val, f.masks[i])))
  {
    hide Outside, Covered, MemBits, IoBits, Is64, IsIo, MaskBits, MemAddr;
    WellAt(f, i);
    MaskNone(f.bars[i], val);
    WellAt(f, i - 1);
    var after := MaskBits(f.bars[i], val, f.masks[i]);
    MaskedOutside(f.bars[i], val, f.masks[i]);
    SameHigh(f.bars[i], after, f.masks[i]);
    SameMem(f.bars[i - 1], f.bars[i - 1], f.masks[i - 1]);
    AddrCovered(f.bars[i - 1], f.masks[i - 1]);
  }

  lemma IoMove(f: Function, i: nat, val: bv32)
    requires WellBuilt(f) && i < BARS && f.kinds[i].IoBar?
    ensures IsIo(f.bars[i])
  {
    hide Outside, IoBits, Is64, IsIo;
    WellAt(f, i);
    SameIo(f.bars[i], f.bars[i], f.masks[i]);
  }

  /** A write that moves nothing: the register belongs to no mapped BAR. */
  lemma QuietWrite(w: World, d: nat, i: nat, val: bv32)
    requires Inv(w) && DevIn(w, d) && i < BARS
    requires MaskBits(w.devs[d].bars[i], val, w.devs[d].masks[i]) != w.devs[d].bars[i]
    requires w.devs[d].kinds[i].MemBar? ==> !MemOn(w.devs[d])
    requires w.devs[d].kinds[i].IoBar? ==> !IoOn(w.devs[d])
    requires w.devs[d].kinds[i].Empty? ==> !(MemOn(w.devs[d]) && i > 0 && Is64(w.devs[d].bars[i - 1]))
    ensures Inv(w.(devs := w.devs[d := SetBar(w.devs[d], i, val)]))
  {
    hide Outside, Covered, MemBits, IoBits, Is64, MaskBits, MemAddr, Expect, MemOn, IoOn, SameOutside, Well;
    var f, on := w.devs[d], Decoding(w);
    var g := SetBar(f, i, val);
    SetOutside(f, i, val);
    SameShape(f, g);
    SetDecode(f, i, val);
    ExpectAt2(w, on, d);
    forall j | 0 <= j < BARS && (d, j) in on
      ensures (g.kinds[j].MemBar? ==> AddrOf(g, j) == AddrOf(f, j)) && (g.kinds[j].IoBar? ==> g.bars[j] == f.bars[j])
    {
      InDecoding(w, d, j);
      if j + 1 == i && f.kinds[j].MemBar? && Is64(f.bars[j]) {
        High64(f, j);
      }
    }
    Change(w, on, d, g);
    ShapedIn(w, on);
    DecodingStays(w, w.(devs := w.devs[d := g]));
  }

  lemma SetDecode(f: Function, i: nat, val: bv32)
    requires Shaped(f) && i < BARS
    ensures SameDecode(f, SetBar(f, i, val))
  {
  }

  lemma High64(f: Function, j: nat)
    requires WellBuilt(f) && j < BARS && f.kinds[j].MemBar? && Is64(f.bars[j])
    ensures j + 1 < BARS && f.kinds[j + 1].Empty?
  {
    hide MemBits, Covered, Is64;
    WellAt(f, j);
  }

  lemma ExpectAt2(w: World, on: set<(nat, nat)>, d: nat)
    requires Expect(w, on) && d < |w.devs|
    ensures WellBuilt(w.devs[d]) && Base(w)
  {
    assert WellBuilt(w.devs[d]);
  }

  lemma WriteBarKeeps(w: World, d: nat, i: nat, val: bv32)
    requires Inv(w) && DevIn(w, d) && i < BARS && WriteBar(w, d, i, val).Some?
    ensures Inv(WriteBar(w, d, i, val).value)
  {
    hide Outside, Covered, MemBits, IoBits, Is64, IsIo, MaskBits, MemAddr, Expect, Well, MemOn, IoOn, Spellable,
         Decoding, MoveBar;
    var f := w.devs[d];
    ExpectAt2(w, Decoding(w), d);
    var before, after := f.bars[i], MaskBits(f.bars[i], val, f.masks[i]);
    if before == after {
    } else if f.kinds[i].IoBar? && IoOn(f) {
      IoMove(f, i, val);
      MaskedOutside(before, val, f.masks[i]);
      MoveIo(w, d, i, after);
    } else if f.kinds[i].MemBar? && MemOn(f) {
      var hi := if Is64(before) && i + 1 < BARS then f.bars[i + 1] else 0;
      MemMove(f, i, val);
      MoveMem(w, d, i, Addr(before, hi), Addr(after, hi));
    } else if f.kinds[i].Empty? && MemOn(f) && i > 0 && Is64(f.bars[i - 1]) {
      HighMove(f, i, val);
      MoveMem(w, d, i - 1, Addr(f.bars[i - 1], before), Addr(f.bars[i - 1], after));
    } else {
      QuietWrite(w, d, i, val);
    }
  }

  // ----------------------------------------------------------------- command writes

  lemma ChangedBits(f: Function, g: Function)
    ensures MemChanged(Flipped(f.command, g.command)) <==> MemOn(f) != MemOn(g)
    ensures IoChanged(Flipped(f.command, g.command)) <==> IoOn(f) != IoOn(g)
  {
    BitChanged(f.command, g.command);
  }

  lemma BitChanged(a: bv16, b: bv16)
    ensures (a ^ b) & COMMAND_MEM == COMMAND_MEM
            <==> (a & COMMAND_MEM == COMMAND_MEM) != (b & COMMAND_MEM == COMMAND_MEM)
    ensures (a ^ b) & COMMAND_IO == COMMAND_IO <==> (a & COMMAND_IO == COMMAND_IO) != (b & COMMAND_IO == COMMAND_IO)
  {
  }

  /** What register `j` of function `e` is to be while function `d` has had its registers below `k` updated. */
  ghost predicate Wanted(w: World, d: nat, k: nat, memWas: bool, ioWas: bool, e: nat, j: nat)
    requires DevIn(w, e) && j < BARS
  {
    var f := w.devs[e];
    match f.kinds[j]
    case Empty => false
    case MemBar => if e == d && j >= k then memWas else MemOn(f)
    case IoBar => if e == d && j >= k then ioWas else IoOn(f)
  }

  ghost function Upto(w: World, d: nat, k: nat, memWas: bool, ioWas: bool): set<(nat, nat)> {
    set e, j | 0 <= e < |w.devs| && 0 <= j < BARS && DevIn(w, e) && Wanted(w, d, k, memWas, ioWas, e, j) :: (e, j)
  }

  /** Half-way through a command update; `bars` are the registers it started from. */
  ghost predicate Stage(w: World, d: nat, k: nat, bars: seq<bv32>, memWas: bool, ioWas: bool) {
    && Expect(w, Upto(w, d, k, memWas, ioWas)) && DevIn(w, d) && |bars| == BARS
    && forall j :: k <= j < BARS ==> w.devs[d].bars[j] == bars[j]
  }

  lemma InUpto(w: World, d: nat, k: nat, memWas: bool, ioWas: bool, e: nat, j: nat)
    requires DevIn(w, e) && j < BARS
    ensures (e, j) in Upto(w, d, k, memWas, ioWas) <==> Wanted(w, d, k, memWas, ioWas, e, j)
  {
  }

  /** The set of BARs wanted after register `k`, when the step only touched registers of `d`. */
  lemma UptoNext(w: World, v: World, d: nat, k: nat, memWas: bool, ioWas: bool)
    requires DevIn(w, d) && k < BARS && |v.devs| == |w.devs|
    requires forall e :: 0 <= e < |w.devs| ==> SameDecode(w.devs[e], v.devs[e])
    ensures Upto(v, d, k + 1, memWas, ioWas)
            == Upto(w, d, k, memWas, ioWas) - {(d, k)} + (if Decodes(w.devs[d], k) then {(d, k)} else {})
  {
    hide MemOn, IoOn;
    var a, b := Upto(v, d, k + 1, memWas, ioWas),
                Upto(w, d, k, memWas, ioWas) - {(d, k)} + (if Decodes(w.devs[d], k) then {(d, k)} else {});
    forall e, j | 0 <= e < |w.devs| && 0 <= j < BARS ensures (e, j) in a <==> (e, j) in b {
      assert SameDecode(w.devs[e], v.devs[e]);
      InUpto(v, d, k + 1, memWas, ioWas, e, j);
      InUpto(w, d, k, memWas, ioWas, e, j);
    }
    assert forall x :: x in a ==> 0 <= x.0 < |w.devs| && 0 <= x.1 < BARS;
  }

  lemma Refresh(f: Function, i: nat)
    requires WellBuilt(f) && i < BARS && f.kinds[i].MemBar?
    ensures Mapped(f, i, AddrOf(f, i)) == f
  {
    hide Outside, Covered, MemBits, IoBits, Is64, IsIo, MaskBits, MemAddr;
    WellAt(f, i);
    RefreshLow(f.bars[i], f.masks[i]);
    if Is64(f.bars[i]) {
      RecoverHigh(f.bars[i + 1], f.bars[i + 1], f.masks[i + 1]);
    }
    assert Mapped(f, i, AddrOf(f, i)).bars == f.bars;
  }

  lemma RefreshLow(bar: bv32, mask: bv32)
    requires MemBits(bar, mask)
    ensures MaskBits(bar, MemAddr(bar), mask) == bar
  {
    assert mask & 0xF == (mask & 0xFFF) & 0xF;
  }

  lemma SameDecodeAll(w: World)
    requires Base(w)
    ensures forall e :: 0 <= e < |w.devs| ==> SameDecode(w.devs[e], w.devs[e])
  {
    AllShaped(w);
  }

  lemma UpdateOneKeeps(w: World, d: nat, k: nat, bars: seq<bv32>, changed: bv16, memWas: bool, ioWas: bool)
    requires Stage(w, d, k, bars, memWas, ioWas) && k < BARS
    requires MemChanged(changed) <==> memWas != MemOn(w.devs[d])
    requires IoChanged(changed) <==> ioWas != IoOn(w.devs[d])
    requires UpdateOne(w, d, k, bars, changed).Some?
    ensures var v := UpdateOne(w, d, k, bars, changed).value;
            Stage(v, d, k + 1, bars, memWas, ioWas) && v.devs[d].command == w.devs[d].command
  {
    hide Expect, MemOn, IoOn, AddrOf, Mapped, Port, Outside, MemBits, IoBits, Upto, Spellable, Well, Is64, MemChanged,
         IoChanged;
    var f, on, v := w.devs[d], Upto(w, d, k, memWas, ioWas), UpdateOne(w, d, k, bars, changed).value;
    ExpectAt2(w, on, d);
    SameDecodeAll(w);
    InUpto(w, d, k, memWas, ioWas, d, k);
    match f.kinds[k]
    case Empty =>
      UptoNext(w, w, d, k, memWas, ioWas);
      assert on - {(d, k)} + {} == on;
    case MemBar =>
      SnapshotAddr(f, bars, k);
      if memWas == MemOn(f) {
        UptoNext(w, w, d, k, memWas, ioWas);
        assert on - {(d, k)} + (if Decodes(f, k) then {(d, k)} else {}) == on;
      } else if MemOn(f) {
        SpelledAligned(f, k);
        AddMem(w, on, d, k, AddrOf(f, k));
        Refresh(f, k);
        assert v.devs == w.devs;
        UptoNext(w, v, d, k, memWas, ioWas);
        assert on - {(d, k)} + {(d, k)} == on + {(d, k)};
      } else {
        RemoveMem(w, on, d, k);
        UptoNext(w, v, d, k, memWas, ioWas);
        assert on - {(d, k)} + {} == on - {(d, k)};
      }
    case IoBar =>
      if ioWas == IoOn(f) {
        UptoNext(w, w, d, k, memWas, ioWas);
        assert on - {(d, k)} + (if Decodes(f, k) then {(d, k)} else {}) == on;
      } else if IoOn(f) {
        AddIo(w, on, d, k, f.bars[k]);
        MappedDecode(f, k, PortAddr(Port(f.bars[k])));
        MappedOutside(f, k, PortAddr(Port(f.bars[k])));
        UptoNext(w, v, d, k, memWas, ioWas);
        assert on - {(d, k)} + {(d, k)} == on + {(d, k)};
      } else {
        RemoveIo(w, on, d, k);
        UptoNext(w, v, d, k, memWas, ioWas);
        assert on - {(d, k)} + {} == on - {(d, k)};
      }
  }

  lemma SnapshotAddr(f: Function, bars: seq<bv32>, k: nat)
    requires Shaped(f) && |bars| == BARS && k < BARS && forall j :: k <= j < BARS ==> f.bars[j] == bars[j]
    ensures AddrOf(f.(bars := bars), k) == AddrOf(f, k)
  {
  }

  lemma {:induction false} UpdateKeeps(w: World, d: nat, k: nat, bars: seq<bv32>, changed: bv16, memWas: bool,
      ioWas: bool)
    requires Stage(w, d, k, bars, memWas, ioWas) && k <= BARS
    requires MemChanged(changed) <==> memWas != MemOn(w.devs[d])
    requires IoChanged(changed) <==> ioWas != IoOn(w.devs[d])
    requires UpdateFrom(w, d, k, bars, changed).Some?
    ensures Inv(UpdateFrom(w, d, k, bars, changed).value)
    decreases BARS - k
  {
    hide Expect, UpdateOne, Upto, Decoding, MemChanged, IoChanged;
    if k == BARS {
      AllUpdated(w, d, memWas, ioWas);
    } else {
      UpdateOneKeeps(w, d, k, bars, changed, memWas, ioWas);
      UpdateKeeps(UpdateOne(w, d, k, bars, changed).value, d, k + 1, bars, changed, memWas, ioWas);
    }
  }

  lemma AllUpdated(w: World, d: nat, memWas: bool, ioWas: bool)
    ensures Upto(w, d, BARS, memWas, ioWas) == Decoding(w)
  {
    hide MemOn, IoOn;
    forall e, j | 0 <= e < |w.devs| && 0 <= j < BARS && Shaped(w.devs[e])
      ensures (e, j) in Upto(w, d, BARS, memWas, ioWas) <==> (e, j) in Decoding(w)
    {
      InUpto(w, d, BARS, memWas, ioWas, e, j);
      InDecoding(w, e, j);
    }
  }

  lemma NoneUpdated(w: World, d: nat, f: Function)
    requires DevIn(w, d) && Shaped(f) && f.kinds == w.devs[d].kinds
    ensures var v := w.(devs := w.devs[d := f]); Upto(v, d, 0, MemOn(w.devs[d]), IoOn(w.devs[d])) == Decoding(w)
  {
    hide MemOn, IoOn;
    var v, mem, io := w.(devs := w.devs[d := f]), MemOn(w.devs[d]), IoOn(w.devs[d]);
    forall e, j | 0 <= e < |w.devs| && 0 <= j < BARS && Shaped(w.devs[e])
      ensures (e, j) in Upto(v, d, 0, mem, io) <==> (e, j) in Decoding(w)
    {
      InUpto(v, d, 0, mem, io, e, j);
      InDecoding(w, e, j);
    }
  }

  lemma WriteCommandKeeps(w: World, d: nat, val: bv16)
    requires Inv(w) && DevIn(w, d) && WriteCommand(w, d, val).Some?
    ensures Inv(WriteCommand(w, d, val).value)
  {
    hide Expect, Upto, Decoding, UpdateFrom, Outside, NewCommand, Flipped, MemChanged, IoChanged, MemOn, IoOn;
    var f := w.devs[d];
    var current := NewCommand(f.command, val);
    var changed, g := Flipped(f.command, current), f.(command := current);
    var v := w.(devs := w.devs[d := g]);
    assert SameOutside(f, g);
    Change(w, Decoding(w), d, g);
    ChangedBits(f, g);
    NoneUpdated(w, d, g);
    if MemChanged(changed) || IoChanged(changed) {
      UpdateKeeps(v, d, 0, f.bars, changed, MemOn(f), IoOn(f));
    } else {
      ShapedIn(w, Decoding(w));
      DecodingStays(w, v);
    }
  }

  // -------------------------------------------------------------------- other steps

  lemma AssignOutside(f: Function, i: nat, a: Addr)
    requires Shaped(f) && i < BARS
    ensures SameOutside(f, Assign(f, i, a)) && Assign(f, i, a).command == f.command
  {
    hide Outside, MaskBits;
    SetOutside(f, i, a.lo);
    if a.hi != 0 && i + 1 < BARS {
      SetOutside(SetBar(f, i, a.lo), i + 1, a.hi);
    }
  }

  lemma AssignKeeps(w: World, d: nat, i: nat, a: Addr)
    requires Inv(w) && DevIn(w, d) && i < BARS && MayAssign(w.devs[d], i, a)
    ensures Inv(w.(devs := w.devs[d := Assign(w.devs[d], i, a)]))
  {
    hide Expect, Assign, SameOutside;
    var f, g := w.devs[d], Assign(w.devs[d], i, a);
    AssignOutside(f, i, a);
    SameShape(f, g);
    forall j | 0 <= j < BARS ensures (d, j) !in Decoding(w) {
      InDecoding(w, d, j);
    }
    Change(w, Decoding(w), d, g);
    ShapedIn(w, Decoding(w));
    DecodingStays(w, w.(devs := w.devs[d := g]));
  }

  lemma ResetKeeps(w: World)
    requires Inv(w)
    ensures Inv(Reset(w))
  {
    hide Well, Outside;
    var v := Reset(w);
    forall d | 0 <= d < |v.devs| ensures WellBuilt(v.devs[d]) {
      ExpectAt2(w, Decoding(w), d);
      assert SameOutside(w.devs[d], v.devs[d]);
      WellStays(w.devs[d], v.devs[d]);
    }
    assert Decoding(v) == {};
  }

  lemma OtherKeeps(w: World, v: World)
    requires Inv(w) && v.devs == w.devs
    requires forall a :: a in v.mem && v.mem[a].Bar? ==> a in w.mem && w.mem[a] == v.mem[a]
    requires forall a :: a in w.mem && w.mem[a].Bar? ==> a in v.mem && w.mem[a] == v.mem[a]
    requires forall p :: p in v.io && v.io[p].Bar? ==> p in w.io && w.io[p] == v.io[p]
    requires forall p :: p in w.io && w.io[p].Bar? ==> p in v.io && w.io[p] == v.io[p]
    ensures Inv(v)
  {
    hide Well, AddrOf, Port, Spells;
    var on := Decoding(w);
    assert Decoding(v) == on;
    assert Base(v);
    forall d, i | 0 <= d < |v.devs| && 0 <= i < BARS ensures WellBuilt(v.devs[d]) && Agrees(v, d, i, (d, i) in on) {
      ExpectAt(w, on, d, i);
      StillAgrees(w, v, d, i, (d, i) in on);
    }
  }

  lemma DoKeeps(w: World, s: Step)
    requires Inv(w) && Do(w, s).Some?
    ensures Inv(Do(w, s).value)
  {
    hide Inv, WriteCommand, WriteBar, Assign, Reset, MayAssign;
    match s
    case CommandWrite(d, val) => WriteCommandKeeps(w, d, val);
    case BarWrite(d, i, to) => WriteBarKeeps(w, d, i, to);
    case BootAssign(d, i, a) => AssignKeeps(w, d, i, a);
    case ResetAll => ResetKeeps(w);
    case BoardAdds(at, id) => OtherKeeps(w, w.(mem := w.mem[at := Other(id)]));
    case BoardRemoves(at) => OtherKeeps(w, w.(mem := w.mem - {at}));
    case BoardAddsPort(port, id) => OtherKeeps(w, w.(io := w.io[port := Other(id)]));
    case BoardRemovesPort(port) => OtherKeeps(w, w.(io := w.io - {port}));
  }

  // ------------------------------------------------------------------------ fixed bits

  /** Every function keeps its kinds, its masks and all register bits outside them. */
  ghost predicate Kept(w: World, v: World) {
    |v.devs| == |w.devs| && forall d :: 0 <= d < |w.devs| ==> SameOutside(w.devs[d], v.devs[d])
  }

  lemma KeptSame(w: World, v: World)
    requires v.devs == w.devs && forall d :: 0 <= d < |w.devs| ==> Shaped(w.devs[d])
    ensures Kept(w, v)
  {
    hide Outside;
  }

  lemma KeptOne(w: World, v: World, d: nat, g: Function)
    requires d < |w.devs| && v.devs == w.devs[d := g] && SameOutside(w.devs[d], g)
    requires forall e :: 0 <= e < |w.devs| ==> Shaped(w.devs[e])
    ensures Kept(w, v)
  {
    hide Outside;
  }

  lemma KeptThen(u: World, v: World, w: World)
    requires Kept(u, v) && Kept(v, w)
    ensures Kept(u, w)
  {
    hide Outside;
    forall d | 0 <= d < |u.devs| ensures SameOutside(u.devs[d], w.devs[d]) {
      assert SameOutside(u.devs[d], v.devs[d]) && SameOutside(v.devs[d], w.devs[d]);
    }
  }

  ghost predicate Shapes(w: World) {
    forall d :: 0 <= d < |w.devs| ==> Shaped(w.devs[d])
  }

  lemma KeptShapes(w: World, v: World)
    requires Kept(w, v)
    ensures Shapes(v)
  {
    hide Outside;
    forall d | 0 <= d < |v.devs| ensures Shaped(v.devs[d]) {
      assert SameOutside(w.devs[d], v.devs[d]);
    }
  }

  lemma AddKept(w: World, a: Addr, o: Owner)
    requires Shapes(w) && Known(w, o) && AddRegion(w, a, o).Some?
    ensures Kept(w, AddRegion(w, a, o).value)
  {
    hide SameOutside, Mapped, Kept;
    var v := AddRegion(w, a, o).value;
    if o.Bar? {
      MappedOutside(w.devs[o.dev], o.index, a);
      KeptOne(w, v, o.dev, Mapped(w.devs[o.dev], o.index, a));
    } else {
      KeptSame(w, v);
    }
  }

  lemma AddIoKept(w: World, p: IoPort, o: Owner)
    requires Shapes(w) && Known(w, o) && AddIoRegion(w, p, o).Some?
    ensures Kept(w, AddIoRegion(w, p, o).value)
  {
    hide SameOutside, Mapped, Kept, PortAddr;
    var v, a := AddIoRegion(w, p, o).value, PortAddr(p);
    if o.Bar? {
      MappedOutside(w.devs[o.dev], o.index, a);
      KeptOne(w, v, o.dev, Mapped(w.devs[o.dev], o.index, a));
    } else {
      KeptSame(w, v);
    }
  }

  lemma MoveKept(w: World, src: Addr, dst: Addr)
    requires Shapes(w) && MoveBar(w, src, dst).Some?
    ensures Kept(w, MoveBar(w, src, dst).value)
  {
    hide Kept, AddRegion, AddIoRegion, IsIo, MemAddr, Port;
    var v := MoveBar(w, src, dst).value;
    if IsIo(src.lo) {
      var p := Port(src.lo);
      var u := w.(io := w.io - {p});
      AddIoKept(u, Port(dst.lo), w.io[p]);
      KeptSame(w, u);
      KeptThen(w, u, v);
    } else {
      var a := Addr(MemAddr(src.lo), src.hi);
      var u := w.(mem := w.mem - {a});
      AddKept(u, Addr(MemAddr(dst.lo), dst.hi), w.mem[a]);
      KeptSame(w, u);
      KeptThen(w, u, v);
    }
  }

  lemma WriteBarKept(w: World, d: nat, i: nat, val: bv32)
    requires Shapes(w) && DevIn(w, d) && i < BARS && WriteBar(w, d, i, val).Some?
    ensures Kept(w, WriteBar(w, d, i, val).value)
  {
    hide Kept, MoveBar, MaskBits, Is64, MemOn, IoOn, SameOutside;
    var f := w.devs[d];
    var before, after := f.bars[i], MaskBits(f.bars[i], val, f.masks[i]);
    if before == after {
      KeptSame(w, w);
    } else if f.kinds[i].IoBar? && IoOn(f) {
      MoveKept(w, Addr(before, 0), Addr(after, 0));
    } else if f.kinds[i].MemBar? && MemOn(f) {
      var hi := if Is64(before) && i + 1 < BARS then f.bars[i + 1] else 0;
      MoveKept(w, Addr(before, hi), Addr(after, hi));
    } else if f.kinds[i].Empty? && MemOn(f) && i > 0 && Is64(f.bars[i - 1]) {
      MoveKept(w, Addr(f.bars[i - 1], before), Addr(f.bars[i - 1], after));
    } else {
      SetOutside(f, i, val);
      KeptOne(w, WriteBar(w, d, i, val).value, d, SetBar(f, i, val));
    }
  }

  lemma UpdateOneKept(w: World, d: nat, k: nat, bars: seq<bv32>, changed: bv16)
    requires Shapes(w) && DevIn(w, d) && k < BARS && |bars| == BARS && UpdateOne(w, d, k, bars, changed).Some?
    ensures Kept(w, UpdateOne(w, d, k, bars, changed).value)
  {
    hide Kept, AddRegion, AddIoRegion, AddrOf, Port, MemOn, IoOn, MemChanged, IoChanged;
    var f, v := w.devs[d], UpdateOne(w, d, k, bars, changed).value;
    if v.devs == w.devs {
      KeptSame(w, v);
    } else if f.kinds[k].MemBar? {
      AddKept(w, AddrOf(f.(bars := bars), k), Bar(d, k));
    } else {
      AddIoKept(w, Port(bars[k]), Bar(d, k));
    }
  }

  lemma {:induction false} UpdateKept(w: World, d: nat, k: nat, bars: seq<bv32>, changed: bv16)
    requires Shapes(w) && DevIn(w, d) && k <= BARS && |bars| == BARS && UpdateFrom(w, d, k, bars, changed).Some?
    ensures Kept(w, UpdateFrom(w, d, k, bars, changed).value)
    decreases BARS - k
  {
    hide Kept, UpdateOne;
    if k == BARS {
      KeptSame(w, w);
    } else {
      var v := UpdateOne(w, d, k, bars, changed).value;
      UpdateOneKept(w, d, k, bars, changed);
      KeptShapes(w, v);
      UpdateKept(v, d, k + 1, bars, changed);
      KeptThen(w, v, UpdateFrom(v, d, k + 1, bars, changed).value);
    }
  }

  lemma WriteCommandKept(w: World, d: nat, val: bv16)
    requires Shapes(w) && DevIn(w, d) && WriteCommand(w, d, val).Some?
    ensures Kept(w, WriteCommand(w, d, val).value)
  {
    hide Kept, UpdateFrom, Outside, NewCommand, Flipped, MemChanged, IoChanged;
    var f := w.devs[d];
    var current := NewCommand(f.command, val);
    var changed, g := Flipped(f.command, current), f.(command := current);
    var v := w.(devs := w.devs[d := g]);
    assert SameOutside(f, g);
    KeptOne(w, v, d, g);
    if MemChanged(changed) || IoChanged(changed) {
      KeptShapes(w, v);
      UpdateKept(v, d, 0, f.bars, changed);
      KeptThen(w, v, UpdateFrom(v, d, 0, f.bars, changed).value);
    }
  }

  lemma DoKept(w: World, s: Step)
    requires Shapes(w) && Do(w, s).Some?
    ensures Kept(w, Do(w, s).value)
  {
    hide Kept, WriteCommand, WriteBar, Assign, MayAssign, Outside;
    match s
    case CommandWrite(d, val) => WriteCommandKept(w, d, val);
    case BarWrite(d, i, to) => WriteBarKept(w, d, i, to);
    case BootAssign(d, i, a) =>
      AssignOutside(w.devs[d], i, a);
      KeptOne(w, Do(w, s).value, d, Assign(w.devs[d], i, a));
    case ResetAll => ResetKept(w);
    case _ => KeptSame(w, Do(w, s).value);
  }

  lemma ResetKept(w: World)
    requires Shapes(w)
    ensures Kept(w, Reset(w))
  {
    hide Outside;
  }

  /** In every run the bits outside a BAR's mask never change. */
  lemma {:induction false} BitsFixed(w: World, steps: seq<Step>)
    requires Shapes(w) && Run(w, steps).Some?
    ensures Kept(w, Run(w, steps).value)
    decreases |steps|
  {
    hide Kept, Do;
    if steps == [] {
      KeptSame(w, w);
    } else {
      var v := Run(w, steps[..|steps| - 1]).value;
      BitsFixed(w, steps[..|steps| - 1]);
      KeptShapes(w, v);
      DoKept(v, steps[|steps| - 1]);
      KeptThen(w, v, Run(w, steps).value);
    }
  }

  lemma RunSnoc(w: World, steps: seq<Step>, s: Step)
    requires Run(w, steps).Some?
    ensures Run(w, steps + [s]) == Do(Run(w, steps).value, s)
  {
    hide Do;
    assert (steps + [s])[..|steps|] == steps;
  }

  // --------------------------------------------------------------------- every run

  /** Power on: functions that decode nothing, and no BAR mapped. */
  ghost predicate Powered(w: World) {
    && (forall d :: 0 <= d < |w.devs| ==> Formed(w.devs[d]) && w.devs[d].command == 0)
    && (forall a :: a in w.mem ==> w.mem[a].Other?) && (forall p :: p in w.io ==> w.io[p].Other?)
  }

  /** No function has a four-byte I/O register before a register that holds address bits. */
  ghost predicate AllSealed(w: World) {
    forall d :: 0 <= d < |w.devs| ==> Shaped(w.devs[d]) && Sealed(w.devs[d])
  }

  lemma InitialAgrees(w: World)
    requires Powered(w) && AllSealed(w)
    ensures Inv(w)
  {
    hide Well, Sealed;
    forall d | 0 <= d < |w.devs| ensures WellBuilt(w.devs[d]) {
    }
    assert Base(w);
    assert Decoding(w) == {};
  }

  lemma InitialShapes(w: World)
    requires Powered(w) && AllSealed(w)
    ensures Shapes(w)
  {
    hide Well;
  }

  lemma {:induction false} RunKeeps(w: World, steps: seq<Step>)
    requires Powered(w) && AllSealed(w) && Run(w, steps).Some?
    ensures Inv(Run(w, steps).value)
    decreases |steps|
  {
    hide Inv, Do, Powered, AllSealed;
    if steps == [] {
      InitialAgrees(w);
    } else {
      RunKeeps(w, steps[..|steps| - 1]);
      DoKeeps(Run(w, steps[..|steps| - 1]).value, steps[|steps| - 1]);
    }
  }

  /** The region of a memory BAR is in the region list exactly while its function decodes memory, only once, at the
      aligned address its registers spell; that of a port BAR likewise. */
  ghost predicate Follows(v: World, d: nat, i: nat)
    requires DevIn(v, d) && i < BARS
  {
    var f := v.devs[d];
    && (f.kinds[i].MemBar? ==>
          && (forall a :: a in v.mem && v.mem[a] == Bar(d, i) <==> MemOn(f) && a == AddrOf(f, i))
          && Spellable(f, i, AddrOf(f, i)))
    && (f.kinds[i].IoBar? ==>
          && (forall p :: p in v.io && v.io[p] == Bar(d, i) <==> IoOn(f) && p == Port(f.bars[i]))
          && (IoOn(f) ==> Spells(f.bars[i], Port(f.bars[i]))))
  }

  /** After every error-free run every BAR's region follows its registers. */
  lemma BarsAgree(w: World, steps: seq<Step>, d: nat, i: nat)
    requires Powered(w) && AllSealed(w) && Run(w, steps).Some? && d < |w.devs| && i < BARS
    ensures DevIn(Run(w, steps).value, d) && Follows(Run(w, steps).value, d, i)
  {
    RunKeeps(w, steps);
    InitialShapes(w);
    BitsFixed(w, steps);
    var v := Run(w, steps).value;
    hide Powered, AllSealed, Run, Expect, Well, AddrOf, Port, MemOn, IoOn, Spellable, Spells;
    ExpectAt(v, Decoding(v), d, i);
    InDecoding(v, d, i);
    if v.devs[d].kinds[i].MemBar? {
      SpelledAligned(v.devs[d], i);
    }
  }
}
