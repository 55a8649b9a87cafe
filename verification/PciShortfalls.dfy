/** I/O registers of four bytes: the callback takes an address bit for the 64-bit type bit. */
module PciShortfalls {
  import opened Wrappers
  import opened PciBars

  /** A four-byte port register at port 4, and a memory register after it. */
  function FourBytePort(command: bv16, next: bv32): Function {
    Function([IoBar, MemBar, Empty, Empty, Empty, Empty],
             [5, next, 0, 0, 0, 0], [0xFFFF_FFFC, 0xFFFF_F000, 0, 0, 0, 0], command)
  }

  function Mapping(): map<Addr, Owner> {
    map[Addr(0xE000_0000, 0) := Bar(0, 1)]
  }

  lemma FirstWrite()
    ensures WriteCommand(World([FourBytePort(0, 0xE000_0000)], map[], map[]), 0, 2)
            == Some(World([FourBytePort(2, 0xE000_0000)], Mapping(), map[]))
  {
    var f := FourBytePort(2, 0xE000_0000);
    var w := World([f], map[], map[]);
    var v := World([f], Mapping(), map[]);
    assert NewCommand(0, 2) == 2 && Flipped(0, 2) == 2;
    assert World([FourBytePort(0, 0xE000_0000)], map[], map[]).devs[0 := f] == [f];
    assert AddrOf(f, 1) == Addr(0xE000_0000, 0);
    assert Mapped(f, 1, AddrOf(f, 1)).bars == f.bars;
    assert UpdateOne(w, 0, 0, f.bars, 2) == Some(w);
    assert UpdateOne(w, 0, 1, f.bars, 2) == Some(v) by {
      assert w.devs[0 := f] == v.devs;
    }
    Rest(v, f.bars, 2);
  }

  lemma Rest(w: World, bars: seq<bv32>, changed: bv16)
    requires DevIn(w, 0) && |bars| == BARS && forall i :: 2 <= i < BARS ==> w.devs[0].kinds[i].Empty?
    ensures UpdateFrom(w, 0, 2, bars, changed) == Some(w)
  {
    assert UpdateFrom(w, 0, 6, bars, changed) == Some(w);
    assert UpdateFrom(w, 0, 5, bars, changed) == Some(w);
    assert UpdateFrom(w, 0, 4, bars, changed) == Some(w);
    assert UpdateFrom(w, 0, 3, bars, changed) == Some(w);
  }

  lemma SecondWrite()
    ensures WriteCommand(World([FourBytePort(2, 0xE000_0000)], Mapping(), map[]), 0, 3)
            == Some(World([FourBytePort(3, 0)], Mapping(), map[IoPort(4) := Bar(0, 0)]))
  {
    var f, g := FourBytePort(3, 0xE000_0000), FourBytePort(3, 0);
    var w := World([f], Mapping(), map[]);
    var v := World([g], Mapping(), map[IoPort(4) := Bar(0, 0)]);
    assert NewCommand(2, 3) == 3 && Flipped(2, 3) == 1;
    assert World([FourBytePort(2, 0xE000_0000)], Mapping(), map[]).devs[0 := f] == [f];
    assert Port(5) == IoPort(4) && PortAddr(IoPort(4)) == Addr(4, 0);
    assert Mapped(f, 0, Addr(4, 0)).bars == g.bars;
    assert UpdateOne(w, 0, 0, f.bars, 1) == Some(v) by {
      assert w.devs[0 := g] == v.devs;
    }
    assert UpdateOne(v, 0, 1, f.bars, 1) == Some(v);
    Rest(v, f.bars, 1);
  }

  /** Memory decode on, then port decode on: the memory register no longer spells the address of its region. */
  lemma NarrowPortBreaksAgreement()
    ensures var w := World([FourBytePort(0, 0xE000_0000)], map[], map[]);
            var r := Run(w, [CommandWrite(0, 2), CommandWrite(0, 3)]);
            r.Some? && DevIn(r.value, 0) && MemOn(r.value.devs[0]) && r.value.mem == Mapping()
            && AddrOf(r.value.devs[0], 1) == Addr(0, 0) && Addr(0, 0) !in r.value.mem
  {
    var w, steps := World([FourBytePort(0, 0xE000_0000)], map[], map[]), [CommandWrite(0, 2), CommandWrite(0, 3)];
    FirstWrite();
    SecondWrite();
    hide WriteCommand;
    assert steps[..1] == [CommandWrite(0, 2)] && steps[..1][..0] == [];
    assert Run(w, []) == Some(w);
    assert Run(w, steps[..1]) == Do(w, CommandWrite(0, 2));
  }
}
