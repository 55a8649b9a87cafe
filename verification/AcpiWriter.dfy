/**
 The ACPI tables as the program holds them, patched in place, and the loader script it writes out.
 */
module AcpiWriter {
  import opened Bytes
  import opened AcpiBytes
  import opened Acpi
  import opened AcpiLoader

  /** `wrapping_sum`. */
  method WrappingSum(b: seq<byte>) returns (sum: byte)
    ensures sum == Sum8(b)
  {
    sum := 0;
    for i := 0 to |b|
      invariant sum == Sum8(b[..i])
    {
      assert b[..i + 1][..i] == b[..i];
      sum := ((sum as int) + (b[i] as int)) % 256;
    }
    assert b[..|b|] == b;
  }

  lemma SubAdd(v: nat, before: nat, addr: nat)
    requires v < U64_SPAN && before < U64_SPAN && addr < U64_SPAN
    ensures ((v + U64_SPAN - before) % U64_SPAN + addr) % U64_SPAN == (v + Shift(before, addr)) % U64_SPAN
  {
  }

  /** Subtracting the address the tables had and adding the one they get is one addition. */
  lemma RelocateField(b: seq<byte>, p: nat, before: nat, addr: nat)
    requires p + 8 <= |b| && before < U64_SPAN && addr < U64_SPAN
    ensures var was := Get64(b[p..p + 8]);
            Splice(b, p, Le64(((was + U64_SPAN - before) % U64_SPAN + addr) % U64_SPAN))
                == AddAt(b, p, Shift(before, addr))
  {
    hide Get64, Le64;
    SubAdd(Get64(b[p..p + 8]), before, addr);
  }

  lemma {:induction false} EncodeConcat(a: seq<Command>, b: seq<Command>)
    requires AllFit(a) && AllFit(b)
    ensures AllFit(a + b) && EncodeAll(a + b) == EncodeAll(a) + EncodeAll(b)
    decreases |a|
  {
    hide Encode, CommandFits;
    if a == [] {
      assert a + b == b;
    } else {
      assert CommandFits(a[0]);
      assert (a + b)[1..] == a[1..] + b;
      EncodeConcat(a[1..], b);
    }
  }

  lemma EncodeOne(c: Command)
    requires CommandFits(c)
    ensures AllFit([c]) && EncodeAll([c]) == Encode(c)
  {
    hide Encode, CommandFits;
    var cs := [c];
    assert CommandFits(cs[0]);
    assert EncodeAll(cs[1..]) == [];
  }

  lemma PartsFit(pointers: seq<nat>, ranges: seq<Range>)
    ensures AllFit(PointerCommands(pointers)) && AllFit(ChecksumCommands(ranges))
    ensures CommandFits(Allocate(RSDP_FILE, 4, ALLOC_ZONE_FSEG))
            && CommandFits(Allocate(TABLES_FILE, 4, ALLOC_ZONE_HIGH))
    ensures CommandFits(AddPointer(RSDP_FILE, TABLES_FILE, RSDP_XSDT, 8))
    ensures CommandFits(AddChecksum(RSDP_FILE, RSDP_CHECKSUM, 0, RSDP_LENGTH))
    ensures CommandFits(AddChecksum(RSDP_FILE, RSDP_EXT_CHECKSUM, 0, RSDP_SIZE))
  {
  }

  lemma EncodeCommands(pointers: seq<nat>, ranges: seq<Range>, ps: seq<Command>, ks: seq<Command>)
    requires ps == PointerCommands(pointers) && ks == ChecksumCommands(ranges) && AllFit(ps) && AllFit(ks)
    requires AllFit(Commands(pointers, ranges))
    ensures EncodeAll(Commands(pointers, ranges))
            == Encode(Allocate(RSDP_FILE, 4, ALLOC_ZONE_FSEG)) + Encode(Allocate(TABLES_FILE, 4, ALLOC_ZONE_HIGH))
               + EncodeAll(ps) + EncodeAll(ks)
               + Encode(AddPointer(RSDP_FILE, TABLES_FILE, RSDP_XSDT, 8))
               + Encode(AddChecksum(RSDP_FILE, RSDP_CHECKSUM, 0, RSDP_LENGTH))
               + Encode(AddChecksum(RSDP_FILE, RSDP_EXT_CHECKSUM, 0, RSDP_SIZE))
  {
    PartsFit(pointers, ranges);
    hide Encode, CommandFits, PointerCommands, ChecksumCommands, AllFit, EncodeAll;
    var a, b := Allocate(RSDP_FILE, 4, ALLOC_ZONE_FSEG), Allocate(TABLES_FILE, 4, ALLOC_ZONE_HIGH);
    var x, y := AddPointer(RSDP_FILE, TABLES_FILE, RSDP_XSDT, 8), AddChecksum(RSDP_FILE, RSDP_CHECKSUM, 0, RSDP_LENGTH);
    var z := AddChecksum(RSDP_FILE, RSDP_EXT_CHECKSUM, 0, RSDP_SIZE);
    EncodeOne(a);
    EncodeOne(b);
    EncodeOne(x);
    EncodeOne(y);
    EncodeOne(z);
    EncodeConcat([a], [b]);
    EncodeConcat([a] + [b], ps);
    EncodeConcat([a] + [b] + ps, ks);
    EncodeConcat([a] + [b] + ps + ks, [x]);
    EncodeConcat([a] + [b] + ps + ks + [x], [y]);
    EncodeConcat([a] + [b] + ps + ks + [x] + [y], [z]);
    assert Commands(pointers, ranges) == [a] + [b] + ps + ks + [x] + [y] + [z];
  }

  class AcpiTables {
    var rsdp: seq<byte>
    var tables: seq<byte>
    var pointers: seq<nat>
    var checksums: seq<Range>

    ghost predicate Valid()
      reads this
    {
      |rsdp| == RSDP_SIZE && Inside(tables, pointers) && Covered(tables, checksums)
    }

    ghost function Contents(): Table
      reads this
    {
      Table(rsdp, tables, pointers, checksums)
    }

    constructor (rsdp: seq<byte>, tables: seq<byte>, pointers: seq<nat>, checksums: seq<Range>)
      requires |rsdp| == RSDP_SIZE && Inside(tables, pointers) && Covered(tables, checksums)
      ensures Valid() && Contents() == Table(rsdp, tables, pointers, checksums)
    {
      this.rsdp, this.tables, this.pointers, this.checksums := rsdp, tables, pointers, checksums;
    }

    /** `relocate`: the root pointer and every pointer field follow the tables to `addr`. */
    method Relocate(addr: nat)
      requires Valid() && addr < U64_SPAN
      modifies this`rsdp, this`tables
      ensures Valid() && Contents() == Acpi.Relocate(old(Contents()), addr)
    {
      hide Le64, Get64, Covered, AddAt, Shift;
      var before := Xsdt(rsdp);
      rsdp := Splice(rsdp, RSDP_XSDT, Le64(addr));
      ghost var d, start := Shift(before, addr), tables;
      CoveredKept(start, checksums);
      for i := 0 to |pointers|
        invariant |rsdp| == RSDP_SIZE && rsdp == Splice(old(rsdp), RSDP_XSDT, Le64(addr))
        invariant |tables| == |start| && Inside(tables, pointers[i..])
        invariant Move(tables, pointers[i..], d) == Move(start, pointers, d)
      {
        var p := pointers[i];
        assert p == pointers[i..][0] && pointers[i..][1..] == pointers[i + 1..];
        var was := Get64(tables[p..p + 8]);
        RelocateField(tables, p, before, addr);
        tables := Splice(tables, p, Le64(((was + U64_SPAN - before) % U64_SPAN + addr) % U64_SPAN));
      }
    }

    /** `update_checksums`. */
    method UpdateChecksums()
      requires Valid()
      modifies this`rsdp, this`tables
      ensures Valid() && Contents() == Acpi.UpdateChecksums(old(Contents()))
    {
      hide Sum8, Sub8;
      var sum := WrappingSum(rsdp[0..RSDP_LENGTH]);
      rsdp := rsdp[RSDP_CHECKSUM := Sub8(rsdp[RSDP_CHECKSUM], sum)];
      assert rsdp == rsdp[0..RSDP_SIZE];
      var extended := WrappingSum(rsdp);
      rsdp := rsdp[RSDP_EXT_CHECKSUM := Sub8(rsdp[RSDP_EXT_CHECKSUM], extended)];
      ghost var start := tables;
      for i := 0 to |checksums|
        invariant rsdp == FixRsdp(old(rsdp))
        invariant |tables| == |start| && Covered(tables, checksums[i..])
        invariant FixAll(tables, checksums[i..]) == FixAll(start, checksums)
      {
        var r := checksums[i];
        assert r == checksums[i..][0] && checksums[i..][1..] == checksums[i + 1..];
        assert RangeIn(tables, r);
        var part := WrappingSum(tables[r.start..r.start + r.len]);
        tables := tables[ChecksumAt(r) := Sub8(tables[ChecksumAt(r)], part)];
      }
      CoveredKept(start, checksums);
    }

    /** `clear_checksums`. */
    method ClearChecksums()
      requires Valid()
      modifies this`rsdp, this`tables
      ensures Valid() && Contents() == Acpi.ClearChecksums(old(Contents()))
    {
      ghost var start := tables;
      for i := 0 to |checksums|
        invariant rsdp == old(rsdp)
        invariant |tables| == |start| && Covered(tables, checksums[i..])
        invariant ClearAll(tables, checksums[i..]) == ClearAll(start, checksums)
      {
        var r := checksums[i];
        assert r == checksums[i..][0] && checksums[i..][1..] == checksums[i + 1..];
        assert RangeIn(tables, r);
        tables := tables[ChecksumAt(r) := 0];
      }
      rsdp := rsdp[RSDP_CHECKSUM := 0][RSDP_EXT_CHECKSUM := 0];
      CoveredKept(start, checksums);
    }

    /** The commands for firmware, one record after another. */
    method WriteScript() returns (script: seq<byte>)
      ensures AllFit(Commands(pointers, checksums)) && script == EncodeAll(Commands(pointers, checksums))
    {
      hide Encode, CommandFits;
      CommandsFit(pointers, checksums);
      PartsFit(pointers, checksums);
      ghost var ps, ks := PointerCommands(pointers), ChecksumCommands(checksums);
      script := Encode(Allocate(RSDP_FILE, 4, ALLOC_ZONE_FSEG)) + Encode(Allocate(TABLES_FILE, 4, ALLOC_ZONE_HIGH));
      ghost var first := script;
      for i := 0 to |pointers|
        invariant script == first + EncodeAll(ps[..i])
      {
        var c := AddPointer(TABLES_FILE, TABLES_FILE, Low32(pointers[i]), 8);
        assert c == ps[i] && ps[..i + 1] == ps[..i] + [c];
        EncodeOne(c);
        EncodeConcat(ps[..i], [c]);
        script := script + Encode(c);
      }
      assert ps[..|pointers|] == ps;
      for i := 0 to |checksums|
        invariant script == first + EncodeAll(ps) + EncodeAll(ks[..i])
      {
        var r := checksums[i];
        var c := AddChecksum(TABLES_FILE, Low32(ChecksumAt(r)), Low32(r.start), Low32(r.len));
        assert c == ks[i] && ks[..i + 1] == ks[..i] + [c];
        EncodeOne(c);
        EncodeConcat(ks[..i], [c]);
        script := script + Encode(c);
      }
      assert ks[..|checksums|] == ks;
      script := script + Encode(AddPointer(RSDP_FILE, TABLES_FILE, RSDP_XSDT, 8));
      script := script + Encode(AddChecksum(RSDP_FILE, RSDP_CHECKSUM, 0, RSDP_LENGTH));
      script := script + Encode(AddChecksum(RSDP_FILE, RSDP_EXT_CHECKSUM, 0, RSDP_SIZE));
      EncodeCommands(pointers, checksums, ps, ks);
    }

    /** `create_acpi_loader`: the script and the two files for firmware. */
    method CreateLoader() returns (b: Bundle)
      requires Valid()
      modifies this`rsdp, this`tables
      ensures Valid() && b == Loader(old(Contents()))
    {
      Relocate(0);
      ClearChecksums();
      var script := WriteScript();
      b := Bundle(script, rsdp, tables);
    }
  }

  lemma CoveredKept(b: seq<byte>, ranges: seq<Range>)
    requires Covered(b, ranges)
    ensures forall c: seq<byte> :: |c| == |b| ==> Covered(c, ranges)
  {
    forall c: seq<byte> | |c| == |b| ensures Covered(c, ranges) {
      forall i | 0 <= i < |ranges| ensures RangeIn(c, ranges[i]) {
        assert RangeIn(b, ranges[i]);
      }
    }
  }
}
