/**
 Running the loader script is relocating and mending directly.
 */
module AcpiLoaderTheorems {
  import opened Bytes
  import opened Wrappers
  import opened AcpiBytes
  import opened Acpi
  import opened AcpiTheorems
  import opened AcpiLoader

  // ----------------------------------------------------------------------- records

  predicate GoodName(name: Name) {
    |name| < FILE_NAME_SIZE && forall i :: 0 <= i < |name| ==> name[i] != 0
  }

  lemma {:induction false} NameInReads(name: Name, rest: seq<byte>)
    requires (forall i :: 0 <= i < |name| ==> name[i] != 0) && (rest == [] || rest[0] == 0)
    ensures NameIn(name + rest) == name
    decreases |name|
  {
    if name == [] {
      assert name + rest == rest;
    } else {
      assert (name + rest)[1..] == name[1..] + rest;
      NameInReads(name[1..], rest);
      assert name == [name[0]] + name[1..];
    }
  }

  lemma FileNameReads(name: Name)
    requires GoodName(name)
    ensures NameIn(FileName(name)) == name
  {
    assert name[..|name|] == name;
    NameInReads(name, Zeros(FILE_NAME_SIZE - |name|));
  }

  predicate GoodNames(c: Command) {
    match c
    case Allocate(file, _, _) => GoodName(file)
    case AddPointer(dst, src, _, _) => GoodName(dst) && GoodName(src)
    case AddChecksum(file, _, _, _) => GoodName(file)
  }

  /** Firmware reads back the command that was written. */
  lemma DecodeEncode(c: Command)
    requires CommandFits(c) && GoodNames(c)
    ensures Decode(Encode(c)) == Some(c)
  {
    hide Le32, Get32, FileName, NameIn, GoodName;
    var r := Encode(c);
    match c
    case Allocate(file, align, zone) =>
      assert r[..4] == Le32(COMMAND_ALLOCATE) && r[4..60] == FileName(file) && r[60..64] == Le32(align)
          && r[64] == zone;
      FileNameReads(file);
      Get32Le32(COMMAND_ALLOCATE);
      Get32Le32(align);
    case AddPointer(dst, src, offset, size) =>
      assert r[..4] == Le32(COMMAND_ADD_POINTER) && r[4..60] == FileName(dst) && r[60..116] == FileName(src);
      assert r[116..120] == Le32(offset) && r[120] == size;
      FileNameReads(dst);
      FileNameReads(src);
      Get32Le32(COMMAND_ADD_POINTER);
      Get32Le32(offset);
    case AddChecksum(file, offset, start, len) =>
      assert r[..4] == Le32(COMMAND_ADD_CHECKSUM) && r[4..60] == FileName(file);
      assert r[60..64] == Le32(offset) && r[64..68] == Le32(start) && r[68..72] == Le32(len);
      FileNameReads(file);
      Get32Le32(COMMAND_ADD_CHECKSUM);
      Get32Le32(offset);
      Get32Le32(start);
      Get32Le32(len);
  }

  // ---------------------------------------------------------------------- execution

  function ExecAll(f: Firmware, cs: seq<Command>, home: map<Name, nat>): Option<Firmware>
    decreases |cs|
  {
    if cs == [] then Some(f)
    else
      match Exec(f, cs[0], home)
      case None => None
      case Some(g) => ExecAll(g, cs[1..], home)
  }

  ghost predicate AllNamesGood(cs: seq<Command>) {
    forall i :: 0 <= i < |cs| ==> GoodNames(cs[i])
  }

  lemma {:induction false} RunEncoded(f: Firmware, cs: seq<Command>, home: map<Name, nat>)
    requires AllFit(cs) && AllNamesGood(cs)
    ensures Run(f, EncodeAll(cs), home) == ExecAll(f, cs, home)
    decreases |cs|
  {
    hide Exec, Encode, Decode, CommandFits, GoodNames;
    if cs != [] {
      assert CommandFits(cs[0]) && GoodNames(cs[0]);
      DecodeEncode(cs[0]);
      var script := EncodeAll(cs);
      assert script[..RECORD_SIZE] == Encode(cs[0]) && script[RECORD_SIZE..] == EncodeAll(cs[1..]);
      match Exec(f, cs[0], home)
      case None =>
      case Some(g) => RunEncoded(g, cs[1..], home);
    }
  }

  lemma {:induction false} ExecConcat(f: Firmware, a: seq<Command>, b: seq<Command>, home: map<Name, nat>)
    requires ExecAll(f, a, home).Some?
    ensures ExecAll(f, a + b, home) == ExecAll(ExecAll(f, a, home).value, b, home)
    decreases |a|
  {
    hide Exec;
    if a == [] {
      assert a + b == b;
    } else {
      assert (a + b)[0] == a[0] && (a + b)[1..] == a[1..] + b;
      ExecConcat(Exec(f, a[0], home).value, a[1..], b, home);
    }
  }

  /** Firmware with both files placed. */
  function Placed(rsdp: seq<byte>, tables: seq<byte>, home: map<Name, nat>): Firmware {
    Firmware(map[RSDP_FILE := rsdp, TABLES_FILE := tables], home)
  }

  function Homes(rsdpAt: nat, base: nat): map<Name, nat> {
    map[RSDP_FILE := rsdpAt, TABLES_FILE := base]
  }

  lemma FilesDiffer()
    ensures RSDP_FILE != TABLES_FILE && GoodName(RSDP_FILE) && GoodName(TABLES_FILE)
  {
    assert RSDP_FILE[5] != TABLES_FILE[5];
  }

  /** The offsets fit the 32-bit fields of the records. */
  predicate PointersFit(pointers: seq<nat>) {
    forall i :: 0 <= i < |pointers| ==> pointers[i] < U32_SPAN
  }

  predicate RangesFit(ranges: seq<Range>) {
    forall i :: 0 <= i < |ranges| ==> RangeFits(ranges[i])
  }

  predicate RangeFits(r: Range) {
    ChecksumAt(r) < U32_SPAN && r.len < U32_SPAN
  }

  lemma {:induction false} PointersExec(rsdp: seq<byte>, tables: seq<byte>, pointers: seq<nat>, at: nat, base: nat)
    requires Inside(tables, pointers) && PointersFit(pointers)
    ensures ExecAll(Placed(rsdp, tables, Homes(at, base)), PointerCommands(pointers), Homes(at, base))
            == Some(Placed(rsdp, Move(tables, pointers, base), Homes(at, base)))
    decreases |pointers|
  {
    hide AddAt, Fix;
    if pointers != [] {
      FilesDiffer();
      LowKeeps(pointers[0]);
      var cs, f := PointerCommands(pointers), Placed(rsdp, tables, Homes(at, base));
      assert cs[1..] == PointerCommands(pointers[1..]);
      var moved := AddAt(tables, pointers[0], base);
      assert f.files[TABLES_FILE := moved] == Placed(rsdp, moved, Homes(at, base)).files;
      PointersExec(rsdp, moved, pointers[1..], at, base);
    }
  }

  lemma {:induction false} ChecksumsExec(rsdp: seq<byte>, tables: seq<byte>, ranges: seq<Range>, at: nat, base: nat)
    requires Covered(tables, ranges) && RangesFit(ranges)
    ensures ExecAll(Placed(rsdp, tables, Homes(at, base)), ChecksumCommands(ranges), Homes(at, base))
            == Some(Placed(rsdp, FixAll(tables, ranges), Homes(at, base)))
    decreases |ranges|
  {
    hide AddAt, Fix;
    if ranges != [] {
      FilesDiffer();
      var r := ranges[0];
      assert RangeIn(tables, r) && RangeFits(r);
      LowKeeps(ChecksumAt(r));
      LowKeeps(r.start);
      LowKeeps(r.len);
      var cs, f := ChecksumCommands(ranges), Placed(rsdp, tables, Homes(at, base));
      assert cs[1..] == ChecksumCommands(ranges[1..]);
      var fixed := FixRange(tables, r);
      assert f.files[TABLES_FILE := fixed] == Placed(rsdp, fixed, Homes(at, base)).files;
      ChecksumsExec(rsdp, fixed, ranges[1..], at, base);
    }
  }

  function RsdpCommands(): seq<Command> {
    [AddPointer(RSDP_FILE, TABLES_FILE, RSDP_XSDT, 8),
     AddChecksum(RSDP_FILE, RSDP_CHECKSUM, 0, RSDP_LENGTH),
     AddChecksum(RSDP_FILE, RSDP_EXT_CHECKSUM, 0, RSDP_SIZE)]
  }

  lemma RsdpExec(rsdp: seq<byte>, tables: seq<byte>, at: nat, base: nat)
    requires |rsdp| == RSDP_SIZE
    ensures ExecAll(Placed(rsdp, tables, Homes(at, base)), RsdpCommands(), Homes(at, base))
            == Some(Placed(FixRsdp(AddAt(rsdp, RSDP_XSDT, base)), tables, Homes(at, base)))
  {
    hide AddAt, Fix;
    FilesDiffer();
    var home, cs := Homes(at, base), RsdpCommands();
    var r1 := AddAt(rsdp, RSDP_XSDT, base);
    var r2 := Fix(r1, RSDP_CHECKSUM, 0, RSDP_LENGTH);
    var r3 := Fix(r2, RSDP_EXT_CHECKSUM, 0, RSDP_SIZE);
    var f0, f1, f2, f3 := Placed(rsdp, tables, home), Placed(r1, tables, home), Placed(r2, tables, home),
        Placed(r3, tables, home);
    assert f0.files[RSDP_FILE := r1] == f1.files && f1.files[RSDP_FILE := r2] == f2.files
        && f2.files[RSDP_FILE := r3] == f3.files;
    assert Exec(f0, cs[0], home) == Some(f1);
    assert Exec(f1, cs[1], home) == Some(f2);
    assert Exec(f2, cs[2], home) == Some(f3);
    assert cs[1..][0] == cs[1] && cs[1..][1..][0] == cs[2] && cs[1..][1..][1..] == [];
  }

  function AllocateCommands(): seq<Command> {
    [Allocate(RSDP_FILE, 4, ALLOC_ZONE_FSEG), Allocate(TABLES_FILE, 4, ALLOC_ZONE_HIGH)]
  }

  /** What firmware has before it runs the script. */
  function Fetched(b: Bundle): Firmware {
    Firmware(map[RSDP_FILE := b.rsdp, TABLES_FILE := b.tables], map[])
  }

  lemma AllocateExec(b: Bundle, at: nat, base: nat)
    ensures ExecAll(Fetched(b), AllocateCommands(), Homes(at, base)) == Some(Placed(b.rsdp, b.tables, Homes(at, base)))
  {
    FilesDiffer();
    var f, home, cs := Fetched(b), Homes(at, base), AllocateCommands();
    var f1 := f.(placed := map[RSDP_FILE := at]);
    assert Exec(f, cs[0], home) == Some(f1);
    assert f1.placed[TABLES_FILE := base] == home;
    assert cs[1..][0] == cs[1] && cs[1..][1..] == [];
  }

  /** The root pointer: cleared, pointed and mended it is what relocating and mending make of it. */
  lemma RsdpAgrees(rsdp: seq<byte>, base: nat)
    requires |rsdp| == RSDP_SIZE && base < U64_SPAN
    ensures FixRsdp(AddAt(Splice(rsdp, RSDP_XSDT, Le64(0))[RSDP_CHECKSUM := 0][RSDP_EXT_CHECKSUM := 0], RSDP_XSDT,
            base))
            == FixRsdp(Splice(rsdp, RSDP_XSDT, Le64(base)))
  {
    hide Le64, Get64, Fix;
    var z := Splice(rsdp, RSDP_XSDT, Le64(0));
    SpliceRead(rsdp, RSDP_XSDT, Le64(0));
    AddClearCommute(z, RSDP_XSDT, base, RSDP_CHECKSUM);
    AddClearCommute(z[RSDP_CHECKSUM := 0], RSDP_XSDT, base, RSDP_EXT_CHECKSUM);
    Get64Le64(0);
    var m := Splice(rsdp, RSDP_XSDT, Le64(base));
    assert AddAt(z, RSDP_XSDT, base) == m;
    RsdpForgets(m);
  }

  lemma RsdpForgets(m: seq<byte>)
    requires |m| == RSDP_SIZE
    ensures FixRsdp(m[RSDP_CHECKSUM := 0][RSDP_EXT_CHECKSUM := 0]) == FixRsdp(m)
  {
    hide Sum8;
    var c := m[RSDP_EXT_CHECKSUM := 0];
    assert m[RSDP_CHECKSUM := 0][RSDP_EXT_CHECKSUM := 0] == c[RSDP_CHECKSUM := 0];
    FixForgets(c, RSDP_CHECKSUM, 0, RSDP_LENGTH, 0);
    assert c[0..RSDP_LENGTH] == m[0..RSDP_LENGTH];
    var f := Fix(m, RSDP_CHECKSUM, 0, RSDP_LENGTH);
    assert Fix(c, RSDP_CHECKSUM, 0, RSDP_LENGTH) == f[RSDP_EXT_CHECKSUM := 0];
    FixForgets(f, RSDP_EXT_CHECKSUM, 0, RSDP_SIZE, 0);
  }

  lemma WellFormedParts(t: Table)
    requires WellFormed(t)
    ensures |t.rsdp| == RSDP_SIZE && Inside(t.tables, t.pointers) && Covered(t.tables, t.checksums)
    ensures AllApart(t.pointers) && RangesApart(t.checksums)
    ensures forall i, j :: 0 <= i < |t.pointers| && 0 <= j < |t.checksums| ==>
            Apart(t.pointers[i], 8, ChecksumAt(t.checksums[j]), 1)
  {
  }

  /** The tables: moved to zero, cleared, moved to `base` and mended. */
  lemma TablesAgree(t: Table, base: nat)
    requires WellFormed(t) && base < U64_SPAN
    ensures Inside(t.tables, t.pointers) && Covered(t.tables, t.checksums)
    ensures var was := Xsdt(t.rsdp);
            var zeroed := ClearAll(Move(t.tables, t.pointers, Shift(was, 0)), t.checksums);
            FixAll(Move(zeroed, t.pointers, base), t.checksums)
                == FixAll(Move(t.tables, t.pointers, Shift(was, base)), t.checksums)
  {
    hide WellFormed, Move, FixAll, ClearAll, Shift, Apart, ChecksumAt, AllApart, RangesApart;
    WellFormedParts(t);
    var was := Xsdt(t.rsdp);
    var m := Move(t.tables, t.pointers, Shift(was, 0));
    MoveClearCommute(m, t.pointers, base, t.checksums);
    assert Move(m, t.pointers, base) == Move(t.tables, t.pointers, Shift(was, base)) by {
      MoveTwice(t.tables, t.pointers, Shift(was, 0), base);
      ShiftZero(was, base);
    }
    FixAfterClear(Move(t.tables, t.pointers, Shift(was, base)), t.checksums);
  }

  lemma ShiftZero(was: nat, base: nat)
    requires was < U64_SPAN && base < U64_SPAN
    ensures (Shift(was, 0) + base) % U64_SPAN == Shift(was, base)
  {
  }

  lemma ScriptNames(pointers: seq<nat>, ranges: seq<Range>)
    ensures AllNamesGood(Commands(pointers, ranges))
  {
    FilesDiffer();
    hide GoodName;
  }

  /** For every address firmware may choose and every well-formed set of tables: the files after the script are, byte
      for byte, the tables relocated there with their checksums updated. */
  lemma LoaderAgrees(t: Table, at: nat, base: nat)
    requires WellFormed(t) && PointersFit(t.pointers) && RangesFit(t.checksums) && base < U64_SPAN
    requires |t.rsdp| == RSDP_SIZE && Inside(t.tables, t.pointers) && Covered(t.tables, t.checksums)
    ensures var b := Loader(t);
            var direct := UpdateChecksums(Relocate(t, base));
            Run(Fetched(b), b.script, Homes(at, base)) == Some(Placed(direct.rsdp, direct.tables, Homes(at, base)))
  {
    hide Run, EncodeAll, ExecAll, Fix, FixAll, FixRsdp, Move, ClearAll, Splice, AddAt, PointerCommands,
         ChecksumCommands, Placed, Fetched, Homes;
    var b, home, was := Loader(t), Homes(at, base), Xsdt(t.rsdp);
    var ps, ks := PointerCommands(t.pointers), ChecksumCommands(t.checksums);
    CommandsFit(t.pointers, t.checksums);
    ScriptNames(t.pointers, t.checksums);
    RunEncoded(Fetched(b), Commands(t.pointers, t.checksums), home);
    AllocateExec(b, at, base);
    ExecConcat(Fetched(b), AllocateCommands(), ps, home);
    PointersExec(b.rsdp, b.tables, t.pointers, at, base);
    ExecConcat(Fetched(b), AllocateCommands() + ps, ks, home);
    ChecksumsExec(b.rsdp, Move(b.tables, t.pointers, base), t.checksums, at, base);
    ExecConcat(Fetched(b), AllocateCommands() + ps + ks, RsdpCommands(), home);
    RsdpExec(b.rsdp, FixAll(Move(b.tables, t.pointers, base), t.checksums), at, base);
    RsdpAgrees(t.rsdp, base);
    TablesAgree(t, base);
  }
}
