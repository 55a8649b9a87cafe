/**
 The ACPI operations byte by byte: at which offsets the root pointer, the tables and the records of the loader
 script are read and written, and that nothing else changes.
 */
module AcpiLayout {
  import opened Bytes
  import opened AcpiBytes
  import opened Acpi
  import opened AcpiTheorems
  import opened AcpiLoader

  // ------------------------------------------------------------------------------ numbers

  /** The little-endian 32-bit number at `p`. */
  function Dword(b: seq<byte>, p: nat): nat
    requires p + 4 <= |b|
  {
    (b[p] as nat) + 0x100 * (b[p + 1] as nat) + 0x1_0000 * (b[p + 2] as nat) + 0x100_0000 * (b[p + 3] as nat)
  }

  /** The little-endian 64-bit number at `p`. */
  function Qword(b: seq<byte>, p: nat): nat
    requires p + 8 <= |b|
  {
    Dword(b, p) + 0x1_0000_0000 * Dword(b, p + 4)
  }

  lemma DwordIs(b: seq<byte>, p: nat)
    requires p + 4 <= |b|
    ensures Get32(b[p..p + 4]) == Dword(b, p)
  {
    var x := b[p..p + 4];
    assert x[..2][0] == b[p] && x[..2][1] == b[p + 1] && x[2..][0] == b[p + 2] && x[2..][1] == b[p + 3];
  }

  lemma QwordIs(b: seq<byte>, p: nat)
    requires p + 8 <= |b|
    ensures Get64(b[p..p + 8]) == Qword(b, p)
  {
    hide Get32, Dword;
    var x := b[p..p + 8];
    assert x[..4] == b[p..p + 4] && x[4..] == b[p + 4..p + 8];
    DwordIs(b, p);
    DwordIs(b, p + 4);
  }

  // --------------------------------------------------------------------------- relocation

  lemma AddHere(b: seq<byte>, p: nat, d: nat)
    requires p + 8 <= |b|
    ensures Qword(AddAt(b, p, d), p) == (Qword(b, p) + d) % U64_SPAN
  {
    hide Get64, Le64, Qword;
    var n := (Get64(b[p..p + 8]) + d) % U64_SPAN;
    SpliceRead(b, p, Le64(n));
    Get64Le64(n);
    QwordIs(b, p);
    QwordIs(AddAt(b, p, d), p);
  }

  lemma AddThere(b: seq<byte>, p: nat, d: nat, q: nat)
    requires p + 8 <= |b| && q < |b| && !(p <= q < p + 8)
    ensures AddAt(b, p, d)[q] == b[q]
  {
    hide Get64, Le64;
  }

  lemma {:induction false} MoveThere(b: seq<byte>, pointers: seq<nat>, d: nat, q: nat)
    requires Inside(b, pointers) && q < |b| && forall i :: 0 <= i < |pointers| ==> !(pointers[i] <= q < pointers[i] + 8)
    ensures Move(b, pointers, d)[q] == b[q]
    decreases |pointers|
  {
    hide AddAt;
    if pointers != [] {
      AddThere(b, pointers[0], d, q);
      MoveThere(AddAt(b, pointers[0], d), pointers[1..], d, q);
    }
  }

  lemma QwordSame(a: seq<byte>, b: seq<byte>, p: nat)
    requires p + 8 <= |a| == |b| && forall q :: p <= q < p + 8 ==> a[q] == b[q]
    ensures Qword(a, p) == Qword(b, p)
  {
  }

  lemma {:induction false} MoveHere(b: seq<byte>, pointers: seq<nat>, d: nat, k: nat)
    requires Inside(b, pointers) && AllApart(pointers) && k < |pointers|
    ensures Qword(Move(b, pointers, d), pointers[k]) == (Qword(b, pointers[k]) + d) % U64_SPAN
    decreases |pointers|
  {
    hide AddAt, Qword;
    var p, rest := pointers[0], pointers[1..];
    var b1 := AddAt(b, p, d);
    if k == 0 {
      AddHere(b, p, d);
      forall q | p <= q < p + 8 ensures Move(b1, rest, d)[q] == b1[q] {
        MoveThere(b1, rest, d, q);
      }
      QwordSame(Move(b1, rest, d), b1, p);
    } else {
      MoveHere(b1, rest, d, k - 1);
      forall q | pointers[k] <= q < pointers[k] + 8 ensures b1[q] == b[q] {
        AddThere(b, p, d, q);
      }
      QwordSame(b1, b, pointers[k]);
    }
  }

  /** Relocation: the 64-bit address at offset 24 of the root pointer becomes the new one, every listed pointer grows by
      the difference, modulo 2^64, and no other byte changes. */
  lemma RelocateBytes(t: Table, addr: nat)
    requires WellFormed(t) && addr < U64_SPAN
    ensures var r, was := Relocate(t, addr), Qword(t.rsdp, 24);
            && |r.rsdp| == 36 && Qword(r.rsdp, 24) == addr
            && (forall q :: 0 <= q < 36 && !(24 <= q < 32) ==> r.rsdp[q] == t.rsdp[q])
            && |r.tables| == |t.tables|
            && (forall k :: 0 <= k < |t.pointers| ==>
                  Qword(r.tables, t.pointers[k]) == (Qword(t.tables, t.pointers[k]) + U64_SPAN - was + addr) % U64_SPAN)
            && (forall q :: 0 <= q < |t.tables| && Unpointed(t.pointers, q) ==> r.tables[q] == t.tables[q])
  {
    hide Get64, Le64, Qword, Move;
    var r, was := Relocate(t, addr), Qword(t.rsdp, 24);
    QwordIs(t.rsdp, 24);
    SpliceRead(t.rsdp, 24, Le64(addr));
    Get64Le64(addr);
    QwordIs(r.rsdp, 24);
    forall k | 0 <= k < |t.pointers|
      ensures Qword(r.tables, t.pointers[k]) == (Qword(t.tables, t.pointers[k]) + U64_SPAN - was + addr) % U64_SPAN
    {
      MoveHere(t.tables, t.pointers, Shift(was, addr), k);
      Shifted(Qword(t.tables, t.pointers[k]), was, addr);
    }
    forall q | 0 <= q < |t.tables| && Unpointed(t.pointers, q) ensures r.tables[q] == t.tables[q] {
      MoveThere(t.tables, t.pointers, Shift(was, addr), q);
    }
  }

  /** No listed pointer covers byte `q`. */
  predicate Unpointed(pointers: seq<nat>, q: nat) {
    forall i :: 0 <= i < |pointers| ==> !(pointers[i] <= q < pointers[i] + 8)
  }

  lemma Shifted(n: nat, was: nat, addr: nat)
    requires was < U64_SPAN && addr < U64_SPAN
    ensures (n + Shift(was, addr)) % U64_SPAN == (n + U64_SPAN - was + addr) % U64_SPAN
  {
    var d := U64_SPAN - was + addr;
    if d >= U64_SPAN {
      OneLess(d);
      OneLess(n + d);
    }
  }

  lemma OneLess(n: nat)
    requires n >= U64_SPAN
    ensures (n - U64_SPAN) % U64_SPAN == n % U64_SPAN
  {
  }

  // ---------------------------------------------------------------------------- checksums

  lemma {:induction false} FixAllThere(b: seq<byte>, ranges: seq<Range>, q: nat)
    requires Covered(b, ranges) && q < |b| && forall i :: 0 <= i < |ranges| ==> q != ranges[i].start + 9
    ensures FixAll(b, ranges)[q] == b[q]
    decreases |ranges|
  {
    if ranges != [] {
      assert RangeIn(b, ranges[0]);
      assert FixRange(b, ranges[0])[q] == b[q] by { hide Sum8, Sub8; }
      hide FixRange;
      FixAllThere(FixRange(b, ranges[0]), ranges[1..], q);
    }
  }

  /** No listed table has its checksum at byte `q`. */
  predicate Unsummed(ranges: seq<Range>, q: nat) {
    forall i :: 0 <= i < |ranges| ==> q != ranges[i].start + 9
  }

  /** Mending: every listed table sums to zero and only byte 9 of each has changed; the first 20 bytes of the root
      pointer and all 36 do, and only its bytes 8 and 32 have. */
  lemma ChecksumBytes(t: Table)
    requires WellFormed(t) && Covered(t.tables, t.checksums)
    ensures var r := UpdateChecksums(t);
            && |r.rsdp| == 36 && Sum8(r.rsdp[..20]) == 0 && Sum8(r.rsdp) == 0
            && (forall q :: 0 <= q < 36 && q != 8 && q != 32 ==> r.rsdp[q] == t.rsdp[q])
            && |r.tables| == |t.tables|
            && (forall k :: 0 <= k < |t.checksums| ==>
                  Sum8(r.tables[t.checksums[k].start..t.checksums[k].start + t.checksums[k].len]) == 0)
            && (forall q :: 0 <= q < |t.tables| && Unsummed(t.checksums, q) ==> r.tables[q] == t.tables[q])
  {
    hide Sum8, FixAll;
    RsdpSumsToZero(t.rsdp);
    forall k | 0 <= k < |t.checksums|
      ensures Sum8(FixAll(t.tables, t.checksums)[t.checksums[k].start..t.checksums[k].start + t.checksums[k].len]) == 0
    {
      TablesSumToZero(t.tables, t.checksums, k);
    }
    forall q | 0 <= q < |t.tables| && Unsummed(t.checksums, q)
      ensures FixAll(t.tables, t.checksums)[q] == t.tables[q]
    {
      FixAllThere(t.tables, t.checksums, q);
    }
  }

  // ------------------------------------------------------------------------------ records

  /** The name at `p` in a field of 56 bytes: its first 55 bytes, then NULs. */
  ghost predicate NameAt(r: seq<byte>, p: nat, name: Name) {
    p + 56 <= |r| && forall i :: 0 <= i < 56 ==> r[p + i] == if i < |name| && i < 55 then name[i] else 0
  }

  lemma NamePlaced(r: seq<byte>, p: nat, name: Name)
    requires p + 56 <= |r| && r[p..p + 56] == FileName(name)
    ensures NameAt(r, p, name)
  {
    forall i | 0 <= i < 56 ensures r[p + i] == if i < |name| && i < 55 then name[i] else 0 {
      assert r[p + i] == r[p..p + 56][i];
    }
  }

  lemma DwordPlaced(r: seq<byte>, p: nat, n: nat)
    requires n < U32_SPAN && p + 4 <= |r| && r[p..p + 4] == Le32(n)
    ensures Dword(r, p) == n
  {
    hide Le32, Get32, Dword;
    Get32Le32(n);
    DwordIs(r, p);
  }

  /** Where the fields of a record lie: 1, 2 or 3 at 0, names at 4 and 60 and numbers after them, 128 bytes in all. */
  lemma RecordBytes(c: Command)
    requires CommandFits(c)
    ensures var r := Encode(c);
            && |r| == 128
            && match c
               case Allocate(file, align, zone) =>
                 Dword(r, 0) == 1 && NameAt(r, 4, file) && Dword(r, 60) == align && r[64] == zone
               case AddPointer(dst, src, offset, size) =>
                 && Dword(r, 0) == 2 && NameAt(r, 4, dst) && NameAt(r, 60, src) && Dword(r, 116) == offset
                 && r[120] == size
               case AddChecksum(file, offset, start, len) =>
                 && Dword(r, 0) == 3 && NameAt(r, 4, file) && Dword(r, 60) == offset && Dword(r, 64) == start
                 && Dword(r, 68) == len
  {
    hide Le32, FileName, NameAt, Dword;
    var r := Encode(c);
    match c
    case Allocate(file, align, zone) =>
      assert r[0..4] == Le32(1) && r[4..60] == FileName(file) && r[60..64] == Le32(align) && r[64] == zone;
      DwordPlaced(r, 0, 1);
      NamePlaced(r, 4, file);
      DwordPlaced(r, 60, align);
    case AddPointer(dst, src, offset, size) =>
      assert r[0..4] == Le32(2) && r[4..60] == FileName(dst) && r[60..116] == FileName(src);
      assert r[116..120] == Le32(offset) && r[120] == size;
      DwordPlaced(r, 0, 2);
      NamePlaced(r, 4, dst);
      NamePlaced(r, 60, src);
      DwordPlaced(r, 116, offset);
    case AddChecksum(file, offset, start, len) =>
      assert r[0..4] == Le32(3) && r[4..60] == FileName(file) && r[60..64] == Le32(offset);
      assert r[64..68] == Le32(start) && r[68..72] == Le32(len);
      DwordPlaced(r, 0, 3);
      NamePlaced(r, 4, file);
      DwordPlaced(r, 60, offset);
      DwordPlaced(r, 64, start);
      DwordPlaced(r, 68, len);
  }

  /** The script begins by placing the root pointer in zone 2 and the tables in zone 1, both aligned to four. */
  lemma ScriptZones(pointers: seq<nat>, ranges: seq<Range>)
    ensures var cs := Commands(pointers, ranges);
            |cs| >= 2 && cs[0] == Allocate(RSDP_FILE, 4, 2) && cs[1] == Allocate(TABLES_FILE, 4, 1)
  {
  }
}
