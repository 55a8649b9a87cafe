/**
 ACPI tables in one buffer with a root pointer: moving them to an address and
 mending their checksums.
 */
module Acpi {
  import opened Bytes
  import opened AcpiBytes

  /** A table in the buffer whose bytes must sum to zero. */
  datatype Range = Range(start: nat, len: nat)

  datatype Table = Table(
    rsdp: seq<byte>,        // the root system description pointer
    tables: seq<byte>,
    pointers: seq<nat>,     // offsets of 64-bit addresses into the buffer
    checksums: seq<Range>
  )

  const RSDP_SIZE: nat := 36
  const RSDP_CHECKSUM: nat := 8
  const RSDP_LENGTH: nat := 20   // also the size of the part that the first checksum covers
  const RSDP_XSDT: nat := 24
  const RSDP_EXT_CHECKSUM: nat := 32

  const HEADER_CHECKSUM: nat := 9

  function ChecksumAt(r: Range): nat {
    r.start + HEADER_CHECKSUM
  }

  /** Pointer fields and checksummed tables lie in the buffer, pointer fields and tables do not overlap among
      themselves, no pointer field covers a checksum, and every table is long enough to hold its own. */
  ghost predicate WellFormed(t: Table) {
    && |t.rsdp| == RSDP_SIZE
    && (forall i :: 0 <= i < |t.pointers| ==> t.pointers[i] + 8 <= |t.tables|)
    && (forall i, j :: 0 <= i < j < |t.pointers| ==> Apart(t.pointers[i], 8, t.pointers[j], 8))
    && (forall i :: 0 <= i < |t.checksums| ==>
        t.checksums[i].start + t.checksums[i].len <= |t.tables| && t.checksums[i].len > HEADER_CHECKSUM)
    && (forall i, j :: 0 <= i < j < |t.checksums| ==>
          Apart(t.checksums[i].start, t.checksums[i].len, t.checksums[j].start, t.checksums[j].len))
    && (forall i, j :: 0 <= i < |t.pointers| && 0 <= j < |t.checksums| ==>
        Apart(t.pointers[i], 8, ChecksumAt(t.checksums[j]), 1))
  }

  // ---------------------------------------------------------------------- pointers

  /** The 64-bit number at `p` plus `d`, modulo 2^64. */
  function AddAt(b: seq<byte>, p: nat, d: nat): (r: seq<byte>)
    requires p + 8 <= |b|
    ensures |r| == |b|
  {
    Splice(b, p, Le64((Get64(b[p..p + 8]) + d) % U64_SPAN))
  }

  predicate Inside(b: seq<byte>, pointers: seq<nat>) {
    forall i :: 0 <= i < |pointers| ==> pointers[i] + 8 <= |b|
  }

  function Move(b: seq<byte>, pointers: seq<nat>, d: nat): (r: seq<byte>)
    requires Inside(b, pointers)
    ensures |r| == |b|
    decreases |pointers|
  {
    if pointers == [] then b else Move(AddAt(b, pointers[0], d), pointers[1..], d)
  }

  /** `- before + after`, modulo 2^64. */
  function Shift(before: nat, after: nat): (d: nat)
    requires before < U64_SPAN && after < U64_SPAN
    ensures d < U64_SPAN
  {
    (U64_SPAN - before + after) % U64_SPAN
  }

  function Xsdt(rsdp: seq<byte>): (a: nat)
    requires |rsdp| == RSDP_SIZE
    ensures a < U64_SPAN
  {
    Get64(rsdp[RSDP_XSDT..RSDP_XSDT + 8])
  }

  /** `AcpiTable::relocate`. */
  function Relocate(t: Table, addr: nat): Table
    requires |t.rsdp| == RSDP_SIZE && Inside(t.tables, t.pointers) && addr < U64_SPAN
  {
    t.(rsdp := Splice(t.rsdp, RSDP_XSDT, Le64(addr)), tables := Move(t.tables, t.pointers, Shift(Xsdt(t.rsdp), addr)))
  }

  // --------------------------------------------------------------------- checksums

  /** The byte at `at` lowered by the sum of `len` bytes from `start`. */
  function Fix(b: seq<byte>, at: nat, start: nat, len: nat): (r: seq<byte>)
    requires at < |b| && start + len <= |b|
    ensures |r| == |b|
  {
    b[at := Sub8(b[at], Sum8(b[start..start + len]))]
  }

  predicate Covered(b: seq<byte>, ranges: seq<Range>) {
    forall i :: 0 <= i < |ranges| ==> RangeIn(b, ranges[i])
  }

  predicate RangeIn(b: seq<byte>, r: Range) {
    r.start + r.len <= |b| && r.len > HEADER_CHECKSUM
  }

  function FixRange(b: seq<byte>, r: Range): (f: seq<byte>)
    requires RangeIn(b, r)
    ensures |f| == |b|
  {
    Fix(b, ChecksumAt(r), r.start, r.len)
  }

  function FixAll(b: seq<byte>, ranges: seq<Range>): (r: seq<byte>)
    requires Covered(b, ranges)
    ensures |r| == |b|
    decreases |ranges|
  {
    if ranges == [] then b else assert RangeIn(b, ranges[0]); FixAll(FixRange(b, ranges[0]), ranges[1..])
  }

  function ClearAll(b: seq<byte>, ranges: seq<Range>): (r: seq<byte>)
    requires Covered(b, ranges)
    ensures |r| == |b|
    decreases |ranges|
  {
    if ranges == [] then b else assert RangeIn(b, ranges[0]); ClearAll(b[ChecksumAt(ranges[0]) := 0], ranges[1..])
  }

  /** Both checksums of the root pointer. */
  function FixRsdp(rsdp: seq<byte>): (r: seq<byte>)
    requires |rsdp| == RSDP_SIZE
    ensures |r| == RSDP_SIZE
  {
    Fix(Fix(rsdp, RSDP_CHECKSUM, 0, RSDP_LENGTH), RSDP_EXT_CHECKSUM, 0, RSDP_SIZE)
  }

  /** `AcpiTable::update_checksums`. */
  function UpdateChecksums(t: Table): Table
    requires |t.rsdp| == RSDP_SIZE && Covered(t.tables, t.checksums)
  {
    t.(rsdp := FixRsdp(t.rsdp), tables := FixAll(t.tables, t.checksums))
  }

  /** `AcpiTable::clear_checksums`. */
  function ClearChecksums(t: Table): Table
    requires |t.rsdp| == RSDP_SIZE && Covered(t.tables, t.checksums)
  {
    t.(rsdp := t.rsdp[RSDP_CHECKSUM := 0][RSDP_EXT_CHECKSUM := 0], tables := ClearAll(t.tables, t.checksums))
  }
}
