/**
 The loader script that lets firmware place the ACPI tables itself: its commands, their
 128-byte records, and what firmware does on reading them.
 */
module AcpiLoader {
  import opened Bytes
  import opened Wrappers
  import opened AcpiBytes
  import opened Acpi

  type Name = seq<byte>

  datatype Command =
    | Allocate(file: Name, align: nat, zone: byte)
    | AddPointer(dst: Name, src: Name, offset: nat, size: byte)
    | AddChecksum(file: Name, offset: nat, start: nat, len: nat)

  const COMMAND_ALLOCATE: nat := 1
  const COMMAND_ADD_POINTER: nat := 2
  const COMMAND_ADD_CHECKSUM: nat := 3
  const ALLOC_ZONE_HIGH: byte := 1
  const ALLOC_ZONE_FSEG: byte := 2
  const FILE_NAME_SIZE: nat := 56
  const RECORD_SIZE: nat := 128

  // "acpi/rsdp" and "acpi/tables"
  const RSDP_FILE: Name := [97, 99, 112, 105, 47, 114, 115, 100, 112]
  const TABLES_FILE: Name := [97, 99, 112, 105, 47, 116, 97, 98, 108, 101, 115]

  // ----------------------------------------------------------------------- records

  /** `create_file_name`: at most 55 bytes of the name, then NULs. */
  function FileName(name: Name): (r: seq<byte>)
    ensures |r| == FILE_NAME_SIZE
  {
    var n := if |name| < FILE_NAME_SIZE - 1 then |name| else FILE_NAME_SIZE - 1;
    name[..n] + Zeros(FILE_NAME_SIZE - n)
  }

  predicate CommandFits(c: Command) {
    match c
    case Allocate(_, align, _) => align < U32_SPAN
    case AddPointer(_, _, offset, _) => offset < U32_SPAN
    case AddChecksum(_, offset, start, len) => offset < U32_SPAN && start < U32_SPAN && len < U32_SPAN
  }

  function Encode(c: Command): (r: seq<byte>)
    requires CommandFits(c)
    ensures |r| == RECORD_SIZE
  {
    match c
    case Allocate(file, align, zone) => Le32(COMMAND_ALLOCATE) + FileName(file) + Le32(align) + [zone] + Zeros(63)
    case AddPointer(dst, src, offset, size) =>
      Le32(COMMAND_ADD_POINTER) + FileName(dst) + FileName(src) + Le32(offset) + [size] + Zeros(7)
    case AddChecksum(file, offset, start, len) =>
      Le32(COMMAND_ADD_CHECKSUM) + FileName(file) + Le32(offset) + Le32(start) + Le32(len) + Zeros(56)
  }

  /** The name in a NUL-padded field. */
  function NameIn(field: seq<byte>): Name {
    if field == [] || field[0] == 0 then [] else [field[0]] + NameIn(field[1..])
  }

  /** Firmware's reading of a record. */
  function Decode(r: seq<byte>): Option<Command>
    requires |r| == RECORD_SIZE
  {
    var kind := Get32(r[..4]);
    if kind == COMMAND_ALLOCATE then Some(Allocate(NameIn(r[4..60]), Get32(r[60..64]), r[64]))
    else if kind == COMMAND_ADD_POINTER then Some(AddPointer(NameIn(r[4..60]), NameIn(r[60..116]), Get32(r[116..120]),
        r[120]))
    else if kind == COMMAND_ADD_CHECKSUM then
      Some(AddChecksum(NameIn(r[4..60]), Get32(r[60..64]), Get32(r[64..68]), Get32(r[68..72])))
    else None
  }

  // -------------------------------------------------------------------- execution

  /** The files firmware has fetched, and the addresses it has given to allocated ones. */
  datatype Firmware = Firmware(files: map<Name, seq<byte>>, placed: map<Name, nat>)

  /** One command; `home` is where firmware chooses to put each file. */
  function Exec(f: Firmware, c: Command, home: map<Name, nat>): Option<Firmware> {
    match c
    case Allocate(file, _, _) =>
      if file in f.files && file in home then Some(f.(placed := f.placed[file := home[file]])) else None
    case AddPointer(dst, src, offset, size) =>
      if dst in f.placed && src in f.placed && dst in f.files && size == 8 && offset + 8 <= |f.files[dst]| then
        Some(f.(files := f.files[dst := AddAt(f.files[dst], offset, f.placed[src])]))
      else None
    case AddChecksum(file, offset, start, len) =>
      if file in f.placed && file in f.files && offset < |f.files[file]| && start + len <= |f.files[file]| then
        Some(f.(files := f.files[file := Fix(f.files[file], offset, start, len)]))
      else None
  }

  /** Running a script of records to its end. */
  function Run(f: Firmware, script: seq<byte>, home: map<Name, nat>): Option<Firmware>
    decreases |script|
  {
    if |script| < RECORD_SIZE then if script == [] then Some(f) else None
    else
      match Decode(script[..RECORD_SIZE])
      case None => None
      case Some(c) =>
        match Exec(f, c, home)
        case None => None
        case Some(g) => Run(g, script[RECORD_SIZE..], home)
  }

  // ---------------------------------------------------------------------- the script

  function PointerCommands(pointers: seq<nat>): seq<Command> {
    seq(|pointers|, i requires 0 <= i < |pointers| => AddPointer(TABLES_FILE, TABLES_FILE, Low32(pointers[i]), 8))
  }

  function ChecksumCommands(ranges: seq<Range>): seq<Command> {
    seq(|ranges|, i requires 0 <= i < |ranges| =>
      AddChecksum(TABLES_FILE, Low32(ChecksumAt(ranges[i])), Low32(ranges[i].start), Low32(ranges[i].len)))
  }

  /** The commands of `create_acpi_loader`, in order. */
  function Commands(pointers: seq<nat>, ranges: seq<Range>): seq<Command> {
    [Allocate(RSDP_FILE, 4, ALLOC_ZONE_FSEG), Allocate(TABLES_FILE, 4, ALLOC_ZONE_HIGH)]
    + PointerCommands(pointers)
    + ChecksumCommands(ranges)
    + [AddPointer(RSDP_FILE, TABLES_FILE, RSDP_XSDT, 8),
       AddChecksum(RSDP_FILE, RSDP_CHECKSUM, 0, RSDP_LENGTH),
       AddChecksum(RSDP_FILE, RSDP_EXT_CHECKSUM, 0, RSDP_SIZE)]
  }

  ghost predicate AllFit(cs: seq<Command>) {
    forall i :: 0 <= i < |cs| ==> CommandFits(cs[i])
  }

  function EncodeAll(cs: seq<Command>): seq<byte>
    requires AllFit(cs)
  {
    if cs == [] then [] else assert CommandFits(cs[0]); Encode(cs[0]) + EncodeAll(cs[1..])
  }

  lemma CommandsFit(pointers: seq<nat>, ranges: seq<Range>)
    ensures AllFit(Commands(pointers, ranges))
  {
  }

  /** What `create_acpi_loader` hands to firmware. */
  datatype Bundle = Bundle(script: seq<byte>, rsdp: seq<byte>, tables: seq<byte>)

  function Loader(t: Table): Bundle
    requires |t.rsdp| == RSDP_SIZE && Inside(t.tables, t.pointers) && Covered(t.tables, t.checksums)
  {
    CommandsFit(t.pointers, t.checksums);
    var cleared := ClearChecksums(Relocate(t, 0));
    Bundle(EncodeAll(Commands(t.pointers, t.checksums)), cleared.rsdp, cleared.tables)
  }
}
