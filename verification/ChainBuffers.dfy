/**
 The buffers of a chain in host memory: `get_avail` after it has found the descriptors. Indirect tables are read
 from guest memory, buffers are sorted by direction, and each is translated to host pieces.
 */
module ChainBuffers {
  import opened Bytes
  import opened Wrappers
  import opened SlotIndex
  import opened QueueSpec
  import opened Rings
  import opened IndirectTables
  import FlatRam
  import R = Ram

  // ----------------------------------------------------------------- descriptors as bytes

  /** A little-endian number. */
  function Number(b: seq<byte>): nat {
    if b == [] then 0 else (b[0] as nat) + 256 * Number(b[1..])
  }

  function Digit(one: bool): nat {
    if one then 1 else 0
  }

  function Odd(n: nat): bool {
    n % 2 == 1
  }

  function Over(n: nat, k: nat): nat
    requires k > 0
  {
    n / k
  }

  function Under(n: nat, k: nat): nat
    requires k > 0
  {
    n % k
  }

  /** The flags in a 16-bit number, from its lowest bit up. */
  function Flags(n: nat): DescFlag {
    var up1 := Over(n, 2);
    var up2 := Over(up1, 2);
    var up3 := Over(up2, 2);
    var up7 := Over(up3, 16);
    var up8 := Over(up7, 2);
    DescFlag(Odd(n), Odd(up1), Odd(up2), Odd(up7), Odd(Over(up8, 128)), 8 * Under(up3, 16) + 256 * Under(up8, 128))
  }

  /** The sixteen bytes of a descriptor; packed ones have their id where split ones have their flags. */
  function DescOf(kind: Kind, b: seq<byte>): SplitDesc
    requires |b| == DESC_SIZE
  {
    var third, fourth := Number(b[12..14]), Number(b[14..16]);
    match kind
    case Packed => SplitDesc(Number(b[..8]), Number(b[8..12]), Flags(fourth), third)
    case Split => SplitDesc(Number(b[..8]), Number(b[8..12]), Flags(third), fourth)
  }

  /** What the driver writes, section 2.7.5 and 2.8.13 of Virtio 1.2. */
  function Digits(n: nat, k: nat): (b: seq<byte>)
    ensures |b| == k
    decreases k
  {
    if k == 0 then [] else [n % 256] + Digits(n / 256, k - 1)
  }

  /** The bits that the device does not know: 3 to 6, and 8 to 14. */
  function LowRest(f: DescFlag): nat {
    f.rest / 8 % 16
  }

  function HighRest(f: DescFlag): nat {
    f.rest / 256 % 128
  }

  function FlagNumber(f: DescFlag): nat {
    var up7 := Digit(f.avail) + 2 * (HighRest(f) + 128 * Digit(f.used));
    Digit(f.next) + 2 * (Digit(f.write) + 2 * (Digit(f.indirect) + 2 * (LowRest(f) + 16 * up7)))
  }

  function DescBytes(kind: Kind, d: SplitDesc): (b: seq<byte>)
    ensures |b| == DESC_SIZE
  {
    var flag, other := Digits(FlagNumber(d.flag), 2), Digits(d.next, 2);
    Digits(d.addr, 8) + Digits(d.len, 4) + match kind case Packed => other + flag case Split => flag + other
  }

  function Span(k: nat): nat {
    if k == 0 then 1 else 256 * Span(k - 1)
  }

  /** The fields fit their places, and the unknown flags are none of the known ones. */
  predicate DescFits(d: SplitDesc) {
    && d.addr < Span(8) && d.len < Span(4) && d.next < Span(2)
    && d.flag.rest == 8 * LowRest(d.flag) + 256 * HighRest(d.flag)
  }

  lemma {:induction false} NumberBack(n: nat, k: nat)
    requires n < Span(k)
    ensures Number(Digits(n, k)) == n
    decreases k
  {
    if k > 0 {
      NumberBack(n / 256, k - 1);
      assert Digits(n, k)[1..] == Digits(n / 256, k - 1);
    }
  }

  lemma FlagsBack(f: DescFlag)
    requires f.rest == 8 * LowRest(f) + 256 * HighRest(f)
    ensures FlagNumber(f) < 0x1_0000 && Flags(FlagNumber(f)) == f
  {
    hide LowRest, HighRest, Odd, Over, Under;
    FlagBound(f);
    var up8 := HighRest(f) + 128 * Digit(f.used);
    var up7 := Digit(f.avail) + 2 * up8;
    var up3 := LowRest(f) + 16 * up7;
    var up2 := Digit(f.indirect) + 2 * up3;
    var up1 := Digit(f.write) + 2 * up2;
    PeelHigh(HighRest(f), Digit(f.used));
    PeelBit(f.used, 0);
    PeelBit(f.avail, up8);
    PeelLow(LowRest(f), up7);
    PeelBit(f.indirect, up3);
    PeelBit(f.write, up2);
    PeelBit(f.next, up1);
  }

  lemma PeelBit(one: bool, up: nat)
    ensures var n := Digit(one) + 2 * up; Over(n, 2) == up && Odd(n) == one
  {
  }

  lemma PeelLow(low: nat, up: nat)
    requires low < 16
    ensures var n := low + 16 * up; Over(n, 16) == up && Under(n, 16) == low
  {
  }

  lemma PeelHigh(high: nat, up: nat)
    requires high < 128
    ensures var n := high + 128 * up; Over(n, 128) == up && Under(n, 128) == high
  {
  }

  lemma FlagBound(f: DescFlag)
    ensures LowRest(f) < 16 && HighRest(f) < 128
  {
  }

  /** The device reads back every descriptor that the driver writes. */
  lemma DescBack(kind: Kind, d: SplitDesc)
    requires DescFits(d)
    ensures DescOf(kind, DescBytes(kind, d)) == d
  {
    hide Digits, Number, Span, FlagNumber, Flags;
    FlagsBack(d.flag);
    SpanTwo();
    NumberBack(d.addr, 8);
    NumberBack(d.len, 4);
    NumberBack(d.next, 2);
    NumberBack(FlagNumber(d.flag), 2);
    var b, flag, other := DescBytes(kind, d), Digits(FlagNumber(d.flag), 2), Digits(d.next, 2);
    assert b[..8] == Digits(d.addr, 8) && b[8..12] == Digits(d.len, 4);
    assert b[12..14] == if kind.Packed? then other else flag;
    assert b[14..16] == if kind.Packed? then flag else other;
  }

  lemma SpanTwo()
    ensures Span(2) == 0x1_0000
  {
    assert Span(1) == 256;
  }

  lemma NumberPair(b: seq<byte>)
    requires |b| >= 2
    ensures Number(b) == (b[0] as nat) + 0x100 * (b[1] as nat) + 0x1_0000 * Number(b[2..])
  {
    assert b[1..][1..] == b[2..];
  }

  lemma NumberFour(b: seq<byte>)
    requires |b| >= 4
    ensures Number(b) == (b[0] as nat) + 0x100 * (b[1] as nat) + 0x1_0000 * (b[2] as nat) + 0x100_0000 * (b[3] as nat)
                         + 0x1_0000_0000 * Number(b[4..])
  {
    hide Number;
    NumberPair(b);
    NumberPair(b[2..]);
    assert b[2..][2..] == b[4..];
  }

  lemma NoNumber()
    ensures Number([]) == 0
  {
  }

  /** The number in two, four and eight bytes. */
  function Two(b: seq<byte>, p: nat): nat
    requires p + 2 <= |b|
  {
    (b[p] as nat) + 0x100 * (b[p + 1] as nat)
  }

  function Four(b: seq<byte>, p: nat): nat
    requires p + 4 <= |b|
  {
    Two(b, p) + 0x1_0000 * Two(b, p + 2)
  }

  lemma NumberAt(b: seq<byte>, p: nat)
    ensures p + 2 <= |b| ==> Number(b[p..p + 2]) == Two(b, p)
    ensures p + 4 <= |b| ==> Number(b[p..p + 4]) == Four(b, p)
    ensures p + 8 <= |b| ==> Number(b[p..p + 8]) == Four(b, p) + 0x1_0000_0000 * Four(b, p + 4)
  {
    hide Number;
    NoNumber();
    if p + 2 <= |b| {
      NumberPair(b[p..p + 2]);
      assert b[p..p + 2][2..] == [];
    }
    if p + 4 <= |b| {
      NumberFour(b[p..p + 4]);
      assert b[p..p + 4][4..] == [];
    }
    if p + 8 <= |b| {
      NumberFour(b[p..p + 8]);
      assert b[p..p + 8][4..] == b[p + 4..p + 8];
      NumberFour(b[p + 4..p + 8]);
      assert b[p + 4..p + 8][4..] == [];
    }
  }

  /** Where the fields of a descriptor lie: little-endian, address at 0 and length at 8; then flags at 12 and link at 14
      in a split ring, id at 12 and flags at 14 in a packed one. Of the flags, bit 0 is next, 1 is write, 2 is
      indirect, 7 is available and 15 is used. */
  lemma DescLayout(kind: Kind, b: seq<byte>)
    requires |b| == 16
    ensures var d, p := DescOf(kind, b), if kind.Packed? then 14 else 12;
            && d.addr == Four(b, 0) + 0x1_0000_0000 * Four(b, 4) && d.len == Four(b, 8)
            && d.next == Two(b, if kind.Packed? then 12 else 14)
            && d.flag.next == (b[p] % 2 == 1) && d.flag.write == (b[p] / 2 % 2 == 1)
            && d.flag.indirect == (b[p] / 4 % 2 == 1)
            && d.flag.avail == (b[p] / 128 == 1) && d.flag.used == (b[p + 1] / 128 == 1)
  {
    hide Number, Flags;
    NumberAt(b, 0);
    NumberAt(b, 8);
    NumberAt(b, 12);
    NumberAt(b, 14);
    assert b[..8] == b[0..8];
    var p := if kind.Packed? then 14 else 12;
    FlagPlaces(b[p], b[p + 1]);
  }

  lemma FlagPlaces(lo: byte, hi: byte)
    ensures var f := Flags((lo as nat) + 0x100 * (hi as nat));
            && f.next == (lo % 2 == 1) && f.write == (lo / 2 % 2 == 1) && f.indirect == (lo / 4 % 2 == 1)
            && f.avail == (lo / 128 == 1) && f.used == (hi / 128 == 1)
  {
    hide Flags;
    var q1, q2, q3 := lo / 2, lo / 4, lo / 8;
    ByteSplit(lo);
    FlagSum(lo as nat % 2, q1 as nat % 2, q2 as nat % 2, q3 as nat % 16, lo as nat / 128,
        hi as nat % 128, hi as nat / 128);
  }

  lemma FlagSum(b0: nat, b1: nat, b2: nat, low: nat, b7: nat, high: nat, b15: nat)
    requires b0 < 2 && b1 < 2 && b2 < 2 && low < 16 && b7 < 2 && high < 128 && b15 < 2
    ensures var f := Flags(b0 + 2 * b1 + 4 * b2 + 8 * low + 128 * b7 + 256 * high + 0x8000 * b15);
            && f.next == (b0 == 1) && f.write == (b1 == 1) && f.indirect == (b2 == 1)
            && f.avail == (b7 == 1) && f.used == (b15 == 1)
  {
    hide Flags, LowRest, HighRest;
    var f := DescFlag(b0 == 1, b1 == 1, b2 == 1, b7 == 1, b15 == 1, 8 * low + 256 * high);
    RestSplit(f, low, high);
    FlagsBack(f);
  }

  lemma RestSplit(f: DescFlag, low: nat, high: nat)
    requires low < 16 && high < 128 && f.rest == 8 * low + 256 * high
    ensures LowRest(f) == low && HighRest(f) == high
  {
    assert f.rest / 8 == low + 32 * high;
  }

  lemma ByteSplit(b: byte)
    ensures var q1, q2, q3, q7 := b / 2, b / 4, b / 8, b / 128;
            && b == b % 2 + 2 * q1 && q1 == q1 % 2 + 2 * q2 && q2 == q2 % 2 + 2 * q3 && q3 == q3 % 16 + 16 * q7
            && 0 <= q7 <= 1
  {
  }

  /** The descriptor at `at`, if all of its bytes are mapped. */
  ghost function EntryAt(kind: Kind, slots: FlatRam.RamSlots, memory: seq<byte>, at: nat): Option<SplitDesc>
    requires Sorted(slots) && FlatRam.AllBacked(slots, |memory|)
  {
    FlatRam.HostsInside(slots, |memory|, at, DESC_SIZE);
    var hs := FlatRam.Hosts(slots, at, DESC_SIZE);
    if at + DESC_SIZE <= U64_SPAN && |hs| == DESC_SIZE then Some(DescOf(kind, FlatRam.Gather(memory, hs))) else None
  }

  /** Every descriptor that can be read from guest memory. */
  ghost function TablesIn(kind: Kind, slots: FlatRam.RamSlots, memory: seq<byte>): Tables
    requires Sorted(slots) && FlatRam.AllBacked(slots, |memory|)
  {
    map at: nat | at < U64_SPAN && EntryAt(kind, slots, memory, at).Some? :: EntryAt(kind, slots, memory, at).value
  }

  lemma TableEntry(kind: Kind, slots: FlatRam.RamSlots, memory: seq<byte>, at: nat)
    requires Sorted(slots) && FlatRam.AllBacked(slots, |memory|)
    ensures var entry, tables := EntryAt(kind, slots, memory, at), TablesIn(kind, slots, memory);
            (at in tables <==> entry.Some?) && (at in tables ==> tables[at] == entry.value)
  {
    hide Sorted, FlatRam.Hosts, DescOf;
  }

  /** `read_t` of a descriptor. */
  method ReadEntry(kind: Kind, ram: R.Ram, at: nat) returns (r: Option<SplitDesc>)
    requires ram.Valid()
    ensures r == EntryAt(kind, ram.inner.slots, ram.host[..], at)
  {
    hide Sorted, FlatRam.Hosts, FlatRam.Gather, DescOf;
    if at + DESC_SIZE > U64_SPAN {
      return None;
    }
    var buf := new byte[DESC_SIZE];
    var done := ram.Read(at, buf);
    if done.Err? {
      return None;
    }
    ghost var hs := FlatRam.Hosts(ram.inner.slots, at, DESC_SIZE);
    assert buf[..] == FlatRam.Gather(ram.host[..], hs);
    return Some(DescOf(kind, buf[..]));
  }

  // -------------------------------------------------------------------- indirect tables

  lemma {:induction false} PackedStays(memory: Tables, addr: nat, n: nat, m: nat)
    requires n <= m && PackedTable(memory, addr, n) == None
    ensures PackedTable(memory, addr, m) == None
    decreases m
  {
    if n < m {
      PackedStays(memory, addr, n, m - 1);
    }
  }

  /** The inner loop of a packed ring's `get_avail`. */
  method PackedFrom(ram: R.Ram, addr: nat, n: nat) returns (r: Option<seq<Buf>>)
    requires ram.Valid()
    ensures r == PackedTable(TablesIn(Packed, ram.inner.slots, ram.host[..]), addr, n)
  {
    hide Sorted, EntryAt, TablesIn;
    ghost var memory := TablesIn(Packed, ram.inner.slots, ram.host[..]);
    var bufs: seq<Buf> := [];
    for i := 0 to n
      invariant PackedTable(memory, addr, i) == Some(bufs)
    {
      var at := addr + i * DESC_SIZE;
      TableEntry(Packed, ram.inner.slots, ram.host[..], at);
      var entry := ReadEntry(Packed, ram, at);
      if entry == None {
        PackedStays(memory, addr, i + 1, n);
        return None;
      }
      bufs := bufs + [IndirectTables.Plain(entry.value)];
    }
    return Some(bufs);
  }

  function Before(bufs: seq<Buf>, rest: Option<seq<Buf>>): Option<seq<Buf>> {
    match rest
    case None => None
    case Some(more) => Some(bufs + more)
  }

  lemma BeforeMore(bufs: seq<Buf>, b: Buf, rest: Option<seq<Buf>>)
    ensures Before(bufs, Before([b], rest)) == Before(bufs + [b], rest)
    ensures Before(bufs, Some([b])) == Some(bufs + [b]) && Before([], rest) == rest
  {
    if rest.Some? {
      assert bufs + ([b] + rest.value) == (bufs + [b]) + rest.value;
      assert [] + rest.value == rest.value;
    }
  }

  lemma SplitStep(memory: Tables, addr: nat, id: nat, fuel: nat)
    requires fuel > 0
    ensures var at := addr + id * DESC_SIZE;
            SplitTable(memory, addr, id, fuel)
            == if at !in memory || memory[at].flag.indirect then None
               else if !memory[at].flag.next then Some([IndirectTables.Plain(memory[at])])
               else Before([IndirectTables.Plain(memory[at])], SplitTable(memory, addr, memory[at].next, fuel - 1))
  {
  }

  /** The inner loop of a split ring's `get_avail`, given up on where no table that ends can go on. */
  method SplitFrom(ram: R.Ram, addr: nat) returns (r: Option<seq<Buf>>)
    requires ram.Valid()
    ensures r == SplitTable(TablesIn(Split, ram.inner.slots, ram.host[..]), addr, 0, TABLE_MAX)
  {
    hide Sorted, EntryAt, TablesIn, SplitTable, Before;
    ghost var memory := TablesIn(Split, ram.inner.slots, ram.host[..]);
    ghost var whole := SplitTable(memory, addr, 0, TABLE_MAX);
    var bufs: seq<Buf>, id: nat, left := [], 0, TABLE_MAX;
    BeforeMore([], Buf(0, 0, false, false), whole);
    while left > 0
      invariant whole == Before(bufs, SplitTable(memory, addr, id, left))
    {
      var at := addr + id * DESC_SIZE;
      TableEntry(Split, ram.inner.slots, ram.host[..], at);
      SplitStep(memory, addr, id, left);
      var entry := ReadEntry(Split, ram, at);
      if entry == None || entry.value.flag.indirect {
        BeforeNone(bufs);
        return None;
      }
      var d := entry.value;
      BeforeMore(bufs, IndirectTables.Plain(d), SplitTable(memory, addr, d.next, left - 1));
      bufs := bufs + [IndirectTables.Plain(d)];
      if !d.flag.next {
        return Some(bufs);
      }
      id, left := d.next, left - 1;
    }
    NoFuel(memory, addr, id);
    BeforeNone(bufs);
    return None;
  }

  lemma BeforeNone(bufs: seq<Buf>)
    ensures Before(bufs, None) == None
  {
  }

  lemma NoFuel(memory: Tables, addr: nat, id: nat)
    ensures SplitTable(memory, addr, id, 0) == None
  {
  }

  /** What a descriptor of a chain stands for. */
  method TableFrom(kind: Kind, ram: R.Ram, b: Buf) returns (r: Option<seq<Buf>>)
    requires ram.Valid()
    ensures r == TableOf(kind, TablesIn(kind, ram.inner.slots, ram.host[..]), b)
  {
    hide Sorted, TablesIn, SplitTable, PackedTable;
    if !b.indirect {
      return Some([b]);
    }
    match kind
    case Packed => r := PackedFrom(ram, b.addr, b.len / DESC_SIZE);
    case Split => r := SplitFrom(ram, b.addr);
  }

  // ------------------------------------------------------------------------- the buffers

  /** The loop of `get_avail` that sorts a chain's buffers by direction: fails exactly where the expansion does. */
  method Collect(kind: Kind, ram: R.Ram, bufs: seq<Buf>) returns (r: Option<(seq<Buf>, seq<Buf>)>)
    requires ram.Valid()
    ensures var all := Expand(kind, TablesIn(kind, ram.inner.slots, ram.host[..]), bufs);
            (r.Some? <==> all.Some?) && (r.Some? ==> r.value == (Side(all.value, false), Side(all.value, true)))
  {
    hide Sorted, TableOf, Side, TablesIn;
    ghost var memory := TablesIn(kind, ram.inner.slots, ram.host[..]);
    var readable: seq<Buf>, writable: seq<Buf> := [], [];
    ghost var all: seq<Buf> := [];
    NoSide();
    for i := 0 to |bufs|
      invariant Expand(kind, memory, bufs[..i]) == Some(all)
      invariant readable == Side(all, false) && writable == Side(all, true)
    {
      assert bufs[..i + 1][..i] == bufs[..i];
      var table := TableFrom(kind, ram, bufs[i]);
      if table == None {
        StaysNone(kind, memory, bufs, i + 1);
        return None;
      }
      var more := table.value;
      ghost var before := all;
      for j := 0 to |more|
        invariant all == before + more[..j]
        invariant readable == Side(all, false) && writable == Side(all, true)
      {
        OneSide(all, more[j]);
        if more[j].write {
          writable := writable + [more[j]];
        } else {
          readable := readable + [more[j]];
        }
        assert more[..j + 1] == more[..j] + [more[j]];
        all := all + [more[j]];
      }
      assert more[..|more|] == more;
    }
    assert bufs[..|bufs|] == bufs;
    return Some((readable, writable));
  }

  /** The buffer lies below 2^64 and every byte of it is mapped. */
  ghost predicate Present(slots: FlatRam.RamSlots, b: Buf)
    requires Sorted(slots)
  {
    b.addr + b.len <= U64_SPAN && FlatRam.Mapped(slots, b.addr, b.len)
  }

  ghost predicate AllPresent(slots: FlatRam.RamSlots, bufs: seq<Buf>)
    requires Sorted(slots)
  {
    forall i :: 0 <= i < |bufs| ==> Present(slots, bufs[i])
  }

  /** A chain that a device can work on: every table entry can be read and every byte of its buffers is mapped. */
  ghost predicate Usable(kind: Kind, slots: FlatRam.RamSlots, memory: seq<byte>, bufs: seq<Buf>)
    requires Sorted(slots) && FlatRam.AllBacked(slots, |memory|)
  {
    var all := Expand(kind, TablesIn(kind, slots, memory), bufs);
    all.Some? && AllPresent(slots, all.value)
  }

  lemma {:induction false} SidesPresent(slots: FlatRam.RamSlots, all: seq<Buf>)
    requires Sorted(slots)
    ensures AllPresent(slots, all) <==> AllPresent(slots, Side(all, false)) && AllPresent(slots, Side(all, true))
    decreases |all|
  {
    hide Sorted, Present, Side;
    NoSide();
    if all != [] {
      var n := |all| - 1;
      var b := all[n];
      SidesPresent(slots, all[..n]);
      assert all == all[..n] + [b];
      OneSide(all[..n], b);
      MorePresent(slots, all[..n], b);
      MorePresent(slots, Side(all[..n], b.write), b);
    }
  }

  lemma MorePresent(slots: FlatRam.RamSlots, bufs: seq<Buf>, b: Buf)
    requires Sorted(slots)
    ensures AllPresent(slots, bufs + [b]) <==> AllPresent(slots, bufs) && Present(slots, b)
  {
    hide Sorted, Present;
    var all := bufs + [b];
    if AllPresent(slots, all) {
      assert all[|bufs|] == b;
      assert forall i :: 0 <= i < |bufs| ==> all[i] == bufs[i];
    }
  }

  function Iov(bufs: seq<Buf>): (iov: seq<(nat, nat)>)
    ensures |iov| == |bufs| && forall i :: 0 <= i < |bufs| ==> iov[i] == (bufs[i].addr, bufs[i].len)
  {
    seq(|bufs|, i requires 0 <= i < |bufs| => (bufs[i].addr, bufs[i].len))
  }

  /** `translate_iov` of the buffers of one direction. */
  method TranslateSide(ram: R.Ram, bufs: seq<Buf>) returns (r: Option<seq<(nat, nat)>>)
    requires ram.Valid()
    ensures r.Some? <==> AllPresent(ram.inner.slots, bufs)
    ensures r.Some? ==> R.Flatten(r.value) == R.IovHosts(ram.inner.slots, Iov(bufs)) && R.NoneEmpty(r.value)
    ensures r.Some? ==> R.Delivered(ram.inner.slots, Iov(bufs), r.value)
  {
    hide Sorted, FlatRam.Hosts, R.Flatten, R.IovHosts, R.Delivered, FlatRam.HostAt;
    for i := 0 to |bufs|
      invariant forall j :: 0 <= j < i ==> bufs[j].addr + bufs[j].len <= U64_SPAN
    {
      if bufs[i].addr + bufs[i].len > U64_SPAN {
        assert !Present(ram.inner.slots, bufs[i]);
        return None;
      }
    }
    var iov := Iov(bufs);
    forall i | 0 <= i < |bufs|
      ensures Present(ram.inner.slots, bufs[i])
              <==> |FlatRam.Hosts(ram.inner.slots, iov[i].0, iov[i].1)| == iov[i].1
    {
      FlatRam.HostsMapped(ram.inner.slots, bufs[i].addr, bufs[i].len);
    }
    var done := ram.TranslateIov(iov);
    match done
    case Ok(pieces) =>
      assert forall i :: 0 <= i < |bufs| ==> |FlatRam.Hosts(ram.inner.slots, iov[i].0, iov[i].1)| == iov[i].1;
      return Some(pieces);
    case Err(_) =>
      return None;
  }

  /** `iov` holds the host addresses of the readable and of the writable buffers, byte by byte and in the driver's
      order. */
  ghost predicate Works(kind: Kind, slots: FlatRam.RamSlots, memory: seq<byte>, bufs: seq<Buf>,
                        iov: (seq<(nat, nat)>, seq<(nat, nat)>))
    requires Sorted(slots) && FlatRam.AllBacked(slots, |memory|)
  {
    && Usable(kind, slots, memory, bufs)
    && var all := Expand(kind, TablesIn(kind, slots, memory), bufs).value;
    && R.Flatten(iov.0) == R.IovHosts(slots, Iov(Side(all, false)))
    && R.Flatten(iov.1) == R.IovHosts(slots, Iov(Side(all, true)))
    && R.NoneEmpty(iov.0) && R.NoneEmpty(iov.1)
    && Picked(all, false, Side(all, false)) && R.Delivered(slots, Iov(Side(all, false)), iov.0)
    && Picked(all, true, Side(all, true)) && R.Delivered(slots, Iov(Side(all, true)), iov.1)
  }

  /** The end of `get_avail`: fails if and only if a table entry cannot be read or a byte of a buffer is not mapped, and
      otherwise gives the host pieces of the readable and of the writable buffers, in the driver's order. */
  method Translate(kind: Kind, ram: R.Ram, bufs: seq<Buf>) returns (r: Option<(seq<(nat, nat)>, seq<(nat, nat)>)>)
    requires ram.Valid()
    ensures r.Some? <==> Usable(kind, ram.inner.slots, ram.host[..], bufs)
    ensures r.Some? ==> Works(kind, ram.inner.slots, ram.host[..], bufs, r.value)
  {
    hide Sorted, TablesIn, Expand, Side, AllPresent, Picked, R.Flatten, R.IovHosts, R.Delivered;
    var sides := Collect(kind, ram, bufs);
    if sides == None {
      return None;
    }
    ghost var all := Expand(kind, TablesIn(kind, ram.inner.slots, ram.host[..]), bufs).value;
    SidesPresent(ram.inner.slots, all);
    SideIsPicked(all, false);
    SideIsPicked(all, true);
    var readable := TranslateSide(ram, sides.value.0);
    if readable == None {
      return None;
    }
    var writable := TranslateSide(ram, sides.value.1);
    if writable == None {
      return None;
    }
    return Some((readable.value, writable.value));
  }
}
