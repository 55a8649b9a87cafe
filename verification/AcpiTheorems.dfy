/**
 Moving and mending commute as they must: relocating twice is relocating once, and
 cleared checksums mend to the same bytes as stale ones.
 */
module AcpiTheorems {
  import opened Bytes
  import opened AcpiBytes
  import opened Acpi

  // ---------------------------------------------------------------------- pointers

  lemma AddMod(v: nat, d: nat, e: nat)
    ensures ((v + d) % U64_SPAN + e) % U64_SPAN == (v + (d + e) % U64_SPAN) % U64_SPAN
  {
  }

  lemma AddAtTwice(b: seq<byte>, p: nat, d: nat, e: nat)
    requires p + 8 <= |b|
    ensures AddAt(AddAt(b, p, d), p, e) == AddAt(b, p, (d + e) % U64_SPAN)
  {
    hide Get64, Le64;
    var v := Get64(b[p..p + 8]);
    SpliceRead(b, p, Le64((v + d) % U64_SPAN));
    Get64Le64((v + d) % U64_SPAN);
    AddMod(v, d, e);
  }

  lemma AddAtCommute(b: seq<byte>, p: nat, d: nat, q: nat, e: nat)
    requires p + 8 <= |b| && q + 8 <= |b| && Apart(p, 8, q, 8)
    ensures AddAt(AddAt(b, p, d), q, e) == AddAt(AddAt(b, q, e), p, d)
  {
    hide Get64, Le64;
    var x, y := Le64((Get64(b[p..p + 8]) + d) % U64_SPAN), Le64((Get64(b[q..q + 8]) + e) % U64_SPAN);
    SpliceElsewhere(b, p, x, q, 8);
    SpliceElsewhere(b, q, y, p, 8);
    assert Splice(Splice(b, p, x), q, y) == Splice(Splice(b, q, y), p, x);
  }

  ghost predicate AllApart(pointers: seq<nat>) {
    forall i, j :: 0 <= i < j < |pointers| ==> Apart(pointers[i], 8, pointers[j], 8)
  }

  lemma {:induction false} MoveAfterAdd(b: seq<byte>, p: nat, d: nat, pointers: seq<nat>, e: nat)
    requires p + 8 <= |b| && Inside(b, pointers)
    requires forall i :: 0 <= i < |pointers| ==> Apart(p, 8, pointers[i], 8)
    ensures Move(AddAt(b, p, d), pointers, e) == AddAt(Move(b, pointers, e), p, d)
    decreases |pointers|
  {
    hide AddAt;
    if pointers != [] {
      AddAtCommute(b, p, d, pointers[0], e);
      MoveAfterAdd(AddAt(b, pointers[0], e), p, d, pointers[1..], e);
    }
  }

  /** Moving by `d` and then by `e` is moving by their sum. */
  lemma {:induction false} MoveTwice(b: seq<byte>, pointers: seq<nat>, d: nat, e: nat)
    requires Inside(b, pointers) && AllApart(pointers)
    ensures Move(Move(b, pointers, d), pointers, e) == Move(b, pointers, (d + e) % U64_SPAN)
    decreases |pointers|
  {
    hide AddAt;
    if pointers != [] {
      var p, rest := pointers[0], pointers[1..];
      var b1 := AddAt(b, p, d);
      MoveAfterAdd(b1, p, e, rest, d);
      AddAtTwice(b, p, d, e);
      MoveTwice(AddAt(b1, p, e), rest, d, e);
    }
  }

  lemma ShiftTwice(a: nat, b: nat, c: nat)
    requires a < U64_SPAN && b < U64_SPAN && c < U64_SPAN
    ensures (Shift(a, b) + Shift(b, c)) % U64_SPAN == Shift(a, c)
  {
  }

  /** Relocating is path independent: only the last address matters. */
  lemma RelocateTwice(t: Table, a: nat, b: nat)
    requires WellFormed(t) && a < U64_SPAN && b < U64_SPAN
    ensures |Relocate(t, a).rsdp| == RSDP_SIZE && Inside(Relocate(t, a).tables, t.pointers)
    ensures Relocate(Relocate(t, a), b) == Relocate(t, b)
  {
    hide Le64, Get64, Move, Shift;
    var was := Xsdt(t.rsdp);
    SpliceRead(t.rsdp, RSDP_XSDT, Le64(a));
    Get64Le64(a);
    ShiftTwice(was, a, b);
    MoveTwice(t.tables, t.pointers, Shift(was, a), Shift(a, b));
    assert Splice(Splice(t.rsdp, RSDP_XSDT, Le64(a)), RSDP_XSDT, Le64(b)) == Splice(t.rsdp, RSDP_XSDT, Le64(b));
  }

  // --------------------------------------------------------------------- checksums

  /** The byte that makes a sum vanish does not depend on what it was before. */
  lemma FixForgets(b: seq<byte>, at: nat, start: nat, len: nat, x: byte)
    requires start <= at < start + len <= |b|
    ensures Fix(b[at := x], at, start, len) == Fix(b, at, start, len)
  {
    var s, k := b[start..start + len], at - start;
    assert b[at := x][start..start + len] == s[k := x];
    SumUpdate(s, k, x);
    assert Sub8(x, Sum8(s[k := x])) == Sub8(b[at], Sum8(s)) by { SubSame(x, Sum(s[k := x]), b[at], Sum(s)); }
  }

  lemma SubSame(x: byte, s: nat, y: byte, t: nat)
    requires s + (y as int) == t + (x as int)
    ensures Sub8(x, s % 256) == Sub8(y, t % 256)
  {
    SubIs(x, s);
    SubIs(y, t);
  }

  lemma SubIs(x: byte, s: nat)
    ensures Sub8(x, s % 256) == ((x as int) - s) % 256
  {
    var q, r := s / 256, s % 256;
    var d := (x as int) - r + 256;
    if d >= 256 {
      ModIs(d, 1, d - 256);
      ModIs((x as int) - s, -q, d - 256);
    } else {
      ModIs(d, 0, d);
      ModIs((x as int) - s, -q - 1, d);
    }
  }

  lemma ModIs(n: int, k: int, r: int)
    requires n == 256 * k + r && 0 <= r < 256
    ensures n % 256 == r
  {
  }

  /** After mending, the range sums to zero modulo 256. */
  lemma FixZeroes(b: seq<byte>, at: nat, start: nat, len: nat)
    requires start <= at < start + len <= |b|
    ensures Sum8(Fix(b, at, start, len)[start..start + len]) == 0
  {
    var s, k := b[start..start + len], at - start;
    var x := Sub8(b[at], Sum8(s));
    assert Fix(b, at, start, len)[start..start + len] == s[k := x];
    SumUpdate(s, k, x);
    SubZero(b[at], Sum(s), Sum(s[k := x]));
  }

  lemma SubZero(y: byte, t: nat, s: nat)
    requires s + (y as int) == t + (Sub8(y, t % 256) as int)
    ensures s % 256 == 0
  {
  }

  ghost predicate RangesApart(ranges: seq<Range>) {
    forall i, j :: 0 <= i < j < |ranges| ==> Apart(ranges[i].start, ranges[i].len, ranges[j].start, ranges[j].len)
  }

  /** Clearing elsewhere and mending here commute. */
  lemma {:induction false} FixClearCommute(b: seq<byte>, r: Range, ranges: seq<Range>)
    requires RangeIn(b, r) && Covered(b, ranges)
    requires forall i :: 0 <= i < |ranges| ==> Apart(r.start, r.len, ranges[i].start, ranges[i].len)
    ensures FixRange(ClearAll(b, ranges), r) == ClearAll(FixRange(b, r), ranges)
    decreases |ranges|
  {
    if ranges != [] {
      var c := ChecksumAt(ranges[0]);
      assert RangeIn(b, ranges[0]);
      assert b[c := 0][r.start..r.start + r.len] == b[r.start..r.start + r.len];
      hide Sum8;
      assert FixRange(b[c := 0], r) == FixRange(b, r)[c := 0];
      FixClearCommute(b[c := 0], r, ranges[1..]);
    }
  }

  lemma {:induction false} ClearSwap(b: seq<byte>, c: nat, ranges: seq<Range>)
    requires c < |b| && Covered(b, ranges)
    ensures ClearAll(b[c := 0], ranges) == ClearAll(b, ranges)[c := 0]
    decreases |ranges|
  {
    if ranges != [] {
      assert RangeIn(b, ranges[0]);
      assert b[c := 0][ChecksumAt(ranges[0]) := 0] == b[ChecksumAt(ranges[0]) := 0][c := 0];
      ClearSwap(b[ChecksumAt(ranges[0]) := 0], c, ranges[1..]);
    }
  }

  /** Cleared tables mend to the same bytes as tables with stale checksums. */
  lemma {:induction false} FixAfterClear(b: seq<byte>, ranges: seq<Range>)
    requires Covered(b, ranges) && RangesApart(ranges)
    ensures FixAll(ClearAll(b, ranges), ranges) == FixAll(b, ranges)
    decreases |ranges|
  {
    if ranges != [] {
      var r, rest := ranges[0], ranges[1..];
      assert RangeIn(b, r);
      var c := ChecksumAt(r);
      ClearSwap(b, c, rest);
      var e := ClearAll(b, rest);
      FixForgets(e, c, r.start, r.len, 0);
      assert FixRange(ClearAll(b, ranges), r) == FixRange(e, r);
      FixClearCommute(b, r, rest);
      FixAfterClear(FixRange(b, r), rest);
    }
  }

  lemma {:induction false} FixAllElsewhere(b: seq<byte>, ranges: seq<Range>, p: nat, n: nat)
    requires Covered(b, ranges) && p + n <= |b|
    requires forall i :: 0 <= i < |ranges| ==> Apart(p, n, ranges[i].start, ranges[i].len)
    ensures FixAll(b, ranges)[p..p + n] == b[p..p + n]
    decreases |ranges|
  {
    if ranges != [] {
      assert RangeIn(b, ranges[0]);
      assert FixRange(b, ranges[0])[p..p + n] == b[p..p + n];
      FixAllElsewhere(FixRange(b, ranges[0]), ranges[1..], p, n);
    }
  }

  /** Every listed table sums to zero once all are mended. */
  lemma {:induction false} TablesSumToZero(b: seq<byte>, ranges: seq<Range>, k: nat)
    requires Covered(b, ranges) && RangesApart(ranges) && k < |ranges|
    ensures Sum8(FixAll(b, ranges)[ranges[k].start..ranges[k].start + ranges[k].len]) == 0
    decreases k
  {
    assert RangeIn(b, ranges[0]);
    var r, rest := ranges[0], ranges[1..];
    var b1 := FixRange(b, r);
    hide Sum8, FixRange;
    if k == 0 {
      RangeZeroes(b, r);
      FixAllElsewhere(b1, rest, r.start, r.len);
    } else {
      TablesSumToZero(b1, rest, k - 1);
    }
  }

  lemma RangeZeroes(b: seq<byte>, r: Range)
    requires RangeIn(b, r)
    ensures Sum8(FixRange(b, r)[r.start..r.start + r.len]) == 0
  {
    FixZeroes(b, ChecksumAt(r), r.start, r.len);
  }

  /** Both ranges of the root pointer sum to zero, section 5.2.5.3 of ACPI 6.4. */
  lemma RsdpSumsToZero(rsdp: seq<byte>)
    requires |rsdp| == RSDP_SIZE
    ensures Sum8(FixRsdp(rsdp)[..RSDP_LENGTH]) == 0 && Sum8(FixRsdp(rsdp)) == 0
  {
    var r1 := Fix(rsdp, RSDP_CHECKSUM, 0, RSDP_LENGTH);
    FixZeroes(rsdp, RSDP_CHECKSUM, 0, RSDP_LENGTH);
    FixZeroes(r1, RSDP_EXT_CHECKSUM, 0, RSDP_SIZE);
    var r2 := Fix(r1, RSDP_EXT_CHECKSUM, 0, RSDP_SIZE);
    assert r2[0..RSDP_SIZE] == r2 && r2[..RSDP_LENGTH] == r1[0..RSDP_LENGTH];
  }

  // -------------------------------------------------------- moving and clearing

  lemma AddClearCommute(b: seq<byte>, p: nat, d: nat, c: nat)
    requires p + 8 <= |b| && c < |b| && Apart(p, 8, c, 1)
    ensures AddAt(b[c := 0], p, d) == AddAt(b, p, d)[c := 0]
  {
    hide Get64, Le64;
    assert b[c := 0][p..p + 8] == b[p..p + 8];
    var x := Le64((Get64(b[p..p + 8]) + d) % U64_SPAN);
    assert Splice(b[c := 0], p, x) == Splice(b, p, x)[c := 0];
  }

  lemma {:induction false} MoveClearByte(b: seq<byte>, pointers: seq<nat>, d: nat, c: nat)
    requires Inside(b, pointers) && c < |b| && forall i :: 0 <= i < |pointers| ==> Apart(pointers[i], 8, c, 1)
    ensures Move(b[c := 0], pointers, d) == Move(b, pointers, d)[c := 0]
    decreases |pointers|
  {
    hide AddAt;
    if pointers != [] {
      AddClearCommute(b, pointers[0], d, c);
      MoveClearByte(AddAt(b, pointers[0], d), pointers[1..], d, c);
    }
  }

  /** Pointer fields and checksum bytes do not meet, so moving and clearing commute. */
  lemma {:induction false} MoveClearCommute(b: seq<byte>, pointers: seq<nat>, d: nat, ranges: seq<Range>)
    requires Inside(b, pointers) && Covered(b, ranges)
    requires forall i, j :: 0 <= i < |pointers| && 0 <= j < |ranges| ==> Apart(pointers[i], 8, ChecksumAt(ranges[j]), 1)
    ensures Move(ClearAll(b, ranges), pointers, d) == ClearAll(Move(b, pointers, d), ranges)
    decreases |ranges|
  {
    hide Move;
    if ranges != [] {
      assert RangeIn(b, ranges[0]);
      MoveClearByte(b, pointers, d, ChecksumAt(ranges[0]));
      MoveClearCommute(b[ChecksumAt(ranges[0]) := 0], pointers, d, ranges[1..]);
    }
  }
}
