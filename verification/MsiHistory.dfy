/**
 What interrupt messages look like in terms of what the guest wrote, by the layout of section 6.8.1 of PCI Local
 Bus 3.0: control at 2, address at 4, upper address at 8 if there is one, then data, then mask bits.
 */
module MsiHistory {
  import opened Powers
  import opened Msi

  // ----------------------------------------------------------------------- kinds of writes

  datatype What =
    | WordAt(offset: nat)   // four bytes there
    | DataAt(offset: nat)   // two or four bytes there
    | Controls              // the control register, alone or with the header before it
    | Switches              // that, or a reset

  predicate IsControl(op: Op) {
    op.Write? && ((op.offset == 2 && op.size == 2) || (op.offset == 0 && op.size == 4))
  }

  predicate Is(op: Op, what: What) {
    match what
    case WordAt(offset) => op.Write? && op.offset == offset && op.size == 4
    case DataAt(offset) => op.Write? && op.offset == offset && (op.size == 2 || op.size == 4)
    case Controls => IsControl(op)
    case Switches => IsControl(op) || op.Reset?
  }

  /** Operation `k` is the latest of its kind. */
  ghost predicate Latest(ops: seq<Op>, what: What, k: nat) {
    k < |ops| && Is(ops[k], what) && forall j :: k < j < |ops| ==> !Is(ops[j], what)
  }

  ghost predicate NoneYet(ops: seq<Op>, what: What) {
    forall j :: 0 <= j < |ops| ==> !Is(ops[j], what)
  }

  lemma LatestStays(ops: seq<Op>, op: Op, what: What)
    requires !Is(op, what)
    ensures forall k: nat :: Latest(ops, what, k) ==> Latest(ops + [op], what, k)
    ensures NoneYet(ops, what) ==> NoneYet(ops + [op], what)
  {
    hide Is;
    var more := ops + [op];
    assert forall j :: 0 <= j < |more| ==> more[j] == if j < |ops| then ops[j] else op;
  }

  lemma LatestNow(ops: seq<Op>, op: Op, what: What)
    requires Is(op, what)
    ensures Latest(ops + [op], what, |ops|)
  {
  }

  // ------------------------------------------------------------------------- the registers

  /** `v` is the last value written, or `first` if none was. */
  ghost predicate Word(ops: seq<Op>, offset: nat, first: bv32, v: bv32) {
    || (NoneYet(ops, WordAt(offset)) && v == first)
    || exists k: nat :: Latest(ops, WordAt(offset), k) && ops[k].val == v
  }

  lemma WordNext(ops: seq<Op>, op: Op, offset: nat, first: bv32, v: bv32)
    requires Word(ops, offset, first, v)
    ensures Word(ops + [op], offset, first, if Is(op, WordAt(offset)) then op.val else v)
  {
    var what, more := WordAt(offset), ops + [op];
    if Is(op, what) {
      LatestNow(ops, op, what);
      assert more[|ops|] == op;
    } else {
      LatestStays(ops, op, what);
      if !NoneYet(ops, what) {
        var k: nat :| Latest(ops, what, k) && ops[k].val == v;
        assert more[k] == ops[k];
      }
    }
  }

  function LowHalf(v: bv32): bv32 {
    v & 0xFFFF
  }

  function HighHalf(v: bv32): bv32 {
    v & 0xFFFF_0000
  }

  /** The lower half of `v` is that of the last value of two or four bytes. */
  ghost predicate Low(ops: seq<Op>, offset: nat, first: bv32, v: bv32) {
    || (NoneYet(ops, DataAt(offset)) && LowHalf(v) == LowHalf(first))
    || exists k: nat :: Latest(ops, DataAt(offset), k) && LowHalf(v) == LowHalf(ops[k].val)
  }

  lemma LowNext(ops: seq<Op>, op: Op, offset: nat, first: bv32, v: bv32, next: bv32)
    requires Low(ops, offset, first, v)
    requires LowHalf(next) == LowHalf(if Is(op, DataAt(offset)) then op.val else v)
    ensures Low(ops + [op], offset, first, next)
  {
    hide LowHalf;
    var what, more := DataAt(offset), ops + [op];
    if Is(op, what) {
      LatestNow(ops, op, what);
      assert more[|ops|] == op;
    } else {
      LatestStays(ops, op, what);
      if !NoneYet(ops, what) {
        var k: nat :| Latest(ops, what, k) && LowHalf(v) == LowHalf(ops[k].val);
        assert more[k] == ops[k];
      }
    }
  }

  /** The upper half is that of the last value of four bytes, where data can be extended, and never written else. */
  ghost predicate High(ops: seq<Op>, offset: nat, extendable: bool, first: bv32, v: bv32) {
    || ((!extendable || NoneYet(ops, WordAt(offset))) && HighHalf(v) == HighHalf(first))
    || (extendable && exists k: nat :: Latest(ops, WordAt(offset), k) && HighHalf(v) == HighHalf(ops[k].val))
  }

  lemma HighNext(ops: seq<Op>, op: Op, offset: nat, extendable: bool, first: bv32, v: bv32, next: bv32)
    requires High(ops, offset, extendable, first, v)
    requires HighHalf(next) == HighHalf(if extendable && Is(op, WordAt(offset)) then op.val else v)
    ensures High(ops + [op], offset, extendable, first, next)
  {
    hide HighHalf;
    var what, more := WordAt(offset), ops + [op];
    if extendable {
      if Is(op, what) {
        LatestNow(ops, op, what);
        assert more[|ops|] == op;
      } else {
        LatestStays(ops, op, what);
        if !NoneYet(ops, what) {
          var k: nat :| Latest(ops, what, k) && HighHalf(v) == HighHalf(ops[k].val);
          assert more[k] == ops[k];
        }
      }
    }
  }

  // --------------------------------------------------------------------- the control bits

  /** Bit `n` of the control register in a write to it: alone in the lower half of the value, else in the upper. */
  predicate EnableBit(op: Op)
    requires op.Write?
  {
    if op.offset == 2 then op.val & 0x1 != 0 else op.val & 0x1_0000 != 0
  }

  predicate ExtendBit(op: Op)
    requires op.Write?
  {
    if op.offset == 2 then op.val & 0x400 != 0 else op.val & 0x400_0000 != 0
  }

  function One(set_: bool, weight: nat): nat {
    if set_ then weight else 0
  }

  /** Bits 6 to 4. */
  function CountBits(op: Op): nat
    requires op.Write?
  {
    if op.offset == 2 then One(op.val & 0x10 != 0, 1) + One(op.val & 0x20 != 0, 2) + One(op.val & 0x40 != 0, 4)
    else One(op.val & 0x10_0000 != 0, 1) + One(op.val & 0x20_0000 != 0, 2) + One(op.val & 0x40_0000 != 0, 4)
  }

  /** The last write to the control register, with no reset since, turned the capability on. */
  ghost predicate On(ops: seq<Op>) {
    exists k: nat :: Latest(ops, Switches, k) && ops[k].Write? && EnableBit(ops[k])
  }

  lemma OnNext(ops: seq<Op>, op: Op)
    ensures On(ops + [op]) <==> if Is(op, Switches) then op.Write? && EnableBit(op) else On(ops)
  {
    hide EnableBit;
    var more := ops + [op];
    assert more[|ops|] == op;
    if Is(op, Switches) {
      LatestNow(ops, op, Switches);
      if On(more) {
        var k: nat :| Latest(more, Switches, k) && more[k].Write? && EnableBit(more[k]);
        assert k == |ops|;
      }
    } else {
      LatestStays(ops, op, Switches);
      if On(ops) {
        var k: nat :| Latest(ops, Switches, k) && ops[k].Write? && EnableBit(ops[k]);
        assert more[k] == ops[k];
      }
      if On(more) {
        var k: nat :| Latest(more, Switches, k) && more[k].Write? && EnableBit(more[k]);
        assert k < |ops| && more[k] == ops[k];
        assert forall j :: k < j < |ops| ==> ops[j] == more[j];
        assert Latest(ops, Switches, k);
      }
    }
  }

  /** Extended data is in use as the last write to the control register says, or as at first. */
  ghost predicate Extends(ops: seq<Op>, extendable: bool, first: bool, now: bool) {
    || (NoneYet(ops, Controls) && now == first)
    || exists k: nat :: Latest(ops, Controls, k) && now == (extendable && EnableExt(ops[k]))
  }

  predicate EnableExt(op: Op) {
    op.Write? && ExtendBit(op)
  }

  lemma ExtendsNext(ops: seq<Op>, op: Op, extendable: bool, first: bool, now: bool, next: bool)
    requires Extends(ops, extendable, first, now)
    requires next == if Is(op, Controls) then extendable && EnableExt(op) else now
    ensures Extends(ops + [op], extendable, first, next)
  {
    hide EnableExt;
    var more := ops + [op];
    assert more[|ops|] == op;
    if Is(op, Controls) {
      LatestNow(ops, op, Controls);
    } else {
      LatestStays(ops, op, Controls);
      if !NoneYet(ops, Controls) {
        var k: nat :| Latest(ops, Controls, k) && now == (extendable && EnableExt(ops[k]));
        assert more[k] == ops[k];
      }
    }
  }

  /** Write `k` to the control register was made while the capability was off, or turned it off. */
  ghost predicate Grants(ops: seq<Op>, k: nat) {
    k < |ops| && IsControl(ops[k]) && (!On(ops[..k]) || !EnableBit(ops[k]))
  }

  ghost predicate GrantsLast(ops: seq<Op>, k: nat) {
    Grants(ops, k) && forall j :: k < j < |ops| ==> !Grants(ops, j)
  }

  function Lesser(a: nat, b: nat): nat {
    if a < b then a else b
  }

  /** The exponent granted is that of the last such write, cut to what the function has. */
  ghost predicate Granted(ops: seq<Op>, most: nat, first: nat, now: nat) {
    || ((forall k: nat :: !Grants(ops, k)) && now == first)
    || exists k: nat :: GrantsLast(ops, k) && now == Lesser(most, CountBits(ops[k]))
  }

  lemma GrantsSame(ops: seq<Op>, op: Op, k: nat)
    ensures k < |ops| ==> (Grants(ops + [op], k) <==> Grants(ops, k))
    ensures Grants(ops + [op], |ops|) <==> IsControl(op) && (!On(ops) || !EnableBit(op))
  {
    hide On, EnableBit, IsControl;
    var more := ops + [op];
    assert more[|ops|] == op && more[..|ops|] == ops;
    if k < |ops| {
      assert more[k] == ops[k] && more[..k] == ops[..k];
    }
  }

  lemma GrantedNext(ops: seq<Op>, op: Op, most: nat, first: nat, now: nat, next: nat)
    requires Granted(ops, most, first, now)
    requires next == if Grants(ops + [op], |ops|) then Lesser(most, if op.Write? then CountBits(op) else 0) else now
    ensures Granted(ops + [op], most, first, next)
  {
    hide CountBits, Lesser, On, EnableBit;
    var more := ops + [op];
    assert more[|ops|] == op;
    forall j: nat ensures j < |ops| ==> (Grants(more, j) <==> Grants(ops, j)) {
      GrantsSame(ops, op, j);
    }
    if Grants(more, |ops|) {
      assert GrantsLast(more, |ops|);
    } else if exists k: nat :: GrantsLast(ops, k) && now == Lesser(most, CountBits(ops[k])) {
      var k: nat :| GrantsLast(ops, k) && now == Lesser(most, CountBits(ops[k]));
      assert more[k] == ops[k];
      assert GrantsLast(more, k);
    }
  }

  // ---------------------------------------------------------------------------- one write

  lemma ControlAlone(val: bv32)
    ensures var v := LowWord(val);
            (NewEnable(v) <==> val & 0x1 != 0) && (NewExt(v) <==> val & 0x400 != 0)
  {
  }

  lemma ControlAbove(val: bv32)
    ensures var v := HighWord(val);
            (NewEnable(v) <==> val & 0x1_0000 != 0) && (NewExt(v) <==> val & 0x400_0000 != 0)
  {
  }

  /** The value of three bits. */
  lemma ThreeBits(x: bv16)
    requires x & 0xFFF8 == 0
    ensures x as nat == One(x & 0x1 != 0, 1) + One(x & 0x2 != 0, 2) + One(x & 0x4 != 0, 4)
  {
    if x & 0x4 == 0 {
      if x & 0x2 == 0 {
        if x & 0x1 == 0 { assert x == 0; } else { assert x == 1; }
      } else {
        if x & 0x1 == 0 { assert x == 2; } else { assert x == 3; }
      }
    } else {
      if x & 0x2 == 0 {
        if x & 0x1 == 0 { assert x == 4; } else { assert x == 5; }
      } else {
        if x & 0x1 == 0 { assert x == 6; } else { assert x == 7; }
      }
    }
  }

  lemma CountAlone(val: bv32)
    ensures NewMulti(LowWord(val))
            == One(val & 0x10 != 0, 1) + One(val & 0x20 != 0, 2) + One(val & 0x40 != 0, 4)
  {
    var x := (LowWord(val) >> 4) & 0x7;
    CountAloneBits(val, x);
    ThreeBits(x);
  }

  lemma CountAloneBits(val: bv32, x: bv16)
    requires x == (LowWord(val) >> 4) & 0x7
    ensures x & 0xFFF8 == 0
    ensures (x & 0x1 != 0 <==> val & 0x10 != 0) && (x & 0x2 != 0 <==> val & 0x20 != 0)
    ensures x & 0x4 != 0 <==> val & 0x40 != 0
  {
  }

  lemma CountAbove(val: bv32)
    ensures NewMulti(HighWord(val))
            == One(val & 0x10_0000 != 0, 1) + One(val & 0x20_0000 != 0, 2) + One(val & 0x40_0000 != 0, 4)
  {
    var x := (HighWord(val) >> 4) & 0x7;
    CountAboveBits(val, x);
    ThreeBits(x);
  }

  lemma CountAboveBits(val: bv32, x: bv16)
    requires x == (HighWord(val) >> 4) & 0x7
    ensures x & 0xFFF8 == 0
    ensures (x & 0x1 != 0 <==> val & 0x10_0000 != 0) && (x & 0x2 != 0 <==> val & 0x20_0000 != 0)
    ensures x & 0x4 != 0 <==> val & 0x40_0000 != 0
  {
  }

  /** What a write to the control register does, in its bits. */
  lemma ControlWrite(c: Control, data: seq<bv32>, op: Op)
    requires |data| == 4 && op.Write?
    ensures var r := WriteRegs(c, data, op.offset, op.size, op.val);
            if IsControl(op) then
              && r.data == data
              && r.c == c.(enable := EnableBit(op), ext := c.extCap && ExtendBit(op),
                           multi := if !c.enable || !EnableBit(op) then Lesser(c.multiCap, CountBits(op)) else c.multi)
            else r.c == c
  {
    hide NewEnable, NewExt, NewMulti, DataValue, LowWord, HighWord, EnableBit, ExtendBit, CountBits;
    if IsControl(op) { ControlBits(op); }
  }

  lemma ControlBits(op: Op)
    requires IsControl(op)
    ensures var v := if op.offset == 2 then LowWord(op.val) else HighWord(op.val);
            && (NewEnable(v) <==> EnableBit(op)) && (NewExt(v) <==> ExtendBit(op)) && NewMulti(v) == CountBits(op)
  {
    hide NewEnable, NewExt, NewMulti, LowWord, HighWord, One;
    if op.offset == 2 {
      ControlAlone(op.val);
      CountAlone(op.val);
    } else {
      ControlAbove(op.val);
      CountAbove(op.val);
    }
  }

  lemma DataHalves(c: Control, before: bv32, size: nat, v: bv32)
    ensures LowHalf(DataValue(c, before, size, v)) == LowHalf(v)
    ensures HighHalf(DataValue(c, before, size, v)) == HighHalf(if c.extCap && size == 4 then v else before)
  {
    hide LowHalf, HighHalf;
    MergedHalves(before, v);
  }

  lemma MergedHalves(before: bv32, v: bv32)
    ensures LowHalf((before & 0xFFFF_0000) | (v & 0xFFFF)) == LowHalf(v)
    ensures HighHalf((before & 0xFFFF_0000) | (v & 0xFFFF)) == HighHalf(before)
  {
  }

  /** What any other write does to the word at index `k`: the word registers take it, the data register by halves. */
  lemma WordWrite(c: Control, data: seq<bv32>, op: Op)
    requires |data| == 4 && op.Write?
    ensures var r := WriteRegs(c, data, op.offset, op.size, op.val).data;
            && |r| == 4 && r[0] == (if Is(op, WordAt(4)) then op.val else data[0])
            && (c.addr64 ==> r[1] == if Is(op, WordAt(8)) then op.val else data[1])
            && (c.addr64 && c.masking ==> r[3] == if Is(op, WordAt(0x10)) then op.val else data[3])
            && (!c.addr64 && c.masking ==> r[2] == if Is(op, WordAt(0xC)) then op.val else data[2])
  {
    hide WriteControl, DataValue, LowWord, HighWord;
    DataStays(c, data, LowWord(op.val));
    DataStays(c, data, HighWord(op.val));
  }

  lemma DataStays(c: Control, data: seq<bv32>, v: bv16)
    ensures WriteControl(c, data, v).data == data
  {
  }

  lemma DataWrite(c: Control, data: seq<bv32>, op: Op)
    requires |data| == 4 && op.Write?
    ensures var r, k, offset := WriteRegs(c, data, op.offset, op.size, op.val).data, if c.addr64 then 2 else 1,
                                if c.addr64 then 0xC else 8;
            && |r| == 4 && LowHalf(r[k]) == LowHalf(if Is(op, DataAt(offset)) then op.val else data[k])
            && HighHalf(r[k]) == HighHalf(if c.extCap && Is(op, WordAt(offset)) then op.val else data[k])
  {
    hide NewEnable, NewExt, NewMulti, DataValue, LowHalf, HighHalf;
    var k := if c.addr64 then 2 else 1;
    DataHalves(c, data[k], op.size, op.val);
  }

  // ---------------------------------------------------------------------------- every run

  ghost predicate SameFunction(s: State, t: State) {
    && t.c.addr64 == s.c.addr64 && t.c.masking == s.c.masking && t.c.extCap == s.c.extCap
    && t.c.multiCap == s.c.multiCap && |s.data| == 4 && |t.data| == 4
  }

  ghost predicate ControlRecord(s: State, ops: seq<Op>, t: State) {
    && (t.c.enable <==> On(ops)) && Granted(ops, s.c.multiCap, s.c.multi, t.c.multi)
    && Extends(ops, s.c.extCap, s.c.ext, t.c.ext)
  }

  ghost predicate WordRecord(s: State, ops: seq<Op>, t: State)
    requires |s.data| == 4 && |t.data| == 4
  {
    && Word(ops, 4, s.data[0], t.data[0]) && (s.c.addr64 ==> Word(ops, 8, s.data[1], t.data[1]))
    && (s.c.masking ==>
          if s.c.addr64 then Word(ops, 0x10, s.data[3], t.data[3]) else Word(ops, 0xC, s.data[2], t.data[2]))
  }

  ghost predicate DataRecord(s: State, ops: seq<Op>, t: State)
    requires |s.data| == 4 && |t.data| == 4
  {
    var k, offset := if s.c.addr64 then 2 else 1, if s.c.addr64 then 0xC else 8;
    Low(ops, offset, s.data[k], t.data[k]) && High(ops, offset, s.c.extCap, s.data[k], t.data[k])
  }

  /** The registers are as the guest last wrote them. */
  ghost predicate Recorded(s: State, ops: seq<Op>, t: State) {
    SameFunction(s, t) && ControlRecord(s, ops, t) && WordRecord(s, ops, t) && DataRecord(s, ops, t)
  }

  lemma ControlNext(s: State, ops: seq<Op>, t: State, op: Op)
    requires Sound(t) && SameFunction(s, t) && ControlRecord(s, ops, t)
    ensures ControlRecord(s, ops + [op], Do(t, op))
  {
    hide EnableBit, ExtendBit, CountBits, Lesser, On, Granted, Extends, WriteRegs, Refreshed, Pow2;
    if op.Write? { ControlWrite(t.c, t.data, op); }
    OnNext(ops, op);
    GrantsSame(ops, op, |ops|);
    var u := Do(t, op);
    GrantedNext(ops, op, s.c.multiCap, s.c.multi, t.c.multi, u.c.multi);
    ExtendsNext(ops, op, s.c.extCap, s.c.ext, t.c.ext, u.c.ext);
  }

  lemma WordsNext(s: State, ops: seq<Op>, t: State, op: Op)
    requires Sound(t) && SameFunction(s, t) && WordRecord(s, ops, t) && DataRecord(s, ops, t)
    ensures var u := Do(t, op); SameFunction(s, u) && WordRecord(s, ops + [op], u) && DataRecord(s, ops + [op], u)
  {
    hide Word, Low, High, LowHalf, HighHalf, WriteRegs, Refreshed, Pow2;
    if op.Write? {
      ControlWrite(t.c, t.data, op);
      WordWrite(t.c, t.data, op);
      DataWrite(t.c, t.data, op);
    }
    var u := Do(t, op);
    WordNext(ops, op, 4, s.data[0], t.data[0]);
    if s.c.addr64 { WordNext(ops, op, 8, s.data[1], t.data[1]); }
    if s.c.masking {
      if s.c.addr64 { WordNext(ops, op, 0x10, s.data[3], t.data[3]); }
      else { WordNext(ops, op, 0xC, s.data[2], t.data[2]); }
    }
    var k, offset := if s.c.addr64 then 2 else 1, if s.c.addr64 then 0xC else 8;
    LowNext(ops, op, offset, s.data[k], t.data[k], u.data[k]);
    HighNext(ops, op, offset, s.c.extCap, s.data[k], t.data[k], u.data[k]);
  }

  lemma {:induction false} History(s: State, ops: seq<Op>)
    requires Sound(s) && !s.c.enable
    ensures Recorded(s, ops, Run(s, ops))
    decreases |ops|
  {
    hide ControlRecord, WordRecord, DataRecord, Do;
    if ops == [] {
      HistoryStarts(s);
    } else {
      var n := |ops| - 1;
      History(s, ops[..n]);
      var t := Run(s, ops[..n]);
      ControlNext(s, ops[..n], t, ops[n]);
      WordsNext(s, ops[..n], t, ops[n]);
      assert ops == ops[..n] + [ops[n]];
    }
  }

  lemma HistoryStarts(s: State)
    requires Sound(s) && !s.c.enable
    ensures Recorded(s, [], s)
  {
  }

  // ---------------------------------------------------------------------------- the message

  /** Bit `i` of the mask register that the guest last wrote. */
  predicate MaskedBy(mask: bv32, i: nat)
    requires i < 32
  {
    mask & (1 << i) != 0
  }

  /** The message of vector `i`. */
  function Stamped(ext: bool, data: bv32, i: nat): bv32
    requires i < 32
  {
    (if ext then data else LowHalf(data)) | (i as bv32)
  }

  /** What descriptor `i` is to be, with `count` the exponent granted, `ext` extended data in use, and `mask` and `data`
      the values of those registers: unmasked exactly for an enabled, granted and unmasked vector, with its message. */
  ghost predicate Tells(s: State, ops: seq<Op>, i: nat, fd: Fd, count: nat, ext: bool, mask: bv32, data: bv32)
    requires |s.data| == 4 && i < 32
  {
    var wide, k := s.c.addr64, if s.c.addr64 then 2 else 1;
    && Granted(ops, s.c.multiCap, s.c.multi, count) && Extends(ops, s.c.extCap, s.c.ext, ext)
    && (s.c.masking ==> Word(ops, if wide then 0x10 else 0xC, s.data[k + 1], mask))
    && Low(ops, if wide then 0xC else 8, s.data[k], data)
    && High(ops, if wide then 0xC else 8, s.c.extCap, s.data[k], data)
    && (!fd.masked <==> On(ops) && i < Pow2(count) && !(s.c.masking && MaskedBy(mask, i)))
    && (!fd.masked ==>
          && Word(ops, 4, s.data[0], fd.lo) && (if wide then Word(ops, 8, s.data[1], fd.hi) else fd.hi == 0)
          && fd.data == Stamped(ext, data, i))
  }

  /** After any writes and resets, every descriptor says what the guest last wrote: address and data at the offsets of
      the capability's layout, the vector's number in the data, masked by its bit of the last mask, and granted by the
      last count that could take effect. */
  lemma MessagesAsWritten(s: State, ops: seq<Op>, i: nat)
    requires Sound(s) && !s.c.enable && (forall j :: 0 <= j < |s.fds| ==> s.fds[j].masked) && i < |s.fds|
    ensures exists count: nat, ext: bool, mask: bv32, data: bv32 ::
              Tells(s, ops, i, Run(s, ops).fds[i], count, ext, mask, data)
  {
    hide Word, Low, High, Granted, Extends, On, Pow2, Wanted, Route, LowHalf, Run, Masked, MaskBits, MaskedBy,
         Stamped, Carries;
    RoutesAgree(s, ops, i);
    History(s, ops);
    var t := Run(s, ops);
    var k := if s.c.addr64 then 2 else 1;
    WantedIs(t.c, t.data, i);
    MessageIs(t.c, t.data, i);
    assert Tells(s, ops, i, t.fds[i], t.c.multi, t.c.ext, t.data[k + 1], t.data[k]);
  }

  lemma MessageIs(c: Control, data: seq<bv32>, i: nat)
    requires |data| == 4 && i < 32
    ensures var r, k := Route(c, data, i), if c.addr64 then 2 else 1;
            && r.lo == data[0] && r.hi == (if c.addr64 then data[1] else 0)
            && r.data == Stamped(c.ext, data[k], i)
    ensures Masked(MaskBits(c, data), i)
            <==> c.masking && MaskedBy(data[if c.addr64 then 3 else 2], i)
  {
    AllBits(data[if c.addr64 then 2 else 1]);
    NoMask(i);
  }

  lemma NoMask(i: nat)
    requires i < 32
    ensures !Masked(0, i)
  {
  }
}
