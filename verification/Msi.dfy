/**
 The MSI capability: its registers, and the interrupt routes that are refreshed only when a write
 can have changed one.
 */
module Msi {
  import opened Powers

  /** The message control register. */
  datatype Control = Control(
    enable: bool,
    multiCap: nat,     // log2 of the vectors the function has
    multi: nat,        // log2 of the vectors granted
    addr64: bool,
    masking: bool,     // per-vector masking
    extCap: bool,
    ext: bool          // extended message data in use
  )

  /** What an interrupt file descriptor is set to. */
  datatype Fd = Fd(masked: bool, hi: bv32, lo: bv32, data: bv32)

  const MAX_LOG: nat := 5   // 32 vectors, section 6.8.1.3 of PCI Local Bus 3.0

  predicate Shaped(c: Control, data: seq<bv32>, fds: nat) {
    c.multiCap <= MAX_LOG && c.multi <= c.multiCap && |data| == 4 && fds == Pow2(c.multiCap)
  }

  // ------------------------------------------------------------------ what is wanted

  function Address(c: Control, data: seq<bv32>): (bv32, bv32)
    requires |data| == 4
  {
    (if c.addr64 then data[1] else 0, data[0])
  }

  function Message(c: Control, data: seq<bv32>): bv32
    requires |data| == 4
  {
    (if c.addr64 then data[2] else data[1]) & (if c.ext then 0xFFFF_FFFF else 0xFFFF)
  }

  function MaskBits(c: Control, data: seq<bv32>): bv32
    requires |data| == 4
  {
    if !c.masking then 0 else if c.addr64 then data[3] else data[2]
  }

  predicate Masked(mask: bv32, i: nat)
    requires i < 32
  {
    mask & (1 << i) != 0
  }

  /** Vector `i` is to be delivered: enabled, granted and not masked, section 6.8.1 of PCI Local Bus 3.0. */
  predicate Wanted(c: Control, data: seq<bv32>, i: nat)
    requires |data| == 4 && c.multi <= MAX_LOG
  {
    c.enable && i < Pow2(c.multi) && (SmallVector(c.multi, i); !Masked(MaskBits(c, data), i))
  }

  lemma SmallVector(k: nat, i: nat)
    requires k <= MAX_LOG
    ensures i < Pow2(k) ==> i < 32
  {
    assert Pow2(k) <= 32 by {
      assert Pow2(1) == 2;
      assert Pow2(3) == 8;
      assert Pow2(4) == 16;
      assert Pow2(5) == 32;
    }
  }

  lemma WantedIs(c: Control, data: seq<bv32>, i: nat)
    requires |data| == 4 && c.multi <= MAX_LOG && i < 32
    ensures Wanted(c, data, i) <==> c.enable && i < Pow2(c.multi) && !Masked(MaskBits(c, data), i)
  {
  }

  /** The message of vector `i`. */
  function Numbered(message: bv32, i: nat): bv32
    requires i < 32
  {
    message | (i as bv32)
  }

  function Route(c: Control, data: seq<bv32>, i: nat): Fd
    requires |data| == 4 && i < 32
  {
    var (hi, lo) := Address(c, data);
    Fd(false, hi, lo, Numbered(Message(c, data), i))
  }

  /** The address of register 0, with register 1 above it for 64 bits, and the data of the register after that, cut to
      16 bits unless extended, with the vector's number in it. */
  predicate Carries(c: Control, data: seq<bv32>, fd: Fd, i: nat)
    requires |data| == 4 && i < 32
  {
    var value := if c.addr64 then data[2] else data[1];
    && fd.lo == data[0] && fd.hi == (if c.addr64 then data[1] else 0)
    && fd.data == (if c.ext then value else value & 0xFFFF) | (i as bv32)
  }

  lemma RouteCarries(c: Control, data: seq<bv32>, i: nat)
    requires |data| == 4 && i < 32
    ensures Carries(c, data, Route(c, data, i), i)
  {
    AllBits(data[if c.addr64 then 2 else 1]);
  }

  lemma AllBits(v: bv32)
    ensures v & 0xFFFF_FFFF == v
  {
  }

  /** The descriptor of vector `i` is as the registers say. */
  predicate Fresh(c: Control, data: seq<bv32>, fd: Fd, i: nat)
    requires |data| == 4 && c.multi <= MAX_LOG && i < 32
  {
    if Wanted(c, data, i) then fd == Route(c, data, i) else fd.masked
  }

  // ---------------------------------------------------------------------- registers

  datatype Regs = Regs(c: Control, data: seq<bv32>, refresh: bool)

  predicate NewEnable(v: bv16) {
    v & 0x1 == 0x1
  }

  function NewMulti(v: bv16): nat {
    ((v >> 4) & 0x7) as nat
  }

  predicate NewExt(v: bv16) {
    v & 0x400 == 0x400
  }

  function LowWord(v: bv32): bv16 {
    (v & 0xFFFF) as bv16
  }

  function HighWord(v: bv32): bv16 {
    (v >> 16) as bv16
  }

  function WriteControl(c: Control, data: seq<bv32>, v: bv16): Regs {
    var enable := NewEnable(v);
    var multi := if !c.enable || !enable then (if NewMulti(v) < c.multiCap then NewMulti(v) else c.multiCap)
        else c.multi;
    var ext := c.extCap && NewExt(v);
    Regs(c.(enable := enable, multi := multi, ext := ext), data, (enable && c.ext != ext) || c.enable != enable)
  }

  function WriteWord(c: Control, data: seq<bv32>, k: nat, v: bv32): Regs
    requires |data| == 4 && k < 4
  {
    Regs(c, data[k := v], c.enable && data[k] != v)
  }

  function DataValue(c: Control, before: bv32, size: nat, v: bv32): bv32 {
    if size == 4 && c.extCap then v else (before & 0xFFFF_0000) | (v & 0xFFFF)
  }

  /** A write of `size` bytes at `offset`: the registers after it, and whether the routes are refreshed. */
  function WriteRegs(c: Control, data: seq<bv32>, offset: nat, size: nat, v: bv32): Regs
    requires |data| == 4
  {
    if offset == 2 && size == 2 then WriteControl(c, data, LowWord(v))
    else if offset == 0 && size == 4 then WriteControl(c, data, HighWord(v))
    else if (offset == 4 && size == 4) || (offset == 8 && size == 4 && c.addr64)
            || (offset == 0xC && size == 4 && !c.addr64 && c.masking)
                || (offset == 0x10 && size == 4 && c.addr64 && c.masking) then
      WriteWord(c, data, (offset - 4) / 4, v)
    else if (offset == 8 && (size == 2 || size == 4) && !c.addr64)
        || (offset == 0xC && (size == 2 || size == 4) && c.addr64) then
      var k := (offset - 4) / 4;
      WriteWord(c, data, k, DataValue(c, data[k], size, v))
    else Regs(c, data, false)
  }

  lemma RegsShaped(c: Control, data: seq<bv32>, fds: nat, offset: nat, size: nat, v: bv32)
    requires Shaped(c, data, fds)
    ensures var r := WriteRegs(c, data, offset, size, v); Shaped(r.c, r.data, fds)
  {
    hide NewMulti, NewEnable, NewExt, DataValue, Pow2;
  }

  /** A write that does not ask for a refresh changes no route. */
  lemma NoRefreshNoChange(c: Control, data: seq<bv32>, offset: nat, size: nat, v: bv32, i: nat)
    requires |data| == 4 && c.multiCap <= MAX_LOG && c.multi <= c.multiCap && i < 32
    requires !WriteRegs(c, data, offset, size, v).refresh
    ensures var r := WriteRegs(c, data, offset, size, v);
            |r.data| == 4 && r.c.multi <= MAX_LOG
            && (Wanted(r.c, r.data, i) <==> Wanted(c, data, i))
            && (Wanted(c, data, i) ==> Route(r.c, r.data, i) == Route(c, data, i))
  {
    hide NewMulti, NewEnable, NewExt, DataValue, Pow2, Masked;
    var r := WriteRegs(c, data, offset, size, v);
    if c.enable {
      assert r.data == data;
      assert r.c == c;
    }
  }

  /** A write or a reset, in order. */
  datatype Op = Write(offset: nat, size: nat, val: bv32) | Reset

  function Refreshed(c: Control, data: seq<bv32>, fds: seq<Fd>): (r: seq<Fd>)
    requires |data| == 4 && c.multi <= MAX_LOG && |fds| <= 32
    ensures |r| == |fds| && forall i :: 0 <= i < |r| ==>
            r[i] == if Wanted(c, data, i) then Route(c, data, i) else fds[i].(masked := true)
  {
    seq(|fds|, i requires 0 <= i < |fds| => if Wanted(c, data, i) then Route(c, data, i) else fds[i].(masked := true))
  }

  lemma AllRefreshed(c: Control, data: seq<bv32>, fds: seq<Fd>)
    requires |data| == 4 && c.multi <= MAX_LOG && |fds| <= 32
    ensures var all := Refreshed(c, data, fds);
            forall i :: 0 <= i < |all| ==> Fresh(c, data, all[i], i)
  {
    hide Wanted, Route;
  }

  lemma FreshCarries(c: Control, data: seq<bv32>, fd: Fd, i: nat)
    requires |data| == 4 && c.multi <= MAX_LOG && i < 32 && Fresh(c, data, fd, i) && !fd.masked
    ensures Carries(c, data, fd, i)
  {
    hide Wanted, Route, Carries;
    RouteCarries(c, data, i);
  }

  lemma FdCount(k: nat)
    requires k <= MAX_LOG
    ensures Pow2(k) <= 32
  {
    SmallVector(k, 32);
  }

  class MsiCap {
    var control: Control
    var data: seq<bv32>
    var fds: seq<Fd>

    ghost predicate Valid()
      reads this
    {
      Shaped(control, data, |fds|) && |fds| <= 32
    }

    /** Descriptor `i` is unmasked exactly if its vector is to be delivered, and then with the registers' address
        and data. */
    ghost predicate Agrees()
      requires Valid()
      reads this
    {
      forall i :: 0 <= i < |fds| ==> Fresh(control, data, fds[i], i)
    }

    constructor (control: Control, fds: seq<Fd>)
      requires control.multiCap <= MAX_LOG && control.multi <= control.multiCap && |fds| == Pow2(control.multiCap)
      requires !control.enable && forall i :: 0 <= i < |fds| ==> fds[i].masked
      ensures Valid() && Agrees() && this.control == control && this.data == [0, 0, 0, 0]
    {
      this.control, this.data, this.fds := control, [0, 0, 0, 0], fds;
      FdCount(control.multiCap);
    }

    /** `update_msi`. */
    method Update()
      requires Valid()
      modifies this`fds
      ensures Valid() && Agrees() && fds == Refreshed(control, data, old(fds))
      ensures forall i :: 0 <= i < |fds| && !fds[i].masked ==> Carries(control, data, fds[i], i)
    {
      hide Masked, Pow2, MaskBits, Message, Wanted, Refreshed, Fresh, Numbered, Carries;
      ghost var first := fds;
      var (hi, lo) := Address(control, data);
      var message, mask, count := Message(control, data), MaskBits(control, data), Pow2(control.multi);
      ghost var goal := Refreshed(control, data, first);
      for index := 0 to |fds|
        invariant |fds| == |first| && (forall k :: 0 <= k < index ==> fds[k] == goal[k])
        invariant forall k :: index <= k < |fds| ==> fds[k] == first[k]
      {
        WantedIs(control, data, index);
        var fd := fds[index].(masked := true);
        if !control.enable || index >= count || Masked(mask, index) {
          fds := fds[index := fd];
          continue;
        }
        fd := fd.(hi := hi);
        fd := fd.(lo := lo);
        fd := fd.(data := Numbered(message, index));
        fd := fd.(masked := false);
        fds := fds[index := fd];
      }
      assert fds == goal;
      AllRefreshed(control, data, first);
      forall i | 0 <= i < |fds| && !fds[i].masked ensures Carries(control, data, fds[i], i) {
        FreshCarries(control, data, fds[i], i);
      }
    }

    /** `write`: the routes agree afterwards, whether they were refreshed or not. */
    method Write(offset: nat, size: nat, val: bv32)
      requires Valid() && Agrees()
      modifies this
      ensures Valid() && Agrees() && |fds| == old(|fds|)
      ensures var r := WriteRegs(old(control), old(data), offset, size, val);
              control == r.c && data == r.data && (!r.refresh ==> fds == old(fds))
    {
      hide WriteRegs, Pow2, Wanted, Route;
      var r := WriteRegs(control, data, offset, size, val);
      RegsShaped(control, data, |fds|, offset, size, val);
      if !r.refresh {
        forall i | 0 <= i < |fds| ensures Fresh(r.c, r.data, fds[i], i) {
          assert Fresh(control, data, fds[i], i);
          NoRefreshNoChange(control, data, offset, size, val, i);
        }
      }
      control, data := r.c, r.data;
      if r.refresh {
        Update();
      }
    }

    /** `reset`. */
    method Reset()
      requires Valid()
      modifies this
      ensures Valid() && Agrees() && |fds| == old(|fds|)
      ensures control == old(control).(enable := false) && data == old(data)
      ensures forall i :: 0 <= i < |fds| ==> fds[i].masked
    {
      hide Pow2;
      control := control.(enable := false);
      Update();
    }
  }

  // ------------------------------------------------------------------------ every run

  datatype State = State(c: Control, data: seq<bv32>, fds: seq<Fd>)

  predicate Sound(s: State) {
    Shaped(s.c, s.data, |s.fds|) && |s.fds| <= 32
  }

  function Do(s: State, op: Op): (t: State)
    requires Sound(s)
    ensures Sound(t) && |t.fds| == |s.fds|
  {
    match op
    case Write(offset, size, val) =>
      RegsShaped(s.c, s.data, |s.fds|, offset, size, val);
      var r := WriteRegs(s.c, s.data, offset, size, val);
      State(r.c, r.data, if r.refresh then Refreshed(r.c, r.data, s.fds) else s.fds)
    case Reset =>
      var c := s.c.(enable := false);
      State(c, s.data, Refreshed(c, s.data, s.fds))
  }

  function Run(s: State, ops: seq<Op>): (t: State)
    requires Sound(s)
    ensures Sound(t) && |t.fds| == |s.fds|
  {
    if ops == [] then s else Do(Run(s, ops[..|ops| - 1]), ops[|ops| - 1])
  }

  /** From all descriptors masked and the capability off, after any writes and resets: descriptor `i` is unmasked if
      and only if its vector is enabled, granted and not masked, and then it carries the registers' address and data. */
  lemma {:induction false} RoutesAgree(s: State, ops: seq<Op>, i: nat)
    requires Sound(s) && !s.c.enable && (forall j :: 0 <= j < |s.fds| ==> s.fds[j].masked) && i < |s.fds|
    ensures var t := Run(s, ops);
            && (!t.fds[i].masked <==> Wanted(t.c, t.data, i))
            && (!t.fds[i].masked ==> t.fds[i] == Route(t.c, t.data, i) && Carries(t.c, t.data, t.fds[i], i))
    decreases |ops|
  {
    hide WriteRegs, Pow2, Masked, Message, Carries;
    RouteCarries(Run(s, ops).c, Run(s, ops).data, i);
    if ops != [] {
      var before, op := Run(s, ops[..|ops| - 1]), ops[|ops| - 1];
      RoutesAgree(s, ops[..|ops| - 1], i);
      match op
      case Write(offset, size, val) =>
        if !WriteRegs(before.c, before.data, offset, size, val).refresh {
          NoRefreshNoChange(before.c, before.data, offset, size, val, i);
        }
      case Reset =>
    }
  }
}
