/**
 Guest RAM as a flat memory: which host byte backs each guest address, and what reading and
 writing a run of guest addresses means byte by byte.
 */
module FlatRam {
  import opened Bytes
  import opened Wrappers
  import opened SlotIndex

  /** A mapping of the host: where it starts and how long it is. */
  datatype Pages = Pages(host: nat, size: nat)

  type RamSlots = seq<Slot<Pages>>

  /** A host mapping knows its own length and lies in the host's memory. */
  predicate Backed(s: Slot<Pages>, hostSize: nat) {
    s.size == s.backend.size && s.backend.host + s.backend.size <= hostSize
  }

  predicate AllBacked(slots: RamSlots, hostSize: nat) {
    forall i :: 0 <= i < |slots| ==> Backed(slots[i], hostSize)
  }

  // ------------------------------------------------------------------------ one piece

  /** `get_valid_range`: the end is computed in wrapping 64-bit arithmetic. */
  function ValidRange(p: Pages, offset: nat, len: nat): Result<(nat, nat), Error> {
    var end := (offset + len + U64_SPAN - 1) % U64_SPAN;
    if offset >= p.size || end < offset then Err(ExceedsLimit(offset, len))
    else Ok((p.host + offset, if p.size - offset < len then p.size - offset else len))
  }

  function PartialSlice(slots: RamSlots, gpa: nat, len: nat): Result<(nat, nat), Error>
    requires Sorted(slots)
  {
    match Search(slots, gpa)
    case None => Err(NotMapped(gpa))
    case Some(s) =>
      SearchRefines(slots, gpa);
      ValidRange(s.backend, gpa - s.addr, len)
  }

  /** The host address behind a guest address. */
  function HostAt(slots: RamSlots, gpa: nat): Option<nat>
    requires Sorted(slots)
  {
    match Search(slots, gpa)
    case None => None
    case Some(s) =>
      SearchRefines(slots, gpa);
      Some(s.backend.host + (gpa - s.addr))
  }

  /** Byte `k` of a slot is byte `k` of its host pages, and there is nothing where no slot is. */
  lemma HostAtIs(slots: RamSlots, gpa: nat)
    requires Sorted(slots)
    ensures forall i :: 0 <= i < |slots| && slots[i].addr <= gpa < slots[i].addr + slots[i].size ==>
              HostAt(slots, gpa) == Some(slots[i].backend.host + (gpa - slots[i].addr))
    ensures HostAt(slots, gpa) == None <==>
              forall i :: 0 <= i < |slots| ==> !(slots[i].addr <= gpa < slots[i].addr + slots[i].size)
  {
    hide Sorted, Search;
    SearchRefines(slots, gpa);
    forall i | 0 <= i < |slots| && slots[i].addr <= gpa < slots[i].addr + slots[i].size
      ensures Search(slots, gpa) == Some(slots[i])
    {
      assert slots[i] in SetOf(slots);
    }
  }

  lemma HostsExtend(slots: RamSlots, gpa: nat, hs: seq<nat>, h: nat)
    requires Sorted(slots) && HostAt(slots, gpa + |hs|) == Some(h)
    requires Behind(slots, gpa, hs)
    ensures Behind(slots, gpa, hs + [h])
  {
    hide HostAt, Sorted;
    forall k | 0 <= k < |hs + [h]| ensures HostAt(slots, gpa + k) == Some((hs + [h])[k]) {
      if k < |hs| {
        assert HostAt(slots, gpa + k) == Some(hs[k]);
      }
    }
  }

  /** `hs` are the host addresses behind `gpa`, `gpa + 1`, ... */
  ghost predicate Behind(slots: RamSlots, gpa: nat, hs: seq<nat>)
    requires Sorted(slots)
  {
    forall k :: 0 <= k < |hs| ==> HostAt(slots, gpa + k) == Some(hs[k])
  }

  lemma NoneBehind(slots: RamSlots, gpa: nat)
    requires Sorted(slots)
    ensures Behind(slots, gpa, [])
  {
  }

  /** The host addresses behind `gpa`, `gpa + 1`, ... up to the first unmapped one. */
  function Hosts(slots: RamSlots, gpa: nat, len: nat): (hs: seq<nat>)
    requires Sorted(slots)
    ensures |hs| <= len && Behind(slots, gpa, hs)
    ensures |hs| < len ==> HostAt(slots, gpa + |hs|) == None
    decreases len
  {
    hide HostAt, Sorted, Behind;
    NoneBehind(slots, gpa);
    if len == 0 then []
    else
      var before := Hosts(slots, gpa, len - 1);
      if |before| < len - 1 then before
      else
        match HostAt(slots, gpa + len - 1)
        case None => before
        case Some(h) =>
          HostsExtend(slots, gpa, before, h);
          before + [h]
  }

  function From(start: nat, n: nat): (r: seq<nat>)
    ensures |r| == n && forall k :: 0 <= k < n ==> r[k] == start + k
  {
    seq(n, k => start + k)
  }

  lemma {:induction false} HostsUnique(slots: RamSlots, gpa: nat, len: nat, hs: seq<nat>)
    requires Sorted(slots) && |hs| <= len
    requires forall k :: 0 <= k < |hs| ==> HostAt(slots, gpa + k) == Some(hs[k])
    requires |hs| < len ==> HostAt(slots, gpa + |hs|) == None
    ensures Hosts(slots, gpa, len) == hs
    decreases len
  {
    hide HostAt;
    if len > 0 {
      if |hs| < len {
        HostsUnique(slots, gpa, len - 1, hs);
      } else {
        var before := hs[..len - 1];
        assert forall k :: 0 <= k < |before| ==> before[k] == hs[k];
        HostsUnique(slots, gpa, len - 1, before);
        assert HostAt(slots, gpa + (len - 1)) == Some(hs[len - 1]);
      }
    }
  }

  lemma SameSlot(slots: RamSlots, s: Slot<Pages>, a: nat)
    requires Sorted(slots) && s in slots && s.Holds(a)
    ensures Search(slots, a) == Some(s)
  {
    hide Sorted, Search;
    SearchRefines(slots, a);
    assert s in SetOf(slots);
  }

  /** A non-empty piece is a run of host addresses; only an unmapped start makes it fail. */
  lemma {:induction false} PieceExact(slots: RamSlots, hostSize: nat, gpa: nat, len: nat)
    requires Sorted(slots) && AllBacked(slots, hostSize) && 0 < len && gpa + len <= U64_SPAN
    ensures var r := PartialSlice(slots, gpa, len);
            && (r.Ok? ==> 0 < r.value.1 <= len && r.value.0 + r.value.1 <= hostSize
                          && Hosts(slots, gpa, r.value.1) == From(r.value.0, r.value.1))
            && (r.Err? ==> r.error == NotMapped(gpa) && HostAt(slots, gpa) == None)
  {
    hide Sorted, Search, Hosts;
    SearchRefines(slots, gpa);
    match Search(slots, gpa)
    case None =>
    case Some(s) =>
      assert Backed(s, hostSize);
      var p := PartialSlice(slots, gpa, len).value;
      var hs := From(p.0, p.1);
      forall k | 0 <= k < |hs| ensures HostAt(slots, gpa + k) == Some(hs[k]) {
        SameSlot(slots, s, gpa + k);
      }
      HostsUnique(slots, gpa, p.1, hs);
  }

  /** An empty piece exists exactly where a slot starts. */
  lemma EmptyPiece(slots: RamSlots, hostSize: nat, gpa: nat)
    requires Sorted(slots) && AllBacked(slots, hostSize) && gpa < U64_SPAN
    ensures PartialSlice(slots, gpa, 0).Ok? <==> exists s :: s in slots && s.addr == gpa
    ensures PartialSlice(slots, gpa, 0).Ok? ==> PartialSlice(slots, gpa, 0).value.1 == 0
  {
    SearchRefines(slots, gpa);
    if s :| s in slots && s.addr == gpa {
      assert s in SetOf(slots) && Fits(s);
      assert s.Holds(gpa);
    }
    if Search(slots, gpa).Some? {
      assert Backed(Search(slots, gpa).value, hostSize);
    }
  }

  /** A run of mapped addresses splits anywhere. */
  lemma HostsSplit(slots: RamSlots, gpa: nat, len: nat, n: nat)
    requires Sorted(slots) && n <= len && |Hosts(slots, gpa, n)| == n
    ensures Hosts(slots, gpa, len) == Hosts(slots, gpa, n) + Hosts(slots, gpa + n, len - n)
  {
    hide HostAt;
    var a, b := Hosts(slots, gpa, n), Hosts(slots, gpa + n, len - n);
    forall k | 0 <= k < |a + b| ensures HostAt(slots, gpa + k) == Some((a + b)[k]) {
      if k >= n {
        assert gpa + k == (gpa + n) + (k - n);
      }
    }
    HostsUnique(slots, gpa, len, a + b);
  }

  lemma HostsNone(slots: RamSlots, gpa: nat, len: nat)
    requires Sorted(slots) && HostAt(slots, gpa) == None
    ensures Hosts(slots, gpa, len) == []
  {
    HostsUnique(slots, gpa, len, []);
  }

  ghost predicate Mapped(slots: RamSlots, gpa: nat, len: nat)
    requires Sorted(slots)
  {
    forall a :: gpa <= a < gpa + len ==> HostAt(slots, a).Some?
  }

  lemma HostsMapped(slots: RamSlots, gpa: nat, len: nat)
    requires Sorted(slots)
    ensures |Hosts(slots, gpa, len)| == len <==> Mapped(slots, gpa, len)
  {
    hide HostAt;
    HostsCover(slots, gpa, len);
  }

  predicate Inside(hs: seq<nat>, size: nat) {
    forall k :: 0 <= k < |hs| ==> hs[k] < size
  }

  lemma HostInside(slots: RamSlots, hostSize: nat, a: nat)
    requires Sorted(slots) && AllBacked(slots, hostSize) && HostAt(slots, a).Some?
    ensures HostAt(slots, a).value < hostSize
  {
    SearchRefines(slots, a);
    assert Backed(Search(slots, a).value, hostSize);
  }

  lemma HostsInside(slots: RamSlots, hostSize: nat, gpa: nat, len: nat)
    requires Sorted(slots) && AllBacked(slots, hostSize)
    ensures Inside(Hosts(slots, gpa, len), hostSize)
  {
    hide HostAt;
    var hs := Hosts(slots, gpa, len);
    forall k | 0 <= k < |hs| ensures hs[k] < hostSize {
      assert HostAt(slots, gpa + k) == Some(hs[k]);
      HostInside(slots, hostSize, gpa + k);
    }
  }

  lemma HostsCover(slots: RamSlots, gpa: nat, len: nat)
    requires Sorted(slots)
    ensures forall a :: gpa <= a < gpa + |Hosts(slots, gpa, len)| ==> HostAt(slots, a).Some?
  {
    hide HostAt, Hosts;
    var hs := Hosts(slots, gpa, len);
    forall a | gpa <= a < gpa + |hs| ensures HostAt(slots, a).Some? {
      assert HostAt(slots, gpa + (a - gpa)) == Some(hs[a - gpa]);
    }
  }

  lemma NotCovered(slots: RamSlots, gpa: nat, len: nat, a: nat)
    requires Sorted(slots) && HostAt(slots, a) == None
    ensures !(gpa <= a < gpa + |Hosts(slots, gpa, len)|)
  {
    hide HostAt, Hosts;
    HostsCover(slots, gpa, len);
  }

  // ------------------------------------------------------------------ bytes by address

  function Gather(memory: seq<byte>, hs: seq<nat>): (r: seq<byte>)
    requires Inside(hs, |memory|)
    ensures |r| == |hs|
  {
    seq(|hs|, k requires 0 <= k < |hs| => memory[hs[k]])
  }

  /** Bytes stored one after another, so a later store to the same host byte wins. */
  function Scatter(memory: seq<byte>, hs: seq<nat>, data: seq<byte>): (r: seq<byte>)
    requires Inside(hs, |memory|) && |hs| <= |data|
    ensures |r| == |memory|
    decreases |hs|
  {
    if hs == [] then memory
    else
      var n := |hs| - 1;
      Scatter(memory, hs[..n], data)[hs[n] := data[n]]
  }

  lemma ScatterMore(memory: seq<byte>, hs: seq<nat>, h: nat, data: seq<byte>)
    requires Inside(hs, |memory|) && h < |memory| && |hs| < |data|
    ensures Inside(hs + [h], |memory|) && Scatter(memory, hs + [h], data) == Scatter(memory, hs, data)[h := data[|hs|]]
  {
    var all := hs + [h];
    assert all[..|hs|] == hs && all[|hs|] == h;
  }

  /** `after` is `before` with `part` copied to `start`. */
  ghost predicate Copied(before: seq<byte>, start: nat, part: seq<byte>, after: seq<byte>) {
    && |after| == |before| && start + |part| <= |before|
    && forall k :: 0 <= k < |after| ==> after[k] == if start <= k < start + |part| then part[k - start] else before[k]
  }

  lemma CopiedNothing(before: seq<byte>, start: nat)
    requires start <= |before|
    ensures Copied(before, start, [], before)
  {
  }

  lemma CopiedMore(before: seq<byte>, start: nat, part: seq<byte>, after: seq<byte>, b: byte)
    requires Copied(before, start, part, after) && start + |part| < |before|
    ensures Copied(before, start, part + [b], after[start + |part| := b])
  {
  }

  lemma CopiedOnce(before: seq<byte>, start: nat, part: seq<byte>, a: seq<byte>, b: seq<byte>)
    requires Copied(before, start, part, a) && Copied(before, start, part, b)
    ensures a == b
  {
  }

  lemma FromMore(hs: seq<nat>, start: nat, n: nat)
    ensures hs + From(start, n + 1) == (hs + From(start, n)) + [start + n] && hs + From(start, 0) == hs
  {
  }

  lemma SliceMore(data: seq<byte>, from: nat, n: nat)
    requires from + n < |data|
    ensures data[from..from + n + 1] == data[from..from + n] + [data[from + n]]
  {
  }

  /** Storing a run of host bytes one by one is one copy. */
  lemma {:induction false} ScatterRun(memory: seq<byte>, hs: seq<nat>, data: seq<byte>, start: nat, n: nat)
    requires Inside(hs, |memory|) && start + n <= |memory| && |hs| + n <= |data|
    ensures Inside(hs + From(start, n), |memory|)
    ensures Copied(Scatter(memory, hs, data), start, data[|hs|..|hs| + n], Scatter(memory, hs + From(start, n), data))
    decreases n
  {
    hide From, Scatter, Copied;
    var base := Scatter(memory, hs, data);
    if n == 0 {
      FromMore(hs, start, 0);
      CopiedNothing(base, start);
      assert data[|hs|..|hs| + n] == [];
    } else {
      ScatterRun(memory, hs, data, start, n - 1);
      FromMore(hs, start, n - 1);
      var part, more := data[|hs|..|hs| + (n - 1)], hs + From(start, n - 1);
      ScatterMore(memory, more, start + n - 1, data);
      CopiedMore(base, start, part, Scatter(memory, more, data), data[|hs| + (n - 1)]);
      SliceMore(data, |hs|, n - 1);
    }
  }

  lemma {:induction false} ScatterElsewhere(memory: seq<byte>, hs: seq<nat>, data: seq<byte>, h: nat)
    requires Inside(hs, |memory|) && |hs| <= |data| && h < |memory| && h !in hs
    ensures Scatter(memory, hs, data)[h] == memory[h]
    decreases |hs|
  {
    if hs != [] {
      ScatterElsewhere(memory, hs[..|hs| - 1], data, h);
    }
  }

  lemma {:induction false} ScatterAt(memory: seq<byte>, hs: seq<nat>, data: seq<byte>, k: nat)
    requires Inside(hs, |memory|) && |hs| <= |data| && k < |hs|
    requires forall i, j :: 0 <= i < j < |hs| ==> hs[i] != hs[j]
    ensures Scatter(memory, hs, data)[hs[k]] == data[k]
    decreases |hs|
  {
    var n := |hs| - 1;
    if k < n {
      ScatterAt(memory, hs[..n], data, k);
    }
  }

  // ----------------------------------------------------------------------- the theorem

  /** No two slots share host memory. */
  predicate NoAlias(slots: RamSlots) {
    forall i, j :: 0 <= i < j < |slots| ==> HostApart(slots[i].backend, slots[j].backend)
  }

  predicate HostApart(p: Pages, q: Pages) {
    p.host + p.size <= q.host || q.host + q.size <= p.host
  }

  lemma HostsDiffer(slots: RamSlots, hostSize: nat, a: nat, b: nat)
    requires Sorted(slots) && AllBacked(slots, hostSize) && NoAlias(slots) && a != b
    requires HostAt(slots, a).Some? && HostAt(slots, b).Some?
    ensures HostAt(slots, a) != HostAt(slots, b)
  {
    SearchRefines(slots, a);
    SearchRefines(slots, b);
    var i :| 0 <= i < |slots| && slots[i] == Search(slots, a).value;
    var j :| 0 <= j < |slots| && slots[j] == Search(slots, b).value;
    assert Backed(slots[i], hostSize) && Backed(slots[j], hostSize);
    if i < j {
      assert HostApart(slots[i].backend, slots[j].backend);
    } else if j < i {
      assert HostApart(slots[j].backend, slots[i].backend);
    }
  }

  /** The byte a guest sees at `a`. */
  function FlatAt(memory: seq<byte>, slots: RamSlots, a: nat): Option<byte>
    requires Sorted(slots) && AllBacked(slots, |memory|)
  {
    match HostAt(slots, a)
    case None => None
    case Some(h) =>
      HostInside(slots, |memory|, a);
      Some(memory[h])
  }

  /** A write of `data` at `gpa` changes exactly its own guest addresses, as far as they are mapped. */
  lemma WriteIsFlat(memory: seq<byte>, slots: RamSlots, gpa: nat, data: seq<byte>, a: nat)
    requires Sorted(slots) && AllBacked(slots, |memory|) && NoAlias(slots)
    requires Inside(Hosts(slots, gpa, |data|), |memory|)
    ensures var hs := Hosts(slots, gpa, |data|);
            FlatAt(Scatter(memory, hs, data), slots, a)
            == if gpa <= a < gpa + |hs| then Some(data[a - gpa]) else FlatAt(memory, slots, a)
  {
    hide Scatter, Hosts, HostAt;
    var hs := Hosts(slots, gpa, |data|);
    forall i, j | 0 <= i < j < |hs| ensures hs[i] != hs[j] {
      assert HostAt(slots, gpa + i) == Some(hs[i]) && HostAt(slots, gpa + j) == Some(hs[j]);
      HostsDiffer(slots, |memory|, gpa + i, gpa + j);
    }
    if HostAt(slots, a).Some? {
      var h := HostAt(slots, a).value;
      HostInside(slots, |memory|, a);
      if gpa <= a < gpa + |hs| {
        assert HostAt(slots, gpa + (a - gpa)) == Some(hs[a - gpa]);
        ScatterAt(memory, hs, data, a - gpa);
      } else {
        forall k | 0 <= k < |hs| ensures hs[k] != h {
          assert HostAt(slots, gpa + k) == Some(hs[k]);
          HostsDiffer(slots, |memory|, gpa + k, a);
        }
        ScatterElsewhere(memory, hs, data, h);
      }
    } else {
      NotCovered(slots, gpa, |data|, a);
    }
  }

  /** A read gives the flat bytes. */
  lemma ReadIsFlat(memory: seq<byte>, slots: RamSlots, gpa: nat, len: nat, k: nat)
    requires Sorted(slots) && AllBacked(slots, |memory|) && Inside(Hosts(slots, gpa, len), |memory|)
    requires k < |Hosts(slots, gpa, len)|
    ensures FlatAt(memory, slots, gpa + k) == Some(Gather(memory, Hosts(slots, gpa, len))[k])
  {
    hide HostAt;
    assert HostAt(slots, gpa + k) == Some(Hosts(slots, gpa, len)[k]);
  }

  /** Reading back a write gives what was written. */
  lemma ReadAfterWrite(memory: seq<byte>, slots: RamSlots, gpa: nat, data: seq<byte>)
    requires Sorted(slots) && AllBacked(slots, |memory|) && NoAlias(slots) && Mapped(slots, gpa, |data|)
    requires Inside(Hosts(slots, gpa, |data|), |memory|)
    ensures |Hosts(slots, gpa, |data|)| == |data|
    ensures Gather(Scatter(memory, Hosts(slots, gpa, |data|), data), Hosts(slots, gpa, |data|)) == data
  {
    hide Scatter, Hosts, HostAt, Mapped;
    HostsMapped(slots, gpa, |data|);
    var hs := Hosts(slots, gpa, |data|);
    forall i, j | 0 <= i < j < |hs| ensures hs[i] != hs[j] {
      assert HostAt(slots, gpa + i) == Some(hs[i]) && HostAt(slots, gpa + j) == Some(hs[j]);
      HostsDiffer(slots, |memory|, gpa + i, gpa + j);
    }
    forall k | 0 <= k < |hs| ensures Gather(Scatter(memory, hs, data), hs)[k] == data[k] {
      ScatterAt(memory, hs, data, k);
    }
  }

  /** Two guest addresses behind one host byte: a write through either is seen through the other. */
  lemma AliasShows(memory: seq<byte>, slots: RamSlots, a: nat, b: nat, x: byte)
    requires Sorted(slots) && AllBacked(slots, |memory|)
    requires HostAt(slots, a).Some? && HostAt(slots, a) == HostAt(slots, b)
    requires Inside(Hosts(slots, a, 1), |memory|)
    ensures FlatAt(Scatter(memory, Hosts(slots, a, 1), [x]), slots, b) == Some(x)
  {
    hide HostAt;
    var h := HostAt(slots, a).value;
    HostsUnique(slots, a, 1, [h]);
    assert Scatter(memory, [h], [x]) == memory[h := x] by {
      assert [h][..0] == [];
    }
  }

  /** A write of `data` at `gpa` shows at `a` exactly if it should. */
  ghost predicate WritesFlat(memory: seq<byte>, slots: RamSlots, gpa: nat, data: seq<byte>, a: nat)
    requires Sorted(slots) && AllBacked(slots, |memory|)
  {
    var hs := Hosts(slots, gpa, |data|);
    && Inside(hs, |memory|)
    && FlatAt(Scatter(memory, hs, data), slots, a)
       == if gpa <= a < gpa + |hs| then Some(data[a - gpa]) else FlatAt(memory, slots, a)
  }

  lemma SlotHost(slots: RamSlots, hostSize: nat, i: nat, a: nat)
    requires Sorted(slots) && AllBacked(slots, hostSize) && i < |slots| && slots[i].Holds(a)
    ensures HostAt(slots, a) == Some(slots[i].backend.host + (a - slots[i].addr))
  {
    hide Sorted, Search;
    SearchRefines(slots, a);
    assert slots[i] in SetOf(slots);
  }

  /** Guest addresses in two slots that share a host byte. */
  lemma SharedByte(slots: RamSlots, hostSize: nat, i: nat, j: nat) returns (a: nat, b: nat)
    requires Sorted(slots) && AllBacked(slots, hostSize) && i < j < |slots|
             && !HostApart(slots[i].backend, slots[j].backend)
    ensures a != b && HostAt(slots, a).Some? && HostAt(slots, a) == HostAt(slots, b)
  {
    var s, t := slots[i], slots[j];
    assert Backed(s, hostSize) && Backed(t, hostSize) && SlotIndex.Fits(s) && SlotIndex.Fits(t);
    var h := if s.backend.host < t.backend.host then t.backend.host else s.backend.host;
    a, b := s.addr + (h - s.backend.host), t.addr + (h - t.backend.host);
    SlotHost(slots, hostSize, i, a);
    SlotHost(slots, hostSize, j, b);
  }

  /** Every write, to every memory, shows exactly at its own guest addresses if and only if no two slots share host
      memory. */
  lemma FlatIff(slots: RamSlots, hostSize: nat)
    requires Sorted(slots) && AllBacked(slots, hostSize)
    ensures (forall memory: seq<byte>, gpa: nat, data: seq<byte>, a: nat :: |memory| == hostSize ==>
               WritesFlat(memory, slots, gpa, data, a))
            <==> NoAlias(slots)
  {
    hide Sorted, AllBacked, HostAt, Hosts, Scatter;
    if NoAlias(slots) {
      forall memory: seq<byte>, gpa: nat, data: seq<byte>, a: nat | |memory| == hostSize
        ensures WritesFlat(memory, slots, gpa, data, a)
      {
        HostsInside(slots, hostSize, gpa, |data|);
        WriteIsFlat(memory, slots, gpa, data, a);
      }
    } else {
      var i, j :| 0 <= i < j < |slots| && !HostApart(slots[i].backend, slots[j].backend);
      var a, b := SharedByte(slots, hostSize, i, j);
      var memory: seq<byte> := Zeros(hostSize);
      HostsInside(slots, hostSize, a, 1);
      AliasShows(memory, slots, a, b, 1);
      HostInside(slots, hostSize, b);
      assert !WritesFlat(memory, slots, a, [1], b);
    }
  }
}
