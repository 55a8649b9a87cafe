/** Guest RAM as the program holds it: slots of host pages, read and written across slot borders. */
module Ram {
  import opened Bytes
  import opened Wrappers
  import opened SlotIndex
  import opened Addressable
  import opened FlatRam
  import opened Lists

  /** How an access ends: at the first unmapped address, if there is one. */
  function Outcome(slots: RamSlots, gpa: nat, len: nat): Result<(), Error>
    requires Sorted(slots)
  {
    if len == 0 then
      match PartialSlice(slots, gpa, 0)
      case Ok(_) => Ok(())
      case Err(e) => Err(e)
    else
      var n := |Hosts(slots, gpa, len)|;
      if n == len then Ok(()) else Err(NotMapped(gpa + n))
  }

  /** An access to some bytes succeeds exactly when they are all mapped; one to no byte, where a slot starts. */
  lemma OutcomeExact(slots: RamSlots, hostSize: nat, gpa: nat, len: nat)
    requires Sorted(slots) && AllBacked(slots, hostSize) && gpa < U64_SPAN && gpa + len <= U64_SPAN
    ensures len > 0 ==> (Outcome(slots, gpa, len).Ok? <==> Mapped(slots, gpa, len))
    ensures len == 0 ==> (Outcome(slots, gpa, len).Ok? <==> exists s :: s in slots && s.addr == gpa)
  {
    if len == 0 {
      EmptyPiece(slots, hostSize, gpa);
    } else {
      HostsMapped(slots, gpa, len);
    }
  }

  lemma GatherRun(memory: seq<byte>, hs: seq<nat>, start: nat, n: nat)
    requires FlatRam.Inside(hs, |memory|) && start + n <= |memory|
    ensures FlatRam.Inside(hs + From(start, n), |memory|)
    ensures Gather(memory, hs + From(start, n)) == Gather(memory, hs) + memory[start..start + n]
  {
  }

  /** The pieces of a run so far, and one more. */
  lemma NextPiece(slots: RamSlots, hostSize: nat, gpa: nat, cur: nat, len: nat)
    requires Sorted(slots) && AllBacked(slots, hostSize) && cur < len && gpa + len <= U64_SPAN
    requires |Hosts(slots, gpa, cur)| == cur
    ensures var r := PartialSlice(slots, gpa + cur, len - cur);
            r.Ok? ==> 0 < r.value.1 <= len - cur && r.value.0 + r.value.1 <= hostSize
                      && Hosts(slots, gpa, cur + r.value.1) == Hosts(slots, gpa, cur) + From(r.value.0, r.value.1)
    ensures var r := PartialSlice(slots, gpa + cur, len - cur);
            r.Err? ==> r.error == NotMapped(gpa + cur) && Hosts(slots, gpa, len) == Hosts(slots, gpa, cur)
  {
    hide Hosts, PartialSlice, Sorted, HostAt;
    PieceExact(slots, hostSize, gpa + cur, len - cur);
    match PartialSlice(slots, gpa + cur, len - cur)
    case Ok(p) =>
      HostsSplit(slots, gpa, cur + p.1, cur);
    case Err(_) =>
      HostsSplit(slots, gpa, len, cur);
      HostsNone(slots, gpa + cur, len - cur);
  }

  /** The first piece decides an access that it covers or that cannot start. */
  lemma {:induction false} FirstPiece(slots: RamSlots, hostSize: nat, gpa: nat, len: nat)
    requires Sorted(slots) && AllBacked(slots, hostSize) && gpa < U64_SPAN && gpa + len <= U64_SPAN
    ensures var r := PartialSlice(slots, gpa, len);
            && (r.Err? ==> Outcome(slots, gpa, len) == Err(r.error) && Hosts(slots, gpa, len) == [])
            && (r.Ok? && r.value.1 != len ==> len > 0)
            && (r.Ok? && r.value.1 == len ==>
                  Outcome(slots, gpa, len) == Ok(()) && Hosts(slots, gpa, len) == From(r.value.0, len)
                      && r.value.0 + len <= hostSize)
  {
    hide Sorted, Hosts, PartialSlice, HostAt;
    NoneYet(slots, [], gpa, []);
    if len == 0 {
      EmptyPiece(slots, hostSize, gpa);
      if PartialSlice(slots, gpa, 0).Ok? {
        EmptyInside(slots, hostSize, gpa);
        assert From(PartialSlice(slots, gpa, 0).value.0, 0) == [];
      }
    } else {
      NextPiece(slots, hostSize, gpa, 0, len);
      if PartialSlice(slots, gpa, len).Ok? {
        var p := PartialSlice(slots, gpa, len).value;
        assert [] + From(p.0, p.1) == From(p.0, p.1);
      }
    }
  }

  lemma EmptyInside(slots: RamSlots, hostSize: nat, gpa: nat)
    requires Sorted(slots) && AllBacked(slots, hostSize) && PartialSlice(slots, gpa, 0).Ok?
    ensures PartialSlice(slots, gpa, 0).value.0 <= hostSize
  {
    SearchRefines(slots, gpa);
    assert Backed(Search(slots, gpa).value, hostSize);
  }

  class Ram {
    const inner: Addressable<Pages>
    const host: array<byte>

    ghost predicate Valid()
      reads inner
    {
      inner.Valid() && AllBacked(inner.slots, host.Length)
    }

    constructor (host: array<byte>)
      ensures Valid() && this.host == host && fresh(inner) && inner.slots == []
    {
      inner := new Addressable();
      this.host := host;
    }

    method Slice(gpa: nat, len: nat) returns (r: Result<(nat, nat), Error>)
      requires Valid()
      ensures r == PartialSlice(inner.slots, gpa, len)
    {
      var found := inner.Find(gpa);
      match found
      case None => return Err(NotMapped(gpa));
      case Some(s) => return ValidRange(s.backend, gpa - s.addr, len);
    }

    /** `read`: `buf` gets the bytes up to the first unmapped address. */
    method Read(gpa: nat, buf: array<byte>) returns (r: Result<(), Error>)
      requires Valid() && buf != host && gpa < U64_SPAN && gpa + buf.Length <= U64_SPAN
      modifies buf
      ensures r == Outcome(inner.slots, gpa, buf.Length)
      ensures var hs := Hosts(inner.slots, gpa, buf.Length);
              FlatRam.Inside(hs, host.Length) && buf[..] == Gather(host[..], hs) + old(buf[..])[|hs|..]
    {
      hide Sorted, Hosts, PartialSlice, Gather, HostAt, Outcome, Copied, From, Behind;
      ghost var slots, memory := inner.slots, host[..];
      HostsInside(slots, host.Length, gpa, buf.Length);
      FirstPiece(slots, host.Length, gpa, buf.Length);
      GatherNone(memory, buf[..]);
      var piece := Slice(gpa, buf.Length);
      if piece.Err? {
        return Err(piece.error);
      }
      var (h, n) := piece.value;
      if n == buf.Length {
        GatherAll(memory, h, n);
        ghost var was := buf[..];
        Copy(h, buf, 0, n);
        CopiedWhole(was, memory[h..h + n], buf[..]);
        assert host[..] == memory;
        return Ok(());
      }
      r := ReadPieces(gpa, buf);
    }

    /** `copy_from_slice`, out of the host's memory. */
    method Copy(h: nat, buf: array<byte>, at: nat, n: nat)
      requires buf != host && h + n <= host.Length && at + n <= buf.Length
      modifies buf
      ensures Copied(old(buf[..]), at, host[h..h + n], buf[..])
    {
      forall k | 0 <= k < n {
        buf[at + k] := host[h + k];
      }
    }

    /** The multi-slot path of `read`. */
    method ReadPieces(gpa: nat, buf: array<byte>) returns (r: Result<(), Error>)
      requires Valid() && buf != host && 0 < buf.Length && gpa + buf.Length <= U64_SPAN
      modifies buf
      ensures r == Outcome(inner.slots, gpa, buf.Length)
      ensures var hs := Hosts(inner.slots, gpa, buf.Length);
              FlatRam.Inside(hs, host.Length) && buf[..] == Gather(host[..], hs) + old(buf[..])[|hs|..]
    {
      hide Sorted, Hosts, PartialSlice, Gather, HostAt, Copied, From, ReadTo;
      ghost var slots, first, memory := inner.slots, buf[..], host[..];
      ReadNone(slots, memory, gpa, first);
      var cur := 0;
      while cur < buf.Length
        invariant cur <= buf.Length && host[..] == memory
        invariant ReadTo(slots, memory, gpa, first, cur, buf[..])
      {
        ReadCount(slots, memory, gpa, first, cur, buf[..]);
        NextPiece(slots, host.Length, gpa, cur, buf.Length);
        var piece := Slice(gpa + cur, buf.Length - cur);
        if piece.Err? {
          ReadResult(slots, memory, gpa, first, cur, buf[..]);
          return Err(piece.error);
        }
        var (h, n) := piece.value;
        ghost var was := buf[..];
        Copy(h, buf, cur, n);
        ReadMore(slots, memory, gpa, first, cur, was, h, n, buf[..]);
        cur := cur + n;
      }
      ReadResult(slots, memory, gpa, first, cur, buf[..]);
      return Ok(());
    }

    /** `write`: host bytes are stored up to the first unmapped address. */
    method Write(gpa: nat, data: seq<byte>) returns (r: Result<(), Error>)
      requires Valid() && gpa < U64_SPAN && gpa + |data| <= U64_SPAN
      modifies host
      ensures r == Outcome(inner.slots, gpa, |data|)
      ensures var hs := Hosts(inner.slots, gpa, |data|);
              FlatRam.Inside(hs, host.Length) && host[..] == Scatter(old(host[..]), hs, data)
    {
      hide Sorted, Hosts, PartialSlice, HostAt, Outcome, Scatter;
      ghost var slots, memory := inner.slots, host[..];
      HostsInside(slots, host.Length, gpa, |data|);
      FirstPiece(slots, host.Length, gpa, |data|);
      NoneYet(slots, memory, gpa, data);
      var piece := Slice(gpa, |data|);
      if piece.Err? {
        return Err(piece.error);
      }
      var (h, n) := piece.value;
      if n == |data| {
        ScatterAll(memory, h, data);
        Store(h, data);
        CopiedOnce(memory, h, data, host[..], Scatter(memory, From(h, n), data));
        return Ok(());
      }
      r := WritePieces(gpa, data);
    }

    /** One copy into host memory. */
    method Store(h: nat, part: seq<byte>)
      requires h + |part| <= host.Length
      modifies host
      ensures Copied(old(host[..]), h, part, host[..])
    {
      forall k | 0 <= k < |part| {
        host[h + k] := part[k];
      }
    }

    /** The multi-slot path of `write`. */
    method WritePieces(gpa: nat, data: seq<byte>) returns (r: Result<(), Error>)
      requires Valid() && 0 < |data| && gpa + |data| <= U64_SPAN
      modifies host
      ensures r == Outcome(inner.slots, gpa, |data|)
      ensures var hs := Hosts(inner.slots, gpa, |data|);
              FlatRam.Inside(hs, host.Length) && host[..] == Scatter(old(host[..]), hs, data)
    {
      hide Sorted, Hosts, PartialSlice, HostAt, Scatter, Copied, From, Behind;
      ghost var slots, memory := inner.slots, host[..];
      HostsInside(slots, host.Length, gpa, |data|);
      NoneYet(slots, memory, gpa, data);
      var cur := 0;
      ghost var hs := Hosts(slots, gpa, 0);
      while cur < |data|
        invariant cur <= |data|
        invariant hs == Hosts(slots, gpa, cur) && |hs| == cur && FlatRam.Inside(hs, |memory|)
        invariant host[..] == Scatter(memory, hs, data)
      {
        NextPiece(slots, host.Length, gpa, cur, |data|);
        var piece := Slice(gpa + cur, |data| - cur);
        if piece.Err? {
          return Err(piece.error);
        }
        var (h, n) := piece.value;
        ScatterRun(memory, hs, data, h, n);
        ghost var was := host[..];
        Store(h, data[cur..cur + n]);
        CopiedOnce(was, h, data[cur..cur + n], host[..], Scatter(memory, hs + From(h, n), data));
        hs := hs + From(h, n);
        cur := cur + n;
      }
      return Ok(());
    }

    /** `slice_iter`, run to its end: the host pieces of a guest piece, or the first unmapped address. */
    method Slices(gpa: nat, len: nat) returns (r: Result<seq<(nat, nat)>, Error>)
      requires Valid() && gpa + len <= U64_SPAN
      ensures var hs := Hosts(inner.slots, gpa, len);
              && (r.Ok? ==> |hs| == len && Flatten(r.value) == hs && NoneEmpty(r.value))
              && (r.Err? ==> |hs| < len && r.error == NotMapped(gpa + |hs|))
    {
      hide Sorted, Hosts, PartialSlice, HostAt, Flatten;
      ghost var slots := inner.slots;
      var pieces: seq<(nat, nat)>, cur := [], 0;
      NoneYet(slots, [], gpa, []);
      FlattenNone();
      while cur < len
        invariant cur <= len && |Hosts(slots, gpa, cur)| == cur
        invariant Flatten(pieces) == Hosts(slots, gpa, cur) && NoneEmpty(pieces)
      {
        NextPiece(slots, host.Length, gpa, cur, len);
        var piece := Slice(gpa + cur, len - cur);
        if piece.Err? {
          return Err(piece.error);
        }
        FlattenMore(pieces, piece.value);
        pieces := pieces + [piece.value];
        cur := cur + piece.value.1;
      }
      return Ok(pieces);
    }

    /** `translate_iov`: the host pieces of every guest piece, in order. */
    method TranslateIov(iov: seq<(nat, nat)>) returns (r: Result<seq<(nat, nat)>, Error>)
      requires Valid() && forall i :: 0 <= i < |iov| ==> iov[i].0 + iov[i].1 <= U64_SPAN
      ensures r.Ok? ==>
                AllMapped(inner.slots, iov) && Flatten(r.value) == IovHosts(inner.slots, iov) && NoneEmpty(r.value)
      ensures r.Ok? ==> Delivered(inner.slots, iov, r.value)
      ensures r.Err? ==> !AllMapped(inner.slots, iov) && r.error.NotMapped? && FirstHole(inner.slots, iov, r.error.addr)
    {
      hide Sorted, Hosts, Flatten, HostAt;
      ghost var slots := inner.slots;
      var pieces: seq<(nat, nat)> := [];
      FlattenNone();
      for i := 0 to |iov|
        invariant AllMapped(slots, iov[..i]) && Flatten(pieces) == IovHosts(slots, iov[..i]) && NoneEmpty(pieces)
      {
        var some := Slices(iov[i].0, iov[i].1);
        if some.Err? {
          HoleAt(slots, iov, i);
          return some;
        }
        FlattenConcat(pieces, some.value);
        assert iov[..i + 1][..i] == iov[..i];
        pieces := pieces + some.value;
      }
      assert iov[..|iov|] == iov;
      AllDelivered(slots, iov, pieces);
      return Ok(pieces);
    }
  }

  lemma NoneYet(slots: RamSlots, memory: seq<byte>, gpa: nat, first: seq<byte>)
    requires Sorted(slots)
    ensures Hosts(slots, gpa, 0) == [] && FlatRam.Inside([], |memory|)
    ensures Gather(memory, []) + first[0..] == first && Scatter(memory, [], first) == memory
  {
  }

  /** The first `cur` bytes of a read are in the buffer, and the rest of it is as before. */
  ghost predicate ReadTo(slots: RamSlots, memory: seq<byte>, gpa: nat, first: seq<byte>, cur: nat, now: seq<byte>)
    requires Sorted(slots)
  {
    var hs := Hosts(slots, gpa, cur);
    |hs| == cur <= |first| && FlatRam.Inside(hs, |memory|) && now == Gather(memory, hs) + first[cur..]
  }

  lemma ReadNone(slots: RamSlots, memory: seq<byte>, gpa: nat, first: seq<byte>)
    requires Sorted(slots)
    ensures ReadTo(slots, memory, gpa, first, 0, first)
  {
    NoneYet(slots, memory, gpa, first);
  }

  lemma ReadCount(slots: RamSlots, memory: seq<byte>, gpa: nat, first: seq<byte>, cur: nat, now: seq<byte>)
    requires Sorted(slots) && ReadTo(slots, memory, gpa, first, cur, now)
    ensures |Hosts(slots, gpa, cur)| == cur
  {
  }

  /** One more piece copied to the buffer. */
  lemma ReadMore(slots: RamSlots, memory: seq<byte>, gpa: nat, first: seq<byte>, cur: nat, was: seq<byte>, h: nat,
                 n: nat, now: seq<byte>)
    requires Sorted(slots) && ReadTo(slots, memory, gpa, first, cur, was) && cur + n <= |first| && h + n <= |memory|
    requires Hosts(slots, gpa, cur + n) == Hosts(slots, gpa, cur) + From(h, n)
    requires Copied(was, cur, memory[h..h + n], now)
    ensures ReadTo(slots, memory, gpa, first, cur + n, now)
  {
    hide Sorted, Hosts, Copied, Gather, From;
    var hs := Hosts(slots, gpa, cur);
    GatherRun(memory, hs, h, n);
    CopyAfter(Gather(memory, hs), first, memory[h..h + n], was, now);
  }

  /** Where the read ends there is nothing more to read. */
  lemma ReadResult(slots: RamSlots, memory: seq<byte>, gpa: nat, first: seq<byte>, cur: nat, now: seq<byte>)
    requires Sorted(slots) && ReadTo(slots, memory, gpa, first, cur, now) && 0 < |first|
    requires Hosts(slots, gpa, |first|) == Hosts(slots, gpa, cur)
    ensures Outcome(slots, gpa, |first|) == if cur == |first| then Ok(()) else Err(NotMapped(gpa + cur))
    ensures var hs := Hosts(slots, gpa, |first|);
            FlatRam.Inside(hs, |memory|) && now == Gather(memory, hs) + first[|hs|..]
  {
    hide Sorted, Hosts, Gather;
  }

  lemma CopiedWhole(was: seq<byte>, part: seq<byte>, now: seq<byte>)
    requires |part| == |was| && Copied(was, 0, part, now)
    ensures now == part + was[|part|..]
  {
  }

  lemma GatherNone(memory: seq<byte>, first: seq<byte>)
    ensures FlatRam.Inside([], |memory|) && Gather(memory, []) + first[0..] == first
  {
  }

  lemma GatherAll(memory: seq<byte>, h: nat, n: nat)
    requires h + n <= |memory|
    ensures FlatRam.Inside(From(h, n), |memory|) && Gather(memory, From(h, n)) == memory[h..h + n]
  {
  }

  lemma ScatterAll(memory: seq<byte>, h: nat, data: seq<byte>)
    requires h + |data| <= |memory|
    ensures FlatRam.Inside(From(h, |data|), |memory|)
    ensures Copied(memory, h, data, Scatter(memory, From(h, |data|), data))
  {
    hide Scatter, From, Copied;
    ScatterFirst(memory, data, h, |data|);
    TakeAll(data);
  }

  lemma TakeAll(data: seq<byte>)
    ensures data[..|data|] == data
  {
  }

  lemma {:induction false} ScatterFirst(memory: seq<byte>, data: seq<byte>, start: nat, n: nat)
    requires start + n <= |memory| && n <= |data|
    ensures FlatRam.Inside(From(start, n), |memory|)
    ensures Copied(memory, start, data[..n], Scatter(memory, From(start, n), data))
    decreases n
  {
    hide Scatter, From, Copied;
    FromEnds(start, n);
    if n == 0 {
      ScatterNothing(memory, data);
      CopiedNothing(memory, start);
    } else {
      ScatterFirst(memory, data, start, n - 1);
      ScatterMore(memory, From(start, n - 1), start + n - 1, data);
      CopiedMore(memory, start, data[..n - 1], Scatter(memory, From(start, n - 1), data), data[n - 1]);
      TakeMore(data, n);
    }
  }

  lemma FromEnds(start: nat, n: nat)
    ensures From(start, n) == if n == 0 then [] else From(start, n - 1) + [start + n - 1]
  {
  }

  lemma TakeMore(data: seq<byte>, n: nat)
    requires 0 < n <= |data|
    ensures data[..n] == data[..n - 1] + [data[n - 1]]
  {
  }

  lemma ScatterNothing(memory: seq<byte>, data: seq<byte>)
    ensures FlatRam.Inside([], |memory|) && Scatter(memory, [], data) == memory
  {
  }

  lemma CopyAfter(front: seq<byte>, first: seq<byte>, part: seq<byte>, was: seq<byte>, now: seq<byte>)
    requires |front| + |part| <= |first| && was == front + first[|front|..] && Copied(was, |front|, part, now)
    ensures now == (front + part) + first[|front| + |part|..]
  {
  }

  // ------------------------------------------------------------------------ iovecs

  /** The host addresses of a list of host pieces. */
  ghost function Flatten(pieces: seq<(nat, nat)>): seq<nat> {
    if pieces == [] then [] else Flatten(pieces[..|pieces| - 1]) + From(pieces[|pieces| - 1].0, pieces[|pieces| - 1].1)
  }

  ghost predicate NoneEmpty(pieces: seq<(nat, nat)>) {
    forall i :: 0 <= i < |pieces| ==> pieces[i].1 > 0
  }

  /** The host addresses of a list of guest pieces. */
  ghost function IovHosts(slots: RamSlots, iov: seq<(nat, nat)>): seq<nat>
    requires Sorted(slots)
  {
    if iov == [] then [] else IovHosts(slots, iov[..|iov| - 1]) + Hosts(slots, iov[|iov| - 1].0, iov[|iov| - 1].1)
  }

  /** The addresses of a host piece, from its first. */
  function HostRuns(pieces: seq<(nat, nat)>): (runs: seq<seq<nat>>)
    ensures |runs| == |pieces|
    ensures forall i :: 0 <= i < |pieces| ==>
              |runs[i]| == pieces[i].1 && forall k :: 0 <= k < |runs[i]| ==> runs[i][k] == pieces[i].0 + k
  {
    seq(|pieces|, i requires 0 <= i < |pieces| => From(pieces[i].0, pieces[i].1))
  }

  /** Host address `run[k]` is behind guest address `gpa + k`, for all `len` of them. */
  ghost predicate RunBehind(slots: RamSlots, gpa: nat, len: nat, run: seq<nat>)
    requires Sorted(slots)
  {
    |run| == len && forall k :: 0 <= k < |run| ==> HostAt(slots, gpa + k) == Some(run[k])
  }

  /** Byte by byte, the host pieces one after another are what is behind the guest pieces one after another. */
  ghost predicate Delivered(slots: RamSlots, iov: seq<(nat, nat)>, pieces: seq<(nat, nat)>)
    requires Sorted(slots)
  {
    exists runs: seq<seq<nat>>, bytes: seq<nat> ::
      RunsBehind(slots, iov, runs) && Joined<nat>(runs, bytes) && Joined<nat>(HostRuns(pieces), bytes)
  }

  ghost predicate RunsBehind(slots: RamSlots, iov: seq<(nat, nat)>, runs: seq<seq<nat>>)
    requires Sorted(slots)
  {
    |runs| == |iov| && forall i :: 0 <= i < |iov| ==> RunBehind(slots, iov[i].0, iov[i].1, runs[i])
  }

  lemma {:induction false} FlattenJoins(pieces: seq<(nat, nat)>)
    ensures Joined<nat>(HostRuns(pieces), Flatten(pieces))
    decreases |pieces|
  {
    hide Joined;
    if pieces == [] {
      JoinedNone<nat>();
      assert HostRuns(pieces) == [];
    } else {
      var n := |pieces| - 1;
      FlattenJoins(pieces[..n]);
      JoinedMore(HostRuns(pieces[..n]), Flatten(pieces[..n]), From(pieces[n].0, pieces[n].1));
      assert HostRuns(pieces) == HostRuns(pieces[..n]) + [From(pieces[n].0, pieces[n].1)];
    }
  }

  ghost function IovRuns(slots: RamSlots, iov: seq<(nat, nat)>): seq<seq<nat>>
    requires Sorted(slots)
  {
    seq(|iov|, i requires 0 <= i < |iov| => Hosts(slots, iov[i].0, iov[i].1))
  }

  lemma {:induction false} IovJoins(slots: RamSlots, iov: seq<(nat, nat)>)
    requires Sorted(slots)
    ensures Joined<nat>(IovRuns(slots, iov), IovHosts(slots, iov))
    decreases |iov|
  {
    hide Joined, Sorted, Hosts;
    if iov == [] {
      JoinedNone<nat>();
      assert IovRuns(slots, iov) == [];
    } else {
      var n := |iov| - 1;
      IovJoins(slots, iov[..n]);
      var run := Hosts(slots, iov[n].0, iov[n].1);
      JoinedMore(IovRuns(slots, iov[..n]), IovHosts(slots, iov[..n]), run);
      assert IovRuns(slots, iov) == IovRuns(slots, iov[..n]) + [run];
    }
  }

  lemma AllDelivered(slots: RamSlots, iov: seq<(nat, nat)>, pieces: seq<(nat, nat)>)
    requires Sorted(slots) && AllMapped(slots, iov) && Flatten(pieces) == IovHosts(slots, iov)
    ensures Delivered(slots, iov, pieces)
  {
    hide Joined, Sorted, HostAt, Flatten, IovHosts;
    FlattenJoins(pieces);
    IovJoins(slots, iov);
    var runs := IovRuns(slots, iov);
    forall i | 0 <= i < |iov| ensures RunBehind(slots, iov[i].0, iov[i].1, runs[i]) {
      assert runs[i] == Hosts(slots, iov[i].0, iov[i].1);
    }
    var bytes := IovHosts(slots, iov);
    assert RunsBehind(slots, iov, runs) && Joined<nat>(runs, bytes) && Joined<nat>(HostRuns(pieces), bytes);
  }

  ghost predicate AllMapped(slots: RamSlots, iov: seq<(nat, nat)>)
    requires Sorted(slots)
  {
    forall i :: 0 <= i < |iov| ==> |Hosts(slots, iov[i].0, iov[i].1)| == iov[i].1
  }

  /** `a` is the first unmapped address of the first guest piece that has one. */
  ghost predicate FirstHole(slots: RamSlots, iov: seq<(nat, nat)>, a: nat)
    requires Sorted(slots)
  {
    exists i :: 0 <= i < |iov| && AllMapped(slots, iov[..i]) && a == iov[i].0 + |Hosts(slots, iov[i].0, iov[i].1)|
                && a < iov[i].0 + iov[i].1
  }

  lemma HoleAt(slots: RamSlots, iov: seq<(nat, nat)>, i: nat)
    requires Sorted(slots) && i < |iov| && AllMapped(slots, iov[..i])
    requires |Hosts(slots, iov[i].0, iov[i].1)| < iov[i].1
    ensures !AllMapped(slots, iov) && FirstHole(slots, iov, iov[i].0 + |Hosts(slots, iov[i].0, iov[i].1)|)
  {
  }

  lemma FlattenNone()
    ensures Flatten([]) == []
  {
  }

  lemma FlattenMore(pieces: seq<(nat, nat)>, p: (nat, nat))
    ensures Flatten(pieces + [p]) == Flatten(pieces) + From(p.0, p.1)
  {
    assert (pieces + [p])[..|pieces|] == pieces;
  }

  lemma {:induction false} FlattenConcat(a: seq<(nat, nat)>, b: seq<(nat, nat)>)
    ensures Flatten(a + b) == Flatten(a) + Flatten(b)
    decreases |b|
  {
    hide Flatten, From;
    if b == [] {
      assert a + b == a;
      FlattenEmpty();
    } else {
      var n := |b| - 1;
      FlattenConcat(a, b[..n]);
      assert (a + b)[..|a| + n] == a + b[..n];
      assert (a + b)[|a| + n] == b[n];
      FlattenLast(a + b);
      FlattenLast(b);
      FlattenJoin(Flatten(a), Flatten(b[..n]), From(b[n].0, b[n].1));
    }
  }

  lemma FlattenEmpty()
    ensures Flatten([]) == []
  {
  }

  lemma FlattenLast(a: seq<(nat, nat)>)
    requires a != []
    ensures var n := |a| - 1; Flatten(a) == Flatten(a[..n]) + From(a[n].0, a[n].1)
  {
  }

  lemma FlattenJoin(a: seq<nat>, b: seq<nat>, c: seq<nat>)
    ensures (a + b) + c == a + (b + c)
  {
  }
}
