/**
 From the descriptors of a chain to the buffers a device works on: indirect descriptors are
 replaced by the tables they name, and buffers are sorted by direction.
 */
module IndirectTables {
  import opened Wrappers
  import opened QueueSpec
  import opened Rings
  import opened Lists

  const DESC_SIZE: nat := 16

  /** The descriptors that can be read from guest memory, by address. */
  type Tables = map<nat, SplitDesc>

  function Plain(d: SplitDesc): Buf {
    Buf(d.addr, d.len, d.flag.write, false)
  }

  /** A packed ring's table: `n` descriptors in a row. */
  function PackedTable(memory: Tables, addr: nat, n: nat): Option<seq<Buf>> {
    if n == 0 then Some([])
    else
      match PackedTable(memory, addr, n - 1)
      case None => None
      case Some(bufs) =>
        var at := addr + (n - 1) * DESC_SIZE;
        if at in memory then Some(bufs + [Plain(memory[at])]) else None
  }

  /** A split ring's table, from entry `id`: descriptors linked by index, none of them indirect. */
  function SplitTable(memory: Tables, addr: nat, id: nat, fuel: nat): Option<seq<Buf>>
    decreases fuel
  {
    var at := addr + id * DESC_SIZE;
    if fuel == 0 || at !in memory || memory[at].flag.indirect then None
    else
      var d := memory[at];
      if !d.flag.next then Some([Plain(d)])
      else
        match SplitTable(memory, addr, d.next, fuel - 1)
        case None => None
        case Some(bufs) => Some([Plain(d)] + bufs)
  }

  /** No table that ends has more entries than a 16-bit index can name. */
  const TABLE_MAX: nat := 0x1_0000

  function TableOf(kind: Kind, memory: Tables, b: Buf): Option<seq<Buf>> {
    if !b.indirect then Some([b])
    else
      match kind
      case Packed => PackedTable(memory, b.addr, b.len / DESC_SIZE)
      case Split => SplitTable(memory, b.addr, 0, TABLE_MAX)
  }

  /** All buffers of a chain, in order. */
  function Expand(kind: Kind, memory: Tables, bufs: seq<Buf>): Option<seq<Buf>> {
    if bufs == [] then Some([])
    else
      var n := |bufs| - 1;
      match Expand(kind, memory, bufs[..n])
      case None => None
      case Some(before) =>
        match TableOf(kind, memory, bufs[n])
        case None => None
        case Some(table) => Some(before + table)
  }

  /** The buffers of one direction, in order. */
  function Side(bufs: seq<Buf>, write: bool): seq<Buf> {
    if bufs == [] then []
    else
      var n := |bufs| - 1;
      Side(bufs[..n], write) + if bufs[n].write == write then [bufs[n]] else []
  }

  // ------------------------------------------------------------ what the driver writes

  /** The descriptor of a plain buffer. */
  ghost predicate Describes(d: SplitDesc, b: Buf) {
    b.addr == d.addr && b.len == d.len && b.write == d.flag.write && !b.indirect
  }

  /** Entry `j` of a packed table at `addr` is `table[j]`. */
  ghost predicate PackedAt(memory: Tables, addr: nat, table: seq<Buf>, j: nat)
    requires j < |table|
  {
    var at := addr + j * DESC_SIZE;
    at in memory && Describes(memory[at], table[j])
  }

  /** Entry `path[j]` of a split table at `addr` is `table[j]`, linked to the next. */
  ghost predicate SplitAt(memory: Tables, addr: nat, table: seq<Buf>, path: seq<nat>, j: nat)
    requires j < |table| == |path|
  {
    var at := addr + path[j] * DESC_SIZE;
    && at in memory && Describes(memory[at], table[j]) && !memory[at].flag.indirect
    && memory[at].flag.next == (j + 1 < |path|) && (j + 1 < |path| ==> memory[at].next == path[j + 1])
  }

  /** Descriptor `b` stands for the buffers `table`, as sections 2.7.5.3 and 2.8.7 of Virtio 1.2 lay it out. */
  ghost predicate StandsFor(kind: Kind, memory: Tables, b: Buf, table: seq<Buf>, path: seq<nat>) {
    if !b.indirect then table == [b]
    else
      match kind
      case Packed => b.len == |table| * DESC_SIZE && forall j :: 0 <= j < |table| ==> PackedAt(memory, b.addr, table, j)
      case Split =>
        0 < |table| == |path| <= TABLE_MAX && path[0] == 0 && forall j :: 0 <= j < |table| ==>
            SplitAt(memory, b.addr, table, path, j)
  }

  lemma {:induction false} PackedReads(memory: Tables, addr: nat, table: seq<Buf>, n: nat)
    requires n <= |table| && forall j :: 0 <= j < n ==> PackedAt(memory, addr, table, j)
    ensures PackedTable(memory, addr, n) == Some(table[..n])
    decreases n
  {
    if n > 0 {
      PackedReads(memory, addr, table, n - 1);
      assert PackedAt(memory, addr, table, n - 1);
      assert table[..n] == table[..n - 1] + [table[n - 1]];
    }
  }

  lemma {:induction false} SplitReads(memory: Tables, addr: nat, table: seq<Buf>, path: seq<nat>, j: nat, fuel: nat)
    requires j < |table| == |path| <= fuel + j && forall k :: 0 <= k < |table| ==> SplitAt(memory, addr, table, path, k)
    ensures SplitTable(memory, addr, path[j], fuel) == Some(table[j..])
    decreases fuel
  {
    assert SplitAt(memory, addr, table, path, j);
    if j + 1 < |table| {
      SplitReads(memory, addr, table, path, j + 1, fuel - 1);
      assert table[j..] == [table[j]] + table[j + 1..];
    } else {
      assert table[j..] == [table[j]];
    }
  }

  lemma TableReads(kind: Kind, memory: Tables, b: Buf, table: seq<Buf>, path: seq<nat>)
    requires StandsFor(kind, memory, b, table, path)
    ensures TableOf(kind, memory, b) == Some(table)
  {
    if b.indirect {
      match kind
      case Packed =>
        PackedReads(memory, b.addr, table, |table|);
        assert table[..|table|] == table;
      case Split =>
        SplitReads(memory, b.addr, table, path, 0, TABLE_MAX);
        assert table[0..] == table;
    }
  }

  ghost function Concat(tables: seq<seq<Buf>>): seq<Buf> {
    if tables == [] then [] else Concat(tables[..|tables| - 1]) + tables[|tables| - 1]
  }

  lemma {:induction false} ConcatJoins(tables: seq<seq<Buf>>)
    ensures Joined(tables, Concat(tables))
    decreases |tables|
  {
    hide Joined;
    if tables == [] {
      JoinedNone<Buf>();
    } else {
      var n := |tables| - 1;
      ConcatJoins(tables[..n]);
      JoinedMore(tables[..n], Concat(tables[..n]), tables[n]);
      assert tables == tables[..n] + [tables[n]];
    }
  }

  /** A chain whose indirect descriptors stand for tables expands to the driver's buffers, in its order. */
  lemma {:induction false} ExpandReads(kind: Kind, memory: Tables, bufs: seq<Buf>, tables: seq<seq<Buf>>,
      paths: seq<seq<nat>>)
    requires |tables| == |bufs| == |paths|
    requires forall i :: 0 <= i < |bufs| ==> StandsFor(kind, memory, bufs[i], tables[i], paths[i])
    ensures Expand(kind, memory, bufs) == Some(Concat(tables)) && Joined(tables, Concat(tables))
    decreases |bufs|
  {
    ConcatJoins(tables);
    if bufs != [] {
      var n := |bufs| - 1;
      ExpandReads(kind, memory, bufs[..n], tables[..n], paths[..n]);
      TableReads(kind, memory, bufs[n], tables[n], paths[n]);
    }
  }

  ghost predicate PickedAt(all: seq<Buf>, write: bool, picked: seq<Buf>, at: seq<nat>) {
    && |at| == |picked| && (forall i :: 0 <= i < |at| ==> at[i] < |all| && picked[i] == all[at[i]])
    && (forall i, j :: 0 <= i < j < |at| ==> at[i] < at[j])
    && (forall j :: 0 <= j < |all| ==> (j in at <==> all[j].write == write))
  }

  /** `picked` is every buffer of one direction and no other, in the order of `all`. */
  ghost predicate Picked(all: seq<Buf>, write: bool, picked: seq<Buf>) {
    exists at :: PickedAt(all, write, picked, at)
  }

  lemma {:induction false} SideIsPicked(all: seq<Buf>, write: bool)
    ensures Picked(all, write, Side(all, write))
    decreases |all|
  {
    if all == [] {
      assert PickedAt(all, write, [], []);
    } else {
      var n := |all| - 1;
      SideIsPicked(all[..n], write);
      var at: seq<nat> :| PickedAt(all[..n], write, Side(all[..n], write), at);
      PickMore(all, write, Side(all[..n], write), at);
    }
  }

  lemma PickMore(all: seq<Buf>, write: bool, picked: seq<Buf>, at: seq<nat>)
    requires all != [] && PickedAt(all[..|all| - 1], write, picked, at)
    ensures var b := all[|all| - 1]; Picked(all, write, picked + if b.write == write then [b] else [])
  {
    var n := |all| - 1;
    var b := all[n];
    if b.write == write {
      var more: seq<nat> := at + [n];
      forall j | 0 <= j < |all| ensures j in more <==> all[j].write == write {
        if j < n { assert all[..n][j] == all[j]; }
      }
      assert PickedAt(all, write, picked + [b], more);
    } else {
      assert picked + [] == picked;
      forall j | 0 <= j < |all| ensures j in at <==> all[j].write == write {
        if j < n { assert all[..n][j] == all[j]; }
      }
      assert PickedAt(all, write, picked, at);
    }
  }

  lemma NoSide()
    ensures Side([], false) == [] && Side([], true) == []
  {
  }

  lemma OneSide(all: seq<Buf>, b: Buf)
    ensures Side(all + [b], b.write) == Side(all, b.write) + [b] && Side(all + [b], !b.write) == Side(all, !b.write)
  {
    assert (all + [b])[..|all|] == all;
  }

  lemma {:induction false} StaysNone(kind: Kind, memory: Tables, bufs: seq<Buf>, n: nat)
    requires n <= |bufs| && Expand(kind, memory, bufs[..n]) == None
    ensures Expand(kind, memory, bufs) == None
    decreases |bufs| - n
  {
    if n == |bufs| {
      assert bufs[..n] == bufs;
    } else {
      assert bufs[..n + 1][..n] == bufs[..n];
      StaysNone(kind, memory, bufs, n + 1);
    }
  }
}
