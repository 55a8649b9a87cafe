/**
 Marking guest memory private: which pieces the walk over the region list hands to the
 hypervisor, and for which region lists they are exactly the RAM that was asked for.
 */
module PrivateMemory {
  import opened Bytes
  import opened Wrappers
  import opened SlotIndex
  import opened MemoryMap

  /** A piece of guest memory from `lo` up to `hi`. */
  datatype Piece = Piece(lo: nat, hi: nat)

  predicate Paged(r: Range) {
    r.RamRange? || r.DevMem?
  }

  /** Host mappings are never empty. */
  predicate NoEmptyPages(ranges: seq<Range>) {
    forall i :: 0 <= i < |ranges| ==> Paged(ranges[i]) ==> ranges[i].Size() > 0
  }

  function Min(a: nat, b: nat): nat {
    if a < b then a else b
  }

  function Max(a: nat, b: nat): nat {
    if a < b then b else a
  }

  // -------------------------------------------------------------------------- the walk

  /** A 64-bit sum. */
  function Wrap(n: nat): (r: nat)
    ensures r < U64_SPAN && (n < U64_SPAN ==> r == n) && (n == U64_SPAN ==> r == 0)
  {
    n % U64_SPAN
  }

  /** The ranges of one region: the pieces marked, where marking goes on, and whether the whole walk ends. */
  datatype Walk = Walk(marks: seq<Piece>, start: nat, stop: bool)

  function WalkRanges(ranges: seq<Range>, addr: nat, start: nat, end: nat): Walk
    decreases |ranges|
  {
    if ranges == [] then Walk([], start, false)
    else
      var next := Wrap(addr + ranges[0].Size());
      if !Paged(ranges[0]) || next <= start then WalkRanges(ranges[1..], next, start, end)
      else
        var lo, hi := Max(addr, start), Min(end, next);
        if lo >= hi then Walk([], start, true)
        else
          var rest := WalkRanges(ranges[1..], addr, hi, end);
          rest.(marks := [Piece(lo, hi)] + rest.marks)
  }

  /** What some turns of the outer loop have marked, and where the next one starts if there is one. */
  datatype Turn = Turn(marks: seq<Piece>, next: Option<nat>)

  function OneTurn(regions: seq<Slot<Region>>, start: nat, end: nat): Turn
    requires Sorted(regions)
  {
    match SearchNext(regions, start)
    case None => Turn([], None)
    case Some(s) =>
      var next, w := Wrap(s.addr + s.size), WalkRanges(s.backend.ranges, s.addr, start, end);
      Turn(w.marks, if w.stop || next >= end then None else Some(next))
  }

  /** At most `n` turns; there is no bound on how many the loop takes. */
  function Turns(regions: seq<Slot<Region>>, start: nat, end: nat, n: nat): Turn
    requires Sorted(regions)
    decreases n
  {
    if n == 0 then Turn([], Some(start))
    else
      var t := OneTurn(regions, start, end);
      if t.next == None then t else After(t.marks, Turns(regions, t.next.value, end, n - 1))
  }

  function After(marks: seq<Piece>, t: Turn): Turn {
    Turn(marks + t.marks, t.next)
  }

  /** The loop ends having marked `marks`. */
  ghost predicate Ends(regions: seq<Slot<Region>>, start: nat, end: nat, marks: seq<Piece>)
    requires Sorted(regions)
  {
    exists n :: Turns(regions, start, end, n) == Turn(marks, None)
  }

  /** Range `k` on would bring `marks` to what the whole region brings. */
  ghost predicate Ahead(marks: seq<Piece>, ranges: seq<Range>, k: nat, addr: nat, start: nat, end: nat, whole: Walk)
    requires k <= |ranges|
  {
    var rest := WalkRanges(ranges[k..], addr, start, end);
    whole == Walk(marks + rest.marks, rest.start, rest.stop)
  }

  lemma Skip(marks: seq<Piece>, ranges: seq<Range>, k: nat, addr: nat, start: nat, end: nat, whole: Walk)
    requires k < |ranges| && Ahead(marks, ranges, k, addr, start, end, whole)
    requires !Paged(ranges[k]) || Wrap(addr + ranges[k].Size()) <= start
    ensures Ahead(marks, ranges, k + 1, Wrap(addr + ranges[k].Size()), start, end, whole)
  {
    hide Wrap;
    assert ranges[k..][0] == ranges[k] && ranges[k..][1..] == ranges[k + 1..];
  }

  lemma Mark(marks: seq<Piece>, ranges: seq<Range>, k: nat, addr: nat, start: nat, end: nat, whole: Walk)
    requires k < |ranges| && Ahead(marks, ranges, k, addr, start, end, whole)
    requires Paged(ranges[k]) && start < Wrap(addr + ranges[k].Size())
    ensures var lo, hi := Max(addr, start), Min(end, Wrap(addr + ranges[k].Size()));
            if lo >= hi then whole.stop && whole.marks == marks
            else Ahead(marks + [Piece(lo, hi)], ranges, k + 1, addr, hi, end, whole)
  {
    hide Wrap;
    assert ranges[k..][0] == ranges[k] && ranges[k..][1..] == ranges[k + 1..];
    var lo, hi := Max(addr, start), Min(end, Wrap(addr + ranges[k].Size()));
    if lo < hi {
      var later := WalkRanges(ranges[k + 1..], addr, hi, end);
      assert marks + ([Piece(lo, hi)] + later.marks) == (marks + [Piece(lo, hi)]) + later.marks;
    }
  }

  lemma Begin(marks: seq<Piece>, ranges: seq<Range>, addr: nat, start: nat, end: nat)
    ensures var w := WalkRanges(ranges, addr, start, end);
            Ahead(marks, ranges, 0, addr, start, end, Walk(marks + w.marks, w.start, w.stop))
  {
    assert ranges[0..] == ranges;
  }

  lemma End(marks: seq<Piece>, ranges: seq<Range>, addr: nat, start: nat, end: nat, whole: Walk)
    requires Ahead(marks, ranges, |ranges|, addr, start, end, whole)
    ensures whole == Walk(marks, start, false)
  {
  }

  /** With `left` turns left, from `start` on, the marks would become what `whole` says. */
  ghost predicate Due(regions: seq<Slot<Region>>, marks: seq<Piece>, start: nat, end: nat, left: nat, whole: Turn)
    requires Sorted(regions)
  {
    var t := Turns(regions, start, end, left);
    whole == Turn(marks + t.marks, t.next)
  }

  lemma FirstDue(regions: seq<Slot<Region>>, start: nat, end: nat, n: nat)
    requires Sorted(regions)
    ensures Due(regions, [], start, end, n, Turns(regions, start, end, n))
  {
    hide Turns;
    assert [] + Turns(regions, start, end, n).marks == Turns(regions, start, end, n).marks;
  }

  lemma NoneLeft(regions: seq<Slot<Region>>, marks: seq<Piece>, start: nat, end: nat, whole: Turn)
    requires Sorted(regions) && Due(regions, marks, start, end, 0, whole)
    ensures whole == Turn(marks, Some(start))
  {
  }

  /** One turn of the outer loop. */
  lemma NextDue(regions: seq<Slot<Region>>, marks: seq<Piece>, start: nat, end: nat, left: nat, whole: Turn)
    requires Sorted(regions) && Due(regions, marks, start, end, left, whole) && left > 0
    ensures var t := OneTurn(regions, start, end);
            if t.next == None then whole == Turn(marks + t.marks, None)
            else Due(regions, marks + t.marks, t.next.value, end, left - 1, whole)
  {
    hide OneTurn;
    var t := OneTurn(regions, start, end);
    if t.next.Some? {
      var more := Turns(regions, t.next.value, end, left - 1);
      assert marks + (t.marks + more.marks) == (marks + t.marks) + more.marks;
    }
  }

  lemma TurnOf(regions: seq<Slot<Region>>, start: nat, end: nat)
    requires Sorted(regions)
    ensures SearchNext(regions, start) == None ==> OneTurn(regions, start, end) == Turn([], None)
    ensures SearchNext(regions, start).Some? ==>
              var s := SearchNext(regions, start).value;
              var next, w := Wrap(s.addr + s.size), WalkRanges(s.backend.ranges, s.addr, start, end);
              OneTurn(regions, start, end) == Turn(w.marks, if w.stop || next >= end then None else Some(next))
  {
  }

  /** `mark_private_memory`, followed for at most `turns` turns of its outer loop: the pieces handed to the
      hypervisor, in order, and where the loop stands if it has not ended. */
  method MarkPrivate(regions: seq<Slot<Region>>, gpa: nat, size: nat, turns: nat)
    returns (marks: seq<Piece>, next: Option<nat>)
    requires Sorted(regions)
    ensures Turn(marks, next) == Turns(regions, gpa, Wrap(gpa + size), turns)
  {
    hide Sorted, SearchNext, OneTurn, Turns, WalkRanges, Ahead, Due, Min, Max, Wrap;
    marks := [];
    var start: nat, end := gpa, Wrap(gpa + size);
    var left := turns;
    ghost var all := Turns(regions, gpa, end, turns);
    FirstDue(regions, gpa, end, turns);
    while left > 0
      invariant Due(regions, marks, start, end, left, all)
    {
      NextDue(regions, marks, start, end, left, all);
      TurnOf(regions, start, end);
      ghost var was := marks;
      var found := SearchNext(regions, start);
      if found == None {
        assert was + [] == was;
        return marks, None;
      }
      var s := found.value;
      var addr: nat, nextStart, ranges := s.addr, Wrap(s.addr + s.size), s.backend.ranges;
      ghost var w := WalkRanges(ranges, addr, start, end);
      ghost var whole := Walk(marks + w.marks, w.start, w.stop);
      Begin(marks, ranges, addr, start, end);
      for k := 0 to |ranges|
        invariant Ahead(marks, ranges, k, addr, start, end, whole)
      {
        var r := ranges[k];
        var rangeEnd := Wrap(addr + r.Size());
        if !Paged(r) || rangeEnd <= start {
          Skip(marks, ranges, k, addr, start, end, whole);
          addr := rangeEnd;
          continue;
        }
        Mark(marks, ranges, k, addr, start, end, whole);
        var lo, hi := Max(addr, start), Min(end, rangeEnd);
        if lo >= hi {
          return marks, None;
        }
        marks := marks + [Piece(lo, hi)];
        start := hi;
      }
      End(marks, ranges, addr, start, end, whole);
      if nextStart >= end {
        return marks, None;
      }
      start := nextStart;
      left := left - 1;
    }
    NoneLeft(regions, marks, start, end, all);
    return marks, Some(start);
  }

  // --------------------------------------------------------------------- what is meant

  /** Some RAM or device memory is at `x`. */
  ghost predicate PagedAt(regions: seq<Slot<Region>>, x: nat)
    requires Sorted(regions)
  {
    RangeAt(regions, x).Some? && (RangeAt(regions, x).value.0.RamRange? || RangeAt(regions, x).value.0.DevMem?)
  }

  ghost predicate Marked(marks: seq<Piece>, x: nat) {
    exists i :: 0 <= i < |marks| && marks[i].lo <= x < marks[i].hi
  }

  /** Pieces that go up without overlapping. */
  ghost predicate Ascending(marks: seq<Piece>) {
    && (forall i :: 0 <= i < |marks| ==> marks[i].lo < marks[i].hi)
    && (forall i, j :: 0 <= i < j < |marks| ==> marks[i].hi <= marks[j].lo)
  }

  /** Disjoint pieces whose union is the RAM from `start` up to `end`. */
  ghost predicate Exact(regions: seq<Slot<Region>>, start: nat, end: nat, marks: seq<Piece>)
    requires Sorted(regions)
  {
    Ascending(marks) && forall x: nat :: Marked(marks, x) <==> start <= x < end && PagedAt(regions, x)
  }

  /** The paged ranges of a region that starts at `addr`. */
  function Pieces(ranges: seq<Range>, addr: nat): seq<Piece>
    decreases |ranges|
  {
    if ranges == [] then []
    else
      var next := addr + ranges[0].Size();
      (if Paged(ranges[0]) then [Piece(addr, next)] else []) + Pieces(ranges[1..], next)
  }

  ghost predicate OnePiece(s: Slot<Region>) {
    |Pieces(s.backend.ranges, s.addr)| <= 1
  }

  ghost predicate RegionPaged(s: Slot<Region>) {
    NoEmptyPages(s.backend.ranges)
  }

  ghost predicate AllPaged(regions: seq<Slot<Region>>) {
    forall i :: 0 <= i < |regions| ==> RegionPaged(regions[i])
  }

  ghost predicate AllOnePiece(regions: seq<Slot<Region>>) {
    forall i :: 0 <= i < |regions| ==> OnePiece(regions[i])
  }

  /** The last region ends at 2^64. */
  predicate Top(regions: seq<Slot<Region>>) {
    regions != [] && var s := regions[|regions| - 1]; s.addr + s.size == U64_SPAN
  }

  /** `x` is in a paged range that ends at 2^64, which the walk takes to end at zero. */
  predicate Crown(regions: seq<Slot<Region>>, x: nat) {
    && Top(regions)
    && var s := regions[|regions| - 1];
       var ps := Pieces(s.backend.ranges, s.addr);
       ps != [] && ps[|ps| - 1].hi == U64_SPAN && ps[|ps| - 1].lo <= x
  }

  /** Some region starts at or below `x`. */
  ghost predicate Reaches(regions: seq<Slot<Region>>, x: nat) {
    exists i :: 0 <= i < |regions| && regions[i].addr <= x
  }

  lemma {:induction false} PiecesAt(ranges: seq<Range>, addr: nat, x: nat)
    requires addr <= x
    ensures Marked(Pieces(ranges, addr), x)
            <==> RangeIn(ranges, x - addr).Some? && Paged(RangeIn(ranges, x - addr).value.0)
    decreases |ranges|
  {
    if ranges != [] {
      var next := addr + ranges[0].Size();
      var head, rest := if Paged(ranges[0]) then [Piece(addr, next)] else [], Pieces(ranges[1..], next);
      MarkedConcat(head, rest, x);
      if x < next {
        PiecesAbove(ranges[1..], next);
      } else {
        PiecesAt(ranges[1..], next, x);
      }
    }
  }

  lemma MarkedConcat(a: seq<Piece>, b: seq<Piece>, x: nat)
    ensures Marked(a + b, x) <==> Marked(a, x) || Marked(b, x)
  {
    forall i | 0 <= i < |a| ensures (a + b)[i] == a[i] {
    }
    forall i | 0 <= i < |b| ensures (a + b)[|a| + i] == b[i] {
    }
    if Marked(b, x) {
      var i :| 0 <= i < |b| && b[i].lo <= x < b[i].hi;
      assert (a + b)[|a| + i] == b[i];
    }
  }

  lemma {:induction false} PiecesAbove(ranges: seq<Range>, addr: nat)
    ensures forall i :: 0 <= i < |Pieces(ranges, addr)| ==>
              addr <= Pieces(ranges, addr)[i].lo && Pieces(ranges, addr)[i].hi <= addr + Total(ranges)
    decreases |ranges|
  {
    if ranges != [] {
      PiecesAbove(ranges[1..], addr + ranges[0].Size());
    }
  }
}
