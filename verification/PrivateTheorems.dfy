/**
 For which region lists and requests the walk marks exactly the RAM asked for: the regions have at most one
 paged range each, some region starts at or below the request, and the 64-bit sums do not take the walk back
 to address zero or past RAM that ends at 2^64.
 */
module PrivateTheorems {
  import opened Bytes
  import opened Wrappers
  import opened SlotIndex
  import opened FlatRam
  import opened MemoryMap
  import opened PrivateMemory
  import opened PrivateLaps

  // ------------------------------------------------------------------------- a region

  lemma {:induction false} NonePaged(ranges: seq<Range>, addr: nat, other: nat, start: nat, end: nat)
    requires Pieces(ranges, addr) == []
    ensures WalkRanges(ranges, other, start, end) == Walk([], start, false)
    decreases |ranges|
  {
    if ranges != [] {
      NonePaged(ranges[1..], addr + ranges[0].Size(), Wrap(other + ranges[0].Size()), start, end);
    }
  }

  /** The part of `p` in a request. */
  function Clip(p: Piece, start: nat, end: nat): Piece {
    Piece(Max(p.lo, start), Min(end, p.hi))
  }

  /** With one paged range the walk of a region is a clip of that range, or nothing if it ends at 2^64. */
  lemma {:induction false} WalkOne(ranges: seq<Range>, addr: nat, start: nat, end: nat)
    requires |Pieces(ranges, addr)| <= 1 && NoEmptyPages(ranges) && addr + Total(ranges) <= U64_SPAN
    ensures var ps := Pieces(ranges, addr);
            WalkRanges(ranges, addr, start, end)
            == if ps == [] || ps[0].hi <= start || ps[0].hi == U64_SPAN then Walk([], start, false)
               else
                 var c := Clip(ps[0], start, end);
                 if c.lo >= c.hi then Walk([], start, true) else Walk([c], c.hi, false)
    decreases |ranges|
  {
    if ranges != [] {
      var next, rest := addr + ranges[0].Size(), ranges[1..];
      assert forall k :: 0 <= k < |rest| ==> rest[k] == ranges[k + 1];
      if Paged(ranges[0]) {
        assert Pieces(rest, next) == [];
        NonePaged(rest, next, Wrap(next), start, end);
        NonePaged(rest, next, addr, Min(end, next), end);
      } else if next == U64_SPAN {
        NoneAbove(rest, next);
        NonePaged(rest, next, Wrap(next), start, end);
      } else {
        WalkOne(rest, next, start, end);
      }
    }
  }

  /** Nothing is paged in ranges without a size. */
  lemma {:induction false} NoneAbove(ranges: seq<Range>, addr: nat)
    requires NoEmptyPages(ranges) && Total(ranges) == 0
    ensures Pieces(ranges, addr) == []
    decreases |ranges|
  {
    if ranges != [] {
      FirstFull(ranges);
      NoneAbove(ranges[1..], addr + ranges[0].Size());
    }
  }

  lemma {:induction false} PiecesFull(ranges: seq<Range>, addr: nat)
    requires NoEmptyPages(ranges)
    ensures forall i :: 0 <= i < |Pieces(ranges, addr)| ==> Pieces(ranges, addr)[i].lo < Pieces(ranges, addr)[i].hi
    decreases |ranges|
  {
    if ranges != [] {
      assert Paged(ranges[0]) ==> ranges[0].Size() > 0;
      PiecesFull(ranges[1..], addr + ranges[0].Size());
    }
  }

  /** Inside a region its pieces say what is paged. */
  lemma PagedInside(regions: seq<Slot<Region>>, i: nat, x: nat)
    requires Sorted(regions) && i < |regions| && regions[i].Holds(x)
    ensures PagedAt(regions, x) <==> Marked(Pieces(regions[i].backend.ranges, regions[i].addr), x)
  {
    hide Sorted, Search, Pieces;
    HeldBy(regions, i, x);
    PiecesAt(regions[i].backend.ranges, regions[i].addr, x);
  }

  lemma UnpagedOutside(regions: seq<Slot<Region>>, x: nat)
    requires Sorted(regions) && forall i :: 0 <= i < |regions| ==> !regions[i].Holds(x)
    ensures !PagedAt(regions, x)
  {
    hide Sorted, Search;
    SearchRefines(regions, x);
  }

  lemma PiecesInside(s: Slot<Region>)
    requires GoodRegion(s)
    ensures var ps := Pieces(s.backend.ranges, s.addr);
            forall i :: 0 <= i < |ps| ==> s.addr <= ps[i].lo && ps[i].hi <= s.addr + s.size
  {
    PiecesAbove(s.backend.ranges, s.addr);
  }

  lemma PieceInside(s: Slot<Region>, k: nat)
    requires GoodRegion(s) && k < |Pieces(s.backend.ranges, s.addr)|
    ensures var p := Pieces(s.backend.ranges, s.addr)[k]; s.addr <= p.lo && p.hi <= s.addr + s.size
    ensures RegionPaged(s) ==> Pieces(s.backend.ranges, s.addr)[k].lo < Pieces(s.backend.ranges, s.addr)[k].hi
  {
    PiecesInside(s);
    if RegionPaged(s) {
      PiecesFull(s.backend.ranges, s.addr);
    }
  }

  /** Where the walk goes next: slot `i`, with nothing between it and `start`. */
  lemma NextSlot(regions: seq<Slot<Region>>, start: nat) returns (i: nat)
    requires Sorted(regions) && SearchNext(regions, start).Some?
    ensures i < |regions| && SearchNext(regions, start) == Some(regions[i]) && start < regions[i].addr + regions[i].size
    ensures forall x: nat :: start <= x < regions[i].addr ==> !PagedAt(regions, x)
  {
    hide Sorted, SearchNext, PagedAt;
    SearchNextRefines(regions, start);
    var s := SearchNext(regions, start).value;
    i :| 0 <= i < |regions| && regions[i] == s;
    forall x: nat | start <= x < s.addr ensures !PagedAt(regions, x) {
      forall k | 0 <= k < |regions| ensures !regions[k].Holds(x) {
        assert regions[k] in SetOf(regions);
      }
      UnpagedOutside(regions, x);
    }
  }

  lemma NothingNext(regions: seq<Slot<Region>>, start: nat)
    requires Sorted(regions) && SearchNext(regions, start) == None && Reaches(regions, start)
    ensures forall x: nat :: start <= x ==> !PagedAt(regions, x)
  {
    hide Sorted, SearchNext, PagedAt;
    SearchNextRefines(regions, start);
    forall x: nat | start <= x ensures !PagedAt(regions, x) {
      forall k | 0 <= k < |regions| ensures !regions[k].Holds(x) {
        assert regions[k] in SetOf(regions);
      }
      UnpagedOutside(regions, x);
    }
  }

  /** What is paged from `start` to the end of region `i`: the part of its one piece. */
  lemma PagedUpTo(regions: seq<Slot<Region>>, i: nat, start: nat, x: nat)
    requires Good(regions) && i < |regions| && OnePiece(regions[i])
    requires forall y: nat :: start <= y < regions[i].addr ==> !PagedAt(regions, y)
    requires start <= x < regions[i].addr + regions[i].size
    ensures var ps := Pieces(regions[i].backend.ranges, regions[i].addr);
            PagedAt(regions, x) <==> ps != [] && ps[0].lo <= x < ps[0].hi
  {
    hide Sorted, PagedAt, Pieces, GoodRegion;
    assert GoodRegion(regions[i]);
    PiecesInside(regions[i]);
    if regions[i].addr <= x {
      PagedInside(regions, i, x);
    }
  }

  /** What the walk can see at `x`. */
  ghost predicate Seen(regions: seq<Slot<Region>>, x: nat)
    requires Sorted(regions)
  {
    PagedAt(regions, x) && !Crown(regions, x)
  }

  lemma LastIs(regions: seq<Slot<Region>>, i: nat)
    requires Sorted(regions) && i < |regions|
    ensures var last := regions[|regions| - 1];
            i == |regions| - 1 || regions[i].addr + regions[i].size <= last.addr < U64_SPAN
    ensures regions[i].size > 0 && regions[i].addr + regions[i].size <= U64_SPAN
  {
    assert SlotIndex.Fits(regions[i]) && SlotIndex.Fits(regions[|regions| - 1]);
  }

  /** Inside region `i` only the last paged range of the last region can be out of sight. */
  lemma CrownInside(regions: seq<Slot<Region>>, i: nat, x: nat)
    requires Good(regions) && i < |regions| && OnePiece(regions[i]) && x < regions[i].addr + regions[i].size
    ensures var ps := Pieces(regions[i].backend.ranges, regions[i].addr);
            Crown(regions, x) <==> ps != [] && ps[0].hi == U64_SPAN && ps[0].lo <= x
  {
    hide Sorted, Pieces, GoodRegion;
    LastIs(regions, i);
    var last := regions[|regions| - 1];
    assert GoodRegion(regions[i]) && GoodRegion(last);
    var ps, top := Pieces(regions[i].backend.ranges, regions[i].addr), Pieces(last.backend.ranges, last.addr);
    if top != [] { PieceInside(last, |top| - 1); }
    if ps != [] { PieceInside(regions[i], 0); }
  }

  /** The marks of one region are its part of the request, and a stop means there is nothing more. */
  lemma RegionPart(regions: seq<Slot<Region>>, i: nat, start: nat, end: nat)
    requires Good(regions) && i < |regions| && OnePiece(regions[i]) && RegionPaged(regions[i])
    requires forall y: nat :: start <= y < regions[i].addr ==> !PagedAt(regions, y)
    ensures var w := WalkRanges(regions[i].backend.ranges, regions[i].addr, start, end);
            var next := regions[i].addr + regions[i].size;
            && Ascending(w.marks)
            && (forall x: nat :: Marked(w.marks, x) <==> start <= x < end && x < next && Seen(regions, x))
            && (w.stop ==> end <= start || end <= next)
  {
    hide Sorted, PagedAt, Pieces, WalkRanges, GoodRegion, Crown;
    var s := regions[i];
    assert GoodRegion(s);
    var w, ps, next := WalkRanges(s.backend.ranges, s.addr, start, end), Pieces(s.backend.ranges, s.addr),
        s.addr + s.size;
    RangesFit(regions, i);
    WalkOne(s.backend.ranges, s.addr, start, end);
    PiecesInside(s);
    PiecesFull(s.backend.ranges, s.addr);
    forall x: nat ensures Marked(w.marks, x) <==> start <= x < end && x < next && Seen(regions, x) {
      MarkedOne(w.marks, x);
      if start <= x < next {
        PagedUpTo(regions, i, start, x);
        CrownInside(regions, i, x);
      }
    }
  }

  lemma RangesFit(regions: seq<Slot<Region>>, i: nat)
    requires Good(regions) && i < |regions|
    ensures var s := regions[i]; s.addr + Total(s.backend.ranges) <= s.addr + s.size <= U64_SPAN && s.size > 0
  {
    assert GoodRegion(regions[i]) && SlotIndex.Fits(regions[i]);
  }

  lemma MarkedOne(marks: seq<Piece>, x: nat)
    requires |marks| <= 1
    ensures Marked(marks, x) <==> marks != [] && marks[0].lo <= x < marks[0].hi
  {
  }

  // ------------------------------------------------------------------------ the request

  lemma Join(regions: seq<Slot<Region>>, a: seq<Piece>, b: seq<Piece>, start: nat, mid: nat, end: nat)
    requires Sorted(regions) && Ascending(a) && Ascending(b) && start <= mid
    requires forall x: nat :: Marked(a, x) <==> start <= x < end && x < mid && Seen(regions, x)
    requires forall x: nat :: Marked(b, x) <==> mid <= x < end && Seen(regions, x)
    ensures Ascending(a + b) && forall x: nat :: Marked(a + b, x) <==> start <= x < end && Seen(regions, x)
  {
    hide Seen;
    forall x: nat ensures Marked(a + b, x) <==> start <= x < end && Seen(regions, x) {
      MarkedConcat(a, b, x);
    }
    forall i, j | 0 <= i < j < |a + b| ensures (a + b)[i].hi <= (a + b)[j].lo {
      if i < |a| <= j {
        assert Marked(a, a[i].hi - 1);
        assert Marked(b, b[j - |a|].lo);
      }
    }
  }

  lemma SeenBelow(regions: seq<Slot<Region>>, x: nat)
    requires Sorted(regions) && PagedAt(regions, x)
    ensures x < U64_SPAN
  {
    hide Sorted, Search;
    SearchRefines(regions, x);
    var s := Search(regions, x).value;
    InList(regions, s);
  }

  /** A lap marks all that can be seen between its start and the end, in disjoint pieces. */
  lemma {:induction false} RoundExact(regions: seq<Slot<Region>>, start: nat, end: nat)
    requires Good(regions) && AllPaged(regions) && AllOnePiece(regions) && Reaches(regions, start)
    ensures var marks := Round(regions, start, end).marks;
            Ascending(marks) && forall x: nat :: Marked(marks, x) <==> start <= x < end && Seen(regions, x)
    decreases if start < end then end - start else 0
  {
    hide Sorted, SearchNext, PagedAt, WalkRanges, Marked, Ascending, GoodRegion, OnePiece, RegionPaged, Crown;
    NothingMarked();
    TurnOf(regions, start, end);
    if SearchNext(regions, start) == None {
      NothingNext(regions, start);
    } else {
      var i := NextSlot(regions, start);
      var s := regions[i];
      assert OnePiece(s) && RegionPaged(s);
      RegionPart(regions, i, start, end);
      RangesFit(regions, i);
      var next, w := s.addr + s.size, WalkRanges(s.backend.ranges, s.addr, start, end);
      if next < U64_SPAN && !w.stop && next < end {
        RoundExact(regions, next, end);
        Join(regions, w.marks, Round(regions, next, end).marks, start, next, end);
      } else {
        assert Round(regions, start, end).marks == w.marks;
        forall x: nat | Seen(regions, x) ensures x < U64_SPAN {
          SeenBelow(regions, x);
        }
      }
    }
  }

  lemma NothingMarked()
    ensures Ascending([]) && forall x: nat :: !Marked([], x)
  {
  }

  /** Below the first region the walk finds nothing at all. */
  lemma RoundBelow(regions: seq<Slot<Region>>, start: nat, end: nat)
    requires Sorted(regions) && !Reaches(regions, start)
    ensures Round(regions, start, end) == Lap([], false)
  {
    hide Sorted;
    SearchNextRefines(regions, start);
    forall t | t in SetOf(regions) ensures t.addr > start {
      var i :| 0 <= i < |regions| && regions[i] == t;
    }
  }

  // ------------------------------------------------------------------------ coming back

  /** The one paged range of the last region ends the walk: it lies above, and ends below 2^64. */
  predicate StopsAtTop(regions: seq<Slot<Region>>, start: nat, end: nat)
    requires regions != []
  {
    var s := regions[|regions| - 1];
    var ps := Pieces(s.backend.ranges, s.addr);
    ps != [] && ps[0].hi != U64_SPAN && start < ps[0].hi && (end <= ps[0].lo || end <= start)
  }

  /** A walk from `start` reaches a region that ends at 2^64 and goes back to zero. */
  ghost predicate Returns(regions: seq<Slot<Region>>, start: nat, end: nat) {
    && Top(regions) && Reaches(regions, start) && end > 0
    && (forall i :: 0 <= i < |regions| - 1 ==>
          regions[i].addr + regions[i].size <= start || regions[i].addr + regions[i].size < end)
    && !StopsAtTop(regions, start, end)
  }

  /** The walk of the last region. */
  lemma TopTurn(regions: seq<Slot<Region>>, start: nat, end: nat)
    requires Good(regions) && AllPaged(regions) && AllOnePiece(regions) && Top(regions) && start < U64_SPAN
    ensures var s := regions[|regions| - 1];
            WalkRanges(s.backend.ranges, s.addr, start, end).stop <==> StopsAtTop(regions, start, end)
  {
    hide Sorted, Pieces, WalkRanges, GoodRegion;
    var n := |regions| - 1;
    var s := regions[n];
    assert GoodRegion(s) && OnePiece(s) && RegionPaged(s);
    RangesFit(regions, n);
    WalkOne(s.backend.ranges, s.addr, start, end);
    PiecesFull(s.backend.ranges, s.addr);
    PiecesInside(s);
  }

  lemma {:induction false} BackIff(regions: seq<Slot<Region>>, start: nat, end: nat)
    requires Good(regions) && AllPaged(regions) && AllOnePiece(regions) && start < U64_SPAN
    ensures Round(regions, start, end).back <==> Returns(regions, start, end)
    decreases if start < end then end - start else 0
  {
    hide Sorted, SearchNext, WalkRanges, GoodRegion, OnePiece, RegionPaged, StopsAtTop, Round;
    RoundStep(regions, start, end);
    TurnOf(regions, start, end);
    if !Reaches(regions, start) {
      RoundBelow(regions, start, end);
    } else if SearchNext(regions, start) == None {
      NoTop(regions, start);
    } else {
      var i := NextSlot(regions, start);
      var s := regions[i];
      LastIs(regions, i);
      RangesFit(regions, i);
      assert OnePiece(s) && RegionPaged(s);
      RegionPart(regions, i, start, end);
      if s.addr + s.size == U64_SPAN {
        TopTurn(regions, start, end);
        BelowTop(regions, i, start);
      } else if s.addr + s.size < end {
        BackIff(regions, s.addr + s.size, end);
        StopsLater(regions, i, start, end);
        assert Reaches(regions, s.addr + s.size);
      } else {
        BlocksReturn(regions, i, start, end);
      }
    }
  }

  lemma RoundStep(regions: seq<Slot<Region>>, start: nat, end: nat)
    requires Sorted(regions)
    ensures var t := OneTurn(regions, start, end);
            Round(regions, start, end).back
            <==> t.next.Some? && (t.next.value == 0 || Round(regions, t.next.value, end).back)
  {
    hide Sorted, OneTurn;
  }

  /** With no region at or above `start`, none ends at 2^64. */
  lemma NoTop(regions: seq<Slot<Region>>, start: nat)
    requires Sorted(regions) && SearchNext(regions, start) == None && Reaches(regions, start)
    ensures start < U64_SPAN ==> !Top(regions)
    ensures !Returns(regions, start, 0)
  {
    hide Sorted, SearchNext;
    SearchNextRefines(regions, start);
    if regions != [] {
      assert regions[|regions| - 1] in SetOf(regions);
    }
  }

  /** If the next region is the last, all others end at or below `start`. */
  lemma BelowTop(regions: seq<Slot<Region>>, i: nat, start: nat)
    requires Sorted(regions) && i < |regions| && SearchNext(regions, start) == Some(regions[i])
    requires regions[i].addr + regions[i].size == U64_SPAN
    ensures i == |regions| - 1
    ensures forall k :: 0 <= k < |regions| - 1 ==> regions[k].addr + regions[k].size <= start
  {
    LastIs(regions, i);
    hide Sorted, SearchNext;
    SearchNextRefines(regions, start);
    forall k | 0 <= k < |regions| - 1 ensures regions[k].addr + regions[k].size <= start {
      LastIs(regions, k);
      assert regions[k] in SetOf(regions);
    }
  }

  lemma StopsLater(regions: seq<Slot<Region>>, i: nat, start: nat, end: nat)
    requires Good(regions) && AllPaged(regions) && i < |regions| && start < regions[i].addr + regions[i].size < end
    requires regions[i].addr + regions[i].size < U64_SPAN
    ensures Top(regions) ==> (StopsAtTop(regions, regions[i].addr + regions[i].size, end)
            <==> StopsAtTop(regions, start, end))
  {
    hide Sorted, Pieces, GoodRegion;
    if Top(regions) {
      LastIs(regions, i);
      var last := regions[|regions| - 1];
      assert GoodRegion(last) && RegionPaged(last);
      PiecesInside(last);
      PiecesFull(last.backend.ranges, last.addr);
    }
  }

  /** A region that ends between the end and the last region keeps the walk from the last region. */
  lemma BlocksReturn(regions: seq<Slot<Region>>, i: nat, start: nat, end: nat)
    requires Sorted(regions) && i < |regions| && start < regions[i].addr + regions[i].size < U64_SPAN
    requires end <= regions[i].addr + regions[i].size
    ensures !Returns(regions, start, end)
  {
    hide StopsAtTop;
    LastIs(regions, i);
  }

  // ------------------------------------------------------------------------ the request

  /** The walk ends, and its marks are the RAM asked for. */
  ghost predicate ExactFor(regions: seq<Slot<Region>>, gpa: nat, size: nat)
    requires Sorted(regions)
  {
    Exactly(regions, gpa, Wrap(gpa + size), gpa + size)
  }

  ghost predicate Exactly(regions: seq<Slot<Region>>, start: nat, end: nat, top: nat)
    requires Sorted(regions)
  {
    exists marks :: Ends(regions, start, end, marks) && Exact(regions, start, top, marks)
  }

  /** No RAM from `start` up to `end`. */
  ghost predicate Bare(regions: seq<Slot<Region>>, start: nat, end: nat)
    requires Sorted(regions)
  {
    forall x: nat :: start <= x < end ==> !PagedAt(regions, x)
  }

  /** Nothing of the request escapes the first lap. */
  ghost predicate Found(regions: seq<Slot<Region>>, gpa: nat, size: nat)
    requires Sorted(regions)
  {
    || Bare(regions, gpa, gpa + size)
    || (gpa + size < U64_SPAN && Reaches(regions, gpa) && forall x: nat :: gpa <= x < gpa + size ==> !Crown(regions, x))
  }

  /** A second lap up to `end` marks nothing and ends. */
  ghost predicate Harmless(regions: seq<Slot<Region>>, end: nat)
    requires Sorted(regions)
  {
    !Reaches(regions, 0) || (!Returns(regions, 0, end) && forall x: nat :: x < end ==> !Seen(regions, x))
  }

  lemma CrownPaged(regions: seq<Slot<Region>>, x: nat)
    requires Good(regions) && Crown(regions, x) && x < U64_SPAN
    ensures PagedAt(regions, x)
  {
    hide Sorted, Pieces, GoodRegion, PagedAt;
    var n := |regions| - 1;
    var s := regions[n];
    assert GoodRegion(s);
    var ps := Pieces(s.backend.ranges, s.addr);
    PieceInside(s, |ps| - 1);
    assert s.addr <= ps[|ps| - 1].lo <= x < ps[|ps| - 1].hi;
    PagedInside(regions, n, x);
  }

  lemma ByOutcome(regions: seq<Slot<Region>>, gpa: nat, size: nat)
    requires Sorted(regions)
    ensures var r := Outcome(regions, gpa, Wrap(gpa + size));
            ExactFor(regions, gpa, size) <==> r.Some? && Exact(regions, gpa, gpa + size, r.value)
  {
    hide Sorted, Outcome, Exact, Ends, Wrap;
    var end := Wrap(gpa + size);
    var r := Outcome(regions, gpa, end);
    if r.Some? {
      OutcomeIs(regions, gpa, end, r.value);
      assert Ends(regions, gpa, end, r.value);
    }
    if ExactFor(regions, gpa, size) {
      var marks :| Ends(regions, gpa, end, marks) && Exact(regions, gpa, gpa + size, marks);
      OutcomeIs(regions, gpa, end, marks);
    }
  }

  /** The first lap by itself. */
  lemma FirstLap(regions: seq<Slot<Region>>, gpa: nat, size: nat)
    requires Good(regions) && AllPaged(regions) && AllOnePiece(regions) && gpa < U64_SPAN && size < U64_SPAN
    ensures Exact(regions, gpa, gpa + size, Round(regions, gpa, Wrap(gpa + size)).marks) <==> Found(regions, gpa, size)
  {
    hide Sorted, Round, PagedAt, Crown, Marked, Ascending, GoodRegion, OnePiece, RegionPaged;
    NothingMarked();
    var end := Wrap(gpa + size);
    var marks := Round(regions, gpa, end).marks;
    if Reaches(regions, gpa) {
      RoundExact(regions, gpa, end);
      if gpa + size < U64_SPAN {
        forall x: nat | gpa <= x < end && Crown(regions, x) ensures PagedAt(regions, x) {
          CrownPaged(regions, x);
        }
      } else {
        WrapsUnder(gpa, size);
      }
    } else {
      RoundBelow(regions, gpa, end);
    }
  }

  lemma WrapsUnder(gpa: nat, size: nat)
    requires gpa < U64_SPAN && size < U64_SPAN && gpa + size >= U64_SPAN
    ensures Wrap(gpa + size) < gpa
  {
  }

  /** Marks that hold nothing are none. */
  lemma NoneMarked(marks: seq<Piece>)
    requires Ascending(marks) && forall x: nat :: !Marked(marks, x)
    ensures marks == []
  {
    if marks != [] {
      assert marks[0].lo < marks[0].hi;
      assert Marked(marks, marks[0].lo);
    }
  }

  /** A second lap that marks something spoils the result. */
  lemma SecondSpoils(regions: seq<Slot<Region>>, gpa: nat, end: nat, top: nat, a: seq<Piece>, b: seq<Piece>, x: nat)
    requires Sorted(regions) && Marked(b, x) && x < end && Seen(regions, x)
    requires forall y: nat :: gpa <= y < end && Seen(regions, y) ==> Marked(a, y)
    ensures !Exact(regions, gpa, top, a + b)
  {
    hide Seen, Sorted, PagedAt;
    MarkedConcat(a, b, x);
    if gpa <= x {
      var i :| 0 <= i < |a| && a[i].lo <= x < a[i].hi;
      var j :| 0 <= j < |b| && b[j].lo <= x < b[j].hi;
      assert (a + b)[i] == a[i] && (a + b)[|a| + j] == b[j];
    }
  }

  /** A request is marked exactly if and only if the first lap finds all of it and, where that lap comes back to zero,
      the second one marks nothing and ends. */
  lemma MarkingExact(regions: seq<Slot<Region>>, gpa: nat, size: nat)
    requires Good(regions) && AllPaged(regions) && AllOnePiece(regions) && gpa < U64_SPAN && size < U64_SPAN
    ensures var end := Wrap(gpa + size);
            ExactFor(regions, gpa, size)
            <==> Found(regions, gpa, size) && (Returns(regions, gpa, end) ==> Harmless(regions, end))
  {
    hide Sorted, Round, Seen, PagedAt, Marked, Exact, Found, GoodRegion, OnePiece, RegionPaged, StopsAtTop, Wrap;
    var end := Wrap(gpa + size);
    var first, second := Round(regions, gpa, end), Round(regions, 0, end);
    ByOutcome(regions, gpa, size);
    FirstLap(regions, gpa, size);
    BackIff(regions, gpa, end);
    BackIff(regions, 0, end);
    if first.back && !second.back {
      SecondLap(regions, gpa, size);
    }
  }

  lemma SecondLap(regions: seq<Slot<Region>>, gpa: nat, size: nat)
    requires Good(regions) && AllPaged(regions) && AllOnePiece(regions) && Reaches(regions, gpa)
    requires !Returns(regions, 0, Wrap(gpa + size))
    ensures var end := Wrap(gpa + size);
            var first, second := Round(regions, gpa, end), Round(regions, 0, end);
            Exact(regions, gpa, gpa + size, first.marks + second.marks)
            <==> Harmless(regions, end) && Exact(regions, gpa, gpa + size, first.marks)
  {
    hide Sorted, Round, Seen, PagedAt, Marked, Exact, GoodRegion, OnePiece, RegionPaged, Returns, Wrap;
    var end := Wrap(gpa + size);
    var a, b := Round(regions, gpa, end).marks, Round(regions, 0, end).marks;
    RoundExact(regions, gpa, end);
    if !Reaches(regions, 0) {
      RoundBelow(regions, 0, end);
      assert a + [] == a;
    } else {
      RoundExact(regions, 0, end);
      if x: nat :| x < end && Seen(regions, x) {
        SecondSpoils(regions, gpa, end, gpa + size, a, b, x);
      } else {
        NoneMarked(b);
        assert a + [] == a;
      }
    }
  }

  // ------------------------------------------------------------------------ two pieces

  ghost predicate AllUnder(ps: seq<Piece>, top: nat) {
    forall i :: 0 <= i < |ps| ==> ps[i].hi <= top
  }

  lemma UnderConcat(a: seq<Piece>, b: seq<Piece>, top: nat)
    ensures AllUnder(a + b, top) <==> AllUnder(a, top) && AllUnder(b, top)
  {
    if AllUnder(a + b, top) {
      forall i | 0 <= i < |a| ensures a[i].hi <= top {
        assert (a + b)[i] == a[i];
      }
      forall i | 0 <= i < |b| ensures b[i].hi <= top {
        assert (a + b)[|a| + i] == b[i];
      }
    }
  }

  function Head(ranges: seq<Range>, addr: nat): seq<Piece>
    requires ranges != []
  {
    if Paged(ranges[0]) then [Piece(addr, addr + ranges[0].Size())] else []
  }

  lemma {:induction false} ShiftUnder(ranges: seq<Range>, addr: nat, d: nat, top: nat)
    requires AllUnder(Pieces(ranges, addr + d), top + d)
    ensures AllUnder(Pieces(ranges, addr), top)
    decreases |ranges|
  {
    if ranges != [] {
      var next := addr + ranges[0].Size();
      UnderConcat(Head(ranges, addr + d), Pieces(ranges[1..], next + d), top + d);
      UnderConcat(Head(ranges, addr), Pieces(ranges[1..], next), top);
      ShiftUnder(ranges[1..], next, d, top);
      if Paged(ranges[0]) {
        assert Head(ranges, addr + d)[0].hi <= top + d;
      }
    }
  }

  /** No mark ends above the last piece. */
  lemma {:induction false} MarksUnder(ranges: seq<Range>, addr: nat, start: nat, end: nat, top: nat)
    requires AllUnder(Pieces(ranges, addr), top) && addr + Total(ranges) < U64_SPAN
    ensures AllUnder(WalkRanges(ranges, addr, start, end).marks, top)
    decreases |ranges|
  {
    if ranges != [] {
      var next := addr + ranges[0].Size();
      UnderConcat(Head(ranges, addr), Pieces(ranges[1..], next), top);
      if !Paged(ranges[0]) || next <= start {
        MarksUnder(ranges[1..], next, start, end, top);
      } else if Max(addr, start) < Min(end, next) {
        assert Head(ranges, addr)[0].hi <= top;
        ShiftUnder(ranges[1..], addr, ranges[0].Size(), top);
        MarksUnder(ranges[1..], addr, Min(end, next), end, top);
        UnderConcat([Piece(Max(addr, start), Min(end, next))],
            WalkRanges(ranges[1..], addr, Min(end, next), end).marks, top);
      }
    }
  }

  lemma {:induction false} PiecesAscend(ranges: seq<Range>, addr: nat)
    requires NoEmptyPages(ranges)
    ensures Ascending(Pieces(ranges, addr))
    decreases |ranges|
  {
    if ranges != [] {
      var next := addr + ranges[0].Size();
      PiecesAscend(ranges[1..], next);
      PiecesAbove(ranges[1..], next);
      if Paged(ranges[0]) {
        AscendingCons(Piece(addr, next), Pieces(ranges[1..], next));
      }
    }
  }

  lemma AscendingCons(p: Piece, later: seq<Piece>)
    requires Ascending(later) && p.lo < p.hi && forall i :: 0 <= i < |later| ==> p.hi <= later[i].lo
    ensures Ascending([p] + later)
  {
    var ps := [p] + later;
    forall i, j | 0 <= i < j < |ps| ensures ps[i].hi <= ps[j].lo {
      assert ps[j] == later[j - 1];
    }
  }

  lemma LastOnTop(ps: seq<Piece>)
    requires Ascending(ps) && |ps| >= 1
    ensures AllUnder(ps, ps[|ps| - 1].hi) && ps[0].lo < ps[|ps| - 1].hi && (|ps| >= 2 ==> ps[0].hi < ps[|ps| - 1].hi)
  {
  }

  /** Asked for everything from the first piece to the end of the last of several, the walk leaves out the last byte. */
  lemma {:induction false} LastByteLost(ranges: seq<Range>, addr: nat)
    requires NoEmptyPages(ranges) && |Pieces(ranges, addr)| >= 2 && addr + Total(ranges) < U64_SPAN
    ensures var ps := Pieces(ranges, addr);
            var start, end := ps[0].lo, ps[|ps| - 1].hi;
            0 < end && AllUnder(WalkRanges(ranges, addr, start, end).marks, end - 1)
    decreases |ranges|
  {
    hide Ascending, NoEmptyPages, AllUnder;
    var ps, next := Pieces(ranges, addr), addr + ranges[0].Size();
    var later := Pieces(ranges[1..], next);
    PiecesAscend(ranges, addr);
    LastOnTop(ps);
    FirstFull(ranges);
    var end := ps[|ps| - 1].hi;
    if !Paged(ranges[0]) {
      assert ps == later;
      LastByteLost(ranges[1..], next);
    } else {
      var size := ranges[0].Size();
      assert ps[0] == Piece(addr, next) && later[|later| - 1] == ps[|ps| - 1];
      UnderConcat([ps[0]], later, end);
      assert (end - size) + size == end;
      ShiftUnder(ranges[1..], addr, size, end - size);
      MarksUnder(ranges[1..], addr, next, end, end - size);
      var rest := WalkRanges(ranges[1..], addr, next, end).marks;
      UnderRaise(rest, end - size, end - 1);
      assert WalkRanges(ranges, addr, addr, end).marks == [Piece(addr, next)] + rest;
      UnderOne(Piece(addr, next), end - 1);
      UnderConcat([Piece(addr, next)], rest, end - 1);
    }
  }

  lemma FirstFull(ranges: seq<Range>)
    requires NoEmptyPages(ranges) && ranges != []
    ensures NoEmptyPages(ranges[1..]) && (Paged(ranges[0]) ==> ranges[0].Size() > 0)
  {
  }

  lemma UnderRaise(ps: seq<Piece>, low: nat, high: nat)
    requires AllUnder(ps, low) && low <= high
    ensures AllUnder(ps, high)
  {
  }

  lemma UnderOne(p: Piece, top: nat)
    requires p.hi <= top
    ensures AllUnder([p], top)
  {
  }

  /** A region with two paged ranges has a request that is not marked exactly. */
  lemma OnePieceNeeded(regions: seq<Slot<Region>>, i: nat) returns (gpa: nat, size: nat)
    requires Good(regions) && AllPaged(regions) && i < |regions| && !OnePiece(regions[i])
    requires regions[i].addr + regions[i].size < U64_SPAN
    ensures gpa + size < U64_SPAN && Reaches(regions, gpa) && !ExactFor(regions, gpa, size)
  {
    hide Sorted, Pieces, WalkRanges, Round, PagedAt, GoodRegion, SearchNext, Ascending, Wrap;
    var s := regions[i];
    assert GoodRegion(s) && RegionPaged(s);
    var ps := Pieces(s.backend.ranges, s.addr);
    PiecesInside(s);
    PiecesAscend(s.backend.ranges, s.addr);
    LastOnTop(ps);
    PiecesFull(s.backend.ranges, s.addr);
    RangesFit(regions, i);
    var end := ps[|ps| - 1].hi;
    gpa := ps[0].lo;
    size := end - gpa;
    LastByteLost(s.backend.ranges, s.addr);
    OneRegion(regions, i, gpa, end);
    assert Marked(ps, end - 1);
    PagedInside(regions, i, end - 1);
    NotUnder(Round(regions, gpa, end).marks, end - 1);
    assert gpa + size == end;
    ByOutcome(regions, gpa, size);
  }

  lemma NotUnder(ps: seq<Piece>, top: nat)
    requires AllUnder(ps, top)
    ensures !Marked(ps, top)
  {
  }

  /** A request inside one region below 2^64 is that region's walk. */
  lemma OneRegion(regions: seq<Slot<Region>>, i: nat, start: nat, end: nat)
    requires Sorted(regions) && i < |regions| && regions[i].Holds(start)
    requires end <= regions[i].addr + regions[i].size < U64_SPAN
    ensures Round(regions, start, end) == Lap(WalkRanges(regions[i].backend.ranges, regions[i].addr, start, end).marks,
            false)
  {
    hide Sorted, WalkRanges, SearchNext;
    SearchNextRefines(regions, start);
    var s := regions[i];
    assert s in SetOf(regions);
    SortedDisjoint(regions);
    var r := SearchNext(regions, start).value;
    assert s.Meets(r);
  }

  /** Every request below 2^64 that some region reaches. */
  ghost predicate AlwaysExact(regions: seq<Slot<Region>>)
    requires Sorted(regions)
  {
    forall gpa: nat, size: nat :: gpa + size < U64_SPAN && Reaches(regions, gpa) ==> ExactFor(regions, gpa, size)
  }

  /** Region lists that end below 2^64 mark every such request exactly if and only if no region has two paged ranges. */
  lemma MarkingExactAlways(regions: seq<Slot<Region>>)
    requires Good(regions) && AllPaged(regions) && !Top(regions)
    ensures AlwaysExact(regions) <==> AllOnePiece(regions)
  {
    hide Sorted, Pieces, Round, PagedAt, GoodRegion, Reaches, ExactFor, OnePiece, RegionPaged;
    if AllOnePiece(regions) {
      forall gpa: nat, size: nat | gpa + size < U64_SPAN && Reaches(regions, gpa) ensures ExactFor(regions, gpa, size) {
        MarkingExact(regions, gpa, size);
      }
    } else {
      var i :| 0 <= i < |regions| && !OnePiece(regions[i]);
      LastIs(regions, i);
      var gpa, size := OnePieceNeeded(regions, i);
    }
  }

  // --------------------------------------------------------------- a region at the top

  lemma AtZero(regions: seq<Slot<Region>>, x: nat)
    ensures Reaches(regions, 0) ==> Reaches(regions, x)
  {
  }

  /** With a region at zero the walk from a region at the top comes back, and so does every further lap. */
  lemma ZeroReturns(regions: seq<Slot<Region>>) returns (gpa: nat, size: nat)
    requires Good(regions) && AllPaged(regions) && AllOnePiece(regions) && Top(regions) && Reaches(regions, 0)
    requires regions[|regions| - 1].size > 1
    ensures gpa + size < U64_SPAN && Reaches(regions, gpa) && !ExactFor(regions, gpa, size)
  {
    hide Sorted, Pieces, Round, PagedAt, GoodRegion, ExactFor;
    var n := |regions| - 1;
    var s := regions[n];
    var ps := Pieces(s.backend.ranges, s.addr);
    assert GoodRegion(s) && OnePiece(s) && RegionPaged(s);
    PiecesInside(s);
    PiecesFull(s.backend.ranges, s.addr);
    forall i | 0 <= i < n ensures regions[i].addr + regions[i].size <= s.addr {
      LastIs(regions, i);
    }
    if ps != [] && ps[0].hi != U64_SPAN {
      gpa, size := ps[0].hi, 0;
      PieceInside(s, 0);
      assert s.Holds(ps[0].lo);
      assert Marked(ps, ps[0].lo);
      PagedInside(regions, n, ps[0].lo);
      CrownInside(regions, n, ps[0].lo);
      assert Seen(regions, ps[0].lo);
    } else {
      gpa, size := s.addr, 1;
      assert Returns(regions, 0, gpa + size);
    }
    AtZero(regions, gpa);
    MarkingExact(regions, gpa, size);
    assert Returns(regions, gpa, gpa + size);
  }

  /** The last region is the last byte, the one before it ends there, and there is no RAM below. */
  ghost predicate Idle(regions: seq<Slot<Region>>)
    requires Sorted(regions)
  {
    var n := |regions| - 1;
    && n >= 1 && regions[n].size == 1 && regions[n - 1].addr + regions[n - 1].size == U64_SPAN - 1
    && Bare(regions, 0, U64_SPAN - 1)
  }

  /** The pieces of a last region of one byte. */
  lemma OneByteTop(regions: seq<Slot<Region>>)
    requires Good(regions) && AllPaged(regions) && AllOnePiece(regions) && Top(regions)
    requires regions[|regions| - 1].size == 1
    ensures forall x: nat :: x < U64_SPAN - 1 ==> !Crown(regions, x)
    ensures forall start: nat, end: nat :: !StopsAtTop(regions, start, end)
  {
    hide Sorted, Pieces, GoodRegion;
    var s := regions[|regions| - 1];
    assert GoodRegion(s) && OnePiece(s) && RegionPaged(s);
    var ps := Pieces(s.backend.ranges, s.addr);
    if ps != [] { PieceInside(s, 0); }
  }

  /** Every region but the last ends at or below the last byte, and before it unless it is the last but one. */
  lemma EndsBefore(regions: seq<Slot<Region>>, i: nat)
    requires Sorted(regions) && Top(regions) && regions[|regions| - 1].size == 1 && i < |regions| - 1
    ensures regions[i].addr + regions[i].size <= U64_SPAN - 1
    ensures i < |regions| - 2 ==> regions[i].addr + regions[i].size < U64_SPAN - 1
  {
    LastIs(regions, i);
    if i < |regions| - 2 {
      LastIs(regions, |regions| - 2);
      assert regions[i].addr + regions[i].size <= regions[|regions| - 2].addr;
    }
  }

  /** With a region at zero, asking for nothing at the last byte comes back and goes wrong unless the list is idle. */
  lemma OneByteReturns(regions: seq<Slot<Region>>)
    requires Good(regions) && AllPaged(regions) && AllOnePiece(regions) && Top(regions) && Reaches(regions, 0)
    requires regions[|regions| - 1].size == 1 && !Idle(regions)
    ensures Reaches(regions, U64_SPAN - 1) && !ExactFor(regions, U64_SPAN - 1, 0)
  {
    hide Sorted, Pieces, Round, PagedAt, GoodRegion, ExactFor, Crown, StopsAtTop, OnePiece, RegionPaged;
    var gpa, n := U64_SPAN - 1, |regions| - 1;
    AtZero(regions, gpa);
    OneByteTop(regions);
    forall i | 0 <= i < n
      ensures regions[i].addr + regions[i].size <= gpa
      ensures i < n - 1 ==> regions[i].addr + regions[i].size < gpa
    {
      EndsBefore(regions, i);
    }
    MarkingExact(regions, gpa, 0);
    assert Returns(regions, gpa, gpa);
    if Bare(regions, 0, gpa) {
      assert Returns(regions, 0, gpa);
    } else {
      var x: nat :| x < gpa && PagedAt(regions, x);
      assert Seen(regions, x);
    }
  }

  lemma IdleExact(regions: seq<Slot<Region>>, gpa: nat, size: nat)
    requires Good(regions) && AllPaged(regions) && AllOnePiece(regions) && Top(regions) && Idle(regions)
    requires gpa + size < U64_SPAN
    ensures ExactFor(regions, gpa, size)
  {
    hide Sorted, Pieces, Round, PagedAt, GoodRegion, ExactFor, Crown, StopsAtTop, OnePiece, RegionPaged;
    MarkingExact(regions, gpa, size);
  }

  /** A list whose last region ends at 2^64, with at most one paged range in it, marks every such request exactly if and
      only if no region has two paged ranges, no RAM goes up to 2^64 but for its last byte, and no region starts at
      zero, unless there is no RAM below a last region of one byte and the region before it comes up to it. */
  lemma TopExactAlways(regions: seq<Slot<Region>>)
    requires Good(regions) && AllPaged(regions) && Top(regions) && OnePiece(regions[|regions| - 1])
    ensures AlwaysExact(regions)
            <==> AllOnePiece(regions) && !Crown(regions, U64_SPAN - 2) && (!Reaches(regions, 0) || Idle(regions))
  {
    hide Sorted, Pieces, Round, PagedAt, GoodRegion, ExactFor, OnePiece, RegionPaged, Returns, Idle;
    if !AllOnePiece(regions) {
      var i :| 0 <= i < |regions| && !OnePiece(regions[i]);
      LastIs(regions, i);
      var gpa, size := OnePieceNeeded(regions, i);
    } else if Crown(regions, U64_SPAN - 2) {
      TopCrown(regions);
    } else if Reaches(regions, 0) {
      TopReturns(regions);
    } else {
      forall gpa: nat, size: nat | gpa + size < U64_SPAN && Reaches(regions, gpa) ensures ExactFor(regions, gpa, size) {
        CrownHigh(regions, gpa + size);
        MarkingExact(regions, gpa, size);
      }
    }
  }

  lemma TopCrown(regions: seq<Slot<Region>>)
    requires Good(regions) && AllPaged(regions) && AllOnePiece(regions) && Crown(regions, U64_SPAN - 2)
    ensures !AlwaysExact(regions)
  {
    hide Sorted, Pieces, Round, PagedAt, GoodRegion, ExactFor, RegionPaged, Returns;
    var s := regions[|regions| - 1];
    var ps := Pieces(s.backend.ranges, s.addr);
    assert GoodRegion(s);
    PieceInside(s, |ps| - 1);
    assert Reaches(regions, U64_SPAN - 2);
    CrownPaged(regions, U64_SPAN - 2);
    MarkingExact(regions, U64_SPAN - 2, 1);
    assert !Found(regions, U64_SPAN - 2, 1);
  }

  lemma TopReturns(regions: seq<Slot<Region>>)
    requires Good(regions) && AllPaged(regions) && AllOnePiece(regions) && Top(regions) && Reaches(regions, 0)
    ensures AlwaysExact(regions) <==> Idle(regions)
  {
    hide Sorted, Pieces, Round, PagedAt, GoodRegion, ExactFor, OnePiece, RegionPaged, Returns;
    LastIs(regions, |regions| - 1);
    if regions[|regions| - 1].size > 1 {
      var gpa, size := ZeroReturns(regions);
    } else if Idle(regions) {
      forall gpa: nat, size: nat | gpa + size < U64_SPAN && Reaches(regions, gpa) ensures ExactFor(regions, gpa, size) {
        IdleExact(regions, gpa, size);
      }
    } else {
      OneByteReturns(regions);
    }
  }

  lemma CrownHigh(regions: seq<Slot<Region>>, end: nat)
    requires !Crown(regions, U64_SPAN - 2) && end < U64_SPAN
    ensures forall x: nat :: x < end ==> !Crown(regions, x)
  {
    hide Pieces;
  }

  /** RAM in the first page and a device in the last. */
  function TopDevice(pages: Pages): seq<Slot<Region>> {
    [Slot(0, 4096, Region([RamRange(pages)], [4096])),
     Slot(U64_SPAN - 4096, 4096, Region([Emulated(0, 4096)], [4096]))]
  }

  /** Asked for the first two pages, the walk never ends: from the last page it comes back to zero. */
  lemma TopDeviceLoops(pages: Pages, n: nat)
    requires pages.size == 4096
    ensures Good(TopDevice(pages)) && AllPaged(TopDevice(pages)) && AllOnePiece(TopDevice(pages))
    ensures Turns(TopDevice(pages), 0, 8192, n).next.Some?
  {
    TopDeviceGood(pages);
    hide Sorted, Good, AllPaged, AllOnePiece, Turns, Round, Returns;
    var regions := TopDevice(pages);
    GoodSorted(regions);
    TopDeviceReturns(pages);
    BackIff(regions, 0, 8192);
    var k := RoundTurns(regions, 0, 8192);
    NeverEnds(regions, 8192, k, n);
  }

  lemma GoodSorted(regions: seq<Slot<Region>>)
    requires Good(regions)
    ensures Sorted(regions)
  {
  }

  lemma TopDeviceReturns(pages: Pages)
    requires pages.size == 4096
    ensures Returns(TopDevice(pages), 0, 8192)
  {
    var regions := TopDevice(pages);
    assert regions[0].addr == 0;
    assert regions[1].backend.ranges[1..] == [];
    assert Pieces(regions[1].backend.ranges, regions[1].addr) == [];
  }

  lemma TopDeviceGood(pages: Pages)
    requires pages.size == 4096
    ensures Good(TopDevice(pages)) && AllPaged(TopDevice(pages)) && AllOnePiece(TopDevice(pages))
  {
    var regions := TopDevice(pages);
    forall i | 0 <= i < |regions| ensures GoodRegion(regions[i]) && OnePiece(regions[i]) && RegionPaged(regions[i]) {
      var s := regions[i];
      assert s.backend.entries[1..] == [] && s.backend.ranges[1..] == [];
      assert Sum(s.backend.entries) == 4096 && Total(s.backend.ranges) == 4096;
    }
  }
}
