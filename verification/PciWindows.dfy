/**
 Placing BARs in an address window: largest first, each at the next multiple of its size.
 */
module PciWindows {
  import opened Bytes
  import opened Powers

  /** Register `index` of function `bdf`, 2^log bytes. */
  datatype Entry = Entry(bdf: nat, index: nat, log: nat)

  datatype Placement = At(e: Entry, addr: nat)

  /** The sort key: size descending, then function, then register. */
  predicate Before(a: Entry, b: Entry) {
    a.log > b.log || (a.log == b.log && (a.bdf < b.bdf || (a.bdf == b.bdf && a.index < b.index)))
  }

  predicate Ordered(es: seq<Entry>) {
    forall i, j :: 0 <= i < j < |es| ==> Before(es[i], es[j])
  }

  /** `align_up!`, with its wrapping addition. */
  function AlignUp(addr: nat, k: nat): nat {
    Down((addr + Pow2(k) - 1) % U64_SPAN, k)
  }

  lemma AlignUpExact(addr: nat, k: nat)
    requires addr + Pow2(k) <= U64_SPAN
    ensures addr <= AlignUp(addr, k) < addr + Pow2(k) && Aligned(AlignUp(addr, k), k)
    ensures Aligned(addr, k) ==> AlignUp(addr, k) == addr
  {
    hide Pow2, Aligned, Down;
    var s := addr + Pow2(k) - 1;
    assert s % U64_SPAN == s;
    DownAligned(s, k);
    if Aligned(addr, k) {
      DownUnique(s, k, addr);
    }
  }

  lemma AlignUpBelow(addr: nat, k: nat)
    ensures AlignUp(addr, k) < U64_SPAN
  {
  }

  /** The sum of a BAR's address and size, in 64 bits. */
  function EndOf(a: nat, k: nat): nat {
    (a + Pow2(k)) % U64_SPAN
  }

  /** The inner loop of `assign_resources`: what does not fit is left out. */
  function Place(es: seq<Entry>, addr: nat, end: nat): seq<Placement>
    decreases |es|
  {
    if es == [] then []
    else
      var a := AlignUp(addr, es[0].log);
      var next := EndOf(a, es[0].log);
      if next > end then Place(es[1..], addr, end) else [At(es[0], a)] + Place(es[1..], next, end)
  }

  lemma PlaceStep(es: seq<Entry>, addr: nat, end: nat)
    requires es != []
    ensures var a := AlignUp(addr, es[0].log);
            var next := EndOf(a, es[0].log);
            Place(es, addr, end)
            == if next > end then Place(es[1..], addr, end) else [At(es[0], a)] + Place(es[1..], next, end)
  {
  }

  lemma PlaceNothing(addr: nat, end: nat)
    ensures Place([], addr, end) == []
  {
  }

  lemma {:induction false} PlaceFromList(es: seq<Entry>, addr: nat, end: nat)
    ensures forall i :: 0 <= i < |Place(es, addr, end)| ==> Place(es, addr, end)[i].e in es
    decreases |es|
  {
    hide Pow2, AlignUp, EndOf, Place;
    if es == [] {
      PlaceNothing(addr, end);
    } else {
      var next := EndOf(AlignUp(addr, es[0].log), es[0].log);
      PlaceStep(es, addr, end);
      PlaceFromList(es[1..], if next > end then addr else next, end);
    }
  }

  /** The last block of 2^k bytes lies above the end of the window, the last two above its start. */
  predicate Clear(k: nat, start: nat, end: nat) {
    end + Pow2(k) < U64_SPAN && start + 2 * Pow2(k) <= U64_SPAN
  }

  /** The length of `n` blocks of 2^k bytes. */
  function Blocks(n: nat, k: nat): nat {
    n * Pow2(k)
  }

  lemma OneBlock(n: nat, k: nat)
    requires n > 0
    ensures Blocks(n, k) == Pow2(k) + Blocks(n - 1, k) && (n == 1 ==> Blocks(n - 1, k) == 0)
    ensures n > 1 ==> Blocks(n - 1, k) >= Pow2(k)
  {
    hide Pow2;
  }

  /** `n` blocks of 2^k bytes from the start on end below 2^64. */
  predicate Few(n: nat, k: nat, start: nat) {
    start + Pow2(k) <= U64_SPAN && AlignUp(start, k) + Blocks(n, k) < U64_SPAN
  }

  /** No 64-bit sum wraps for `n` BARs of up to 2^k bytes. */
  predicate Room(n: nat, k: nat, start: nat, end: nat) {
    Clear(k, start, end) || Few(n, k, start)
  }

  /** Room for an ordered list, whose first BAR is the largest. */
  predicate Headroom(es: seq<Entry>, start: nat, end: nat) {
    es != [] ==> Room(|es|, es[0].log, start, end)
  }

  predicate Inside(p: Placement, start: nat, end: nat) {
    start <= p.addr && p.addr + Pow2(p.e.log) <= end && Aligned(p.addr, p.e.log)
  }

  /** Inside the window, naturally aligned, one after another, in the order of the list. */
  predicate Safe(ps: seq<Placement>, start: nat, end: nat) {
    && (forall i :: 0 <= i < |ps| ==> Inside(ps[i], start, end))
    && (forall i, j :: 0 <= i < j < |ps| ==>
          ps[i].addr + Pow2(ps[i].e.log) <= ps[j].addr && Before(ps[i].e, ps[j].e))
  }

  lemma RoomSmall(n: nat, k: nat, start: nat, end: nat)
    requires n > 0 && Room(n, k, start, end)
    ensures k < 64
  {
    hide Pow2, Blocks;
    Pow64();
    OneBlock(n, k);
    if k >= 64 {
      PowMono(64, k);
    }
  }

  /** With room, the next block is aligned, does not wrap, and leaves room. */
  lemma NextBlock(n: nat, k: nat, start: nat, end: nat)
    requires n > 0 && Room(n, k, start, end) && start <= end
    ensures var a := AlignUp(start, k);
            && start <= a && Aligned(a, k) && EndOf(a, k) == a + Pow2(k)
            && (Aligned(start, k) ==> a == start)
            && (EndOf(a, k) <= end ==> Room(n - 1, k, EndOf(a, k), end))
  {
    hide Clear, Few, Aligned, AlignUp, EndOf, Pow2;
    if Clear(k, start, end) {
      NextClear(k, start, end);
    } else {
      NextFew(n, k, start);
    }
  }

  lemma NextClear(k: nat, start: nat, end: nat)
    requires Clear(k, start, end) && start <= end
    ensures var a := AlignUp(start, k);
            && start <= a && Aligned(a, k) && EndOf(a, k) == a + Pow2(k) && (Aligned(start, k) ==> a == start)
            && (EndOf(a, k) <= end ==> Clear(k, EndOf(a, k), end))
  {
    hide Pow2, Aligned, AlignUp, EndOf;
    var a, p := AlignUp(start, k), Pow2(k);
    RoomSmall(1, k, start, end);
    AlignUpExact(start, k);
    Blocks64(k);
    Gap(a, U64_SPAN - p, k);
    EndWithin(a, k);
    if a + p <= end {
      AlignedPow(k, k);
      AlignedSum(a, p, k);
      Gap(a + p, U64_SPAN - p, k);
    }
  }

  lemma NextFew(n: nat, k: nat, start: nat)
    requires n > 0 && Few(n, k, start)
    ensures var a := AlignUp(start, k);
            && start <= a && Aligned(a, k) && EndOf(a, k) == a + Pow2(k) && (Aligned(start, k) ==> a == start)
            && Few(n - 1, k, EndOf(a, k))
  {
    hide Pow2, Aligned, AlignUp, EndOf, Blocks;
    var a, p := AlignUp(start, k), Pow2(k);
    RoomSmall(n, k, start, start);
    AlignUpExact(start, k);
    OneBlock(n, k);
    EndWithin(a, k);
    Blocks64(k);
    AlignedPow(k, k);
    AlignedSum(a, p, k);
    if a + p > U64_SPAN - p {
      Gap(U64_SPAN - p, a + p, k);
    }
    AlignUpExact(a + p, k);
  }

  lemma EndWithin(a: nat, k: nat)
    requires a + Pow2(k) <= U64_SPAN
    ensures EndOf(a, k) == if a + Pow2(k) == U64_SPAN then 0 else a + Pow2(k)
  {
    hide Pow2;
  }

  /** Fewer and smaller BARs have room where `n` of 2^k bytes do. */
  lemma RoomLess(n: nat, k: nat, m: nat, j: nat, start: nat, end: nat)
    requires Room(n, k, start, end) && m <= n && j <= k
    ensures Room(m, j, start, end)
  {
    hide Pow2, Aligned, AlignUp;
    PowMono(j, k);
    if !Clear(k, start, end) {
      AlignUpExact(start, k);
      AlignUpExact(start, j);
      AlignedLess(AlignUp(start, k), k, j);
      if AlignUp(start, k) < AlignUp(start, j) {
        Gap(AlignUp(start, k), AlignUp(start, j), j);
      }
      Products(m, n, Pow2(j), Pow2(k));
    }
  }

  lemma Products(m: nat, n: nat, p: nat, q: nat)
    requires m <= n && p <= q
    ensures m * p <= n * q
  {
    assert m * p <= m * q;
    assert n * q == m * q + (n - m) * q;
  }

  /** 2^64 and the start of its last block are multiples of the block size. */
  lemma Blocks64(k: nat)
    requires k < 64
    ensures 2 * Pow2(k) <= U64_SPAN && Aligned(U64_SPAN - Pow2(k), k)
  {
    hide Pow2, Aligned;
    Pow64();
    PowMono(k + 1, 64);
    PowStep(k);
    AlignedPow(64, k);
    AlignedPow(k, k);
    AlignedMinus(U64_SPAN, Pow2(k), k);
  }

  /** Two different multiples are a block apart. */
  lemma Gap(x: nat, y: nat, k: nat)
    requires Aligned(x, k) && Aligned(y, k) && x < y
    ensures x + Pow2(k) <= y
  {
    hide Pow2, Aligned;
    AlignedMinus(y, x, k);
    AlignedAtLeast(y - x, k);
  }

  lemma HeadroomTail(es: seq<Entry>, start: nat, end: nat)
    requires Ordered(es) && es != [] && Room(|es| - 1, es[0].log, start, end)
    ensures Ordered(es[1..]) && Headroom(es[1..], start, end)
  {
    hide Room;
    assert forall i :: 0 <= i < |es[1..]| ==> es[1..][i] == es[i + 1];
    if |es| > 1 {
      assert Before(es[0], es[1]);
      RoomLess(|es| - 1, es[0].log, |es| - 1, es[1].log, start, end);
    }
  }

  lemma {:induction false} PlaceSafe(es: seq<Entry>, start: nat, end: nat)
    requires Ordered(es) && Headroom(es, start, end) && start <= end
    ensures Safe(Place(es, start, end), start, end)
    ensures forall i :: 0 <= i < |Place(es, start, end)| ==> Place(es, start, end)[i].e in es
    decreases |es|
  {
    hide Pow2, Aligned, AlignUp, EndOf, Place, Room;
    PlaceFromList(es, start, end);
    if es == [] {
      PlaceNothing(start, end);
    } else {
      var e, rest := es[0], es[1..];
      NextBlock(|es|, e.log, start, end);
      PlaceStep(es, start, end);
      var a := AlignUp(start, e.log);
      var next := EndOf(a, e.log);
      if next > end {
        RoomLess(|es|, e.log, |es| - 1, e.log, start, end);
        HeadroomTail(es, start, end);
        PlaceSafe(rest, start, end);
      } else {
        HeadroomTail(es, next, end);
        PlaceSafe(rest, next, end);
        OneMoreSafe(At(e, a), Place(rest, next, end), start, end, es);
      }
    }
  }

  lemma OneMoreSafe(p: Placement, ps: seq<Placement>, start: nat, end: nat, es: seq<Entry>)
    requires Inside(p, start, end) && Safe(ps, p.addr + Pow2(p.e.log), end) && Ordered(es) && es != [] && es[0] == p.e
    requires forall i :: 0 <= i < |ps| ==> ps[i].e in es[1..]
    ensures Safe([p] + ps, start, end)
  {
    hide Pow2, Aligned;
    var all := [p] + ps;
    forall i | 0 <= i < |all| ensures Inside(all[i], start, end) {
      if i > 0 {
        assert all[i] == ps[i - 1] && Inside(ps[i - 1], p.addr + Pow2(p.e.log), end);
      }
    }
    forall i, j | 0 <= i < j < |all|
      ensures all[i].addr + Pow2(all[i].e.log) <= all[j].addr && Before(all[i].e, all[j].e)
    {
      assert all[j] == ps[j - 1] && Inside(ps[j - 1], p.addr + Pow2(p.e.log), end);
      if i == 0 {
        var k :| 0 <= k < |es[1..]| && es[1..][k] == ps[j - 1].e;
        assert es[k + 1] == ps[j - 1].e && Before(es[0], es[k + 1]);
      }
    }
  }

  /** Larger BARs are placed lower; of equal ones that of the lower function, and of one function the lower register. */
  lemma PlacedOrder(ps: seq<Placement>, start: nat, end: nat, i: nat, j: nat)
    requires Safe(ps, start, end) && i < |ps| && j < |ps| && i != j
    ensures var p, q := ps[i], ps[j];
            p.addr < q.addr <==>
              || p.e.log > q.e.log
              || (p.e.log == q.e.log && p.e.bdf < q.e.bdf)
              || (p.e.log == q.e.log && p.e.bdf == q.e.bdf && p.e.index < q.e.index)
  {
    hide Aligned, Pow2;
    assert i < j || j < i;
  }

  /** Where placing goes on: after the last BAR placed. */
  function Frontier(ps: seq<Placement>, start: nat): nat {
    if ps == [] then start else ps[|ps| - 1].addr + Pow2(ps[|ps| - 1].e.log)
  }

  /** The first multiple of 2^k at or after `from`. */
  predicate FirstBlock(a: nat, from: nat, k: nat) {
    from <= a < from + Pow2(k) && Aligned(a, k)
  }

  lemma FirstBlockIs(from: nat, k: nat)
    requires from + Pow2(k) <= U64_SPAN
    ensures FirstBlock(AlignUp(from, k), from, k)
  {
    hide Pow2, Aligned, AlignUp;
    AlignUpExact(from, k);
  }

  /** Each BAR in turn goes to the first multiple of its size after those placed before it, and is left out if and only
      if it would end past the window. */
  lemma {:induction false} PlaceGreedy(es: seq<Entry>, e: Entry, start: nat, end: nat) returns (a: nat)
    requires Ordered(es + [e]) && Headroom(es + [e], start, end) && start <= end
    ensures FirstBlock(a, Frontier(Place(es, start, end), start), e.log)
    ensures Place(es + [e], start, end)
            == Place(es, start, end) + if a + Pow2(e.log) <= end then [At(e, a)] else []
    decreases |es|
  {
    hide Pow2, Aligned, AlignUp, EndOf, Place, Room, Ordered;
    var all := es + [e];
    var k := all[0].log;
    NextBlock(|all|, k, start, end);
    PlaceStep(all, start, end);
    PlaceNothing(start, end);
    BelowSpan(|all|, k, start, end);
    if es == [] {
      a := AlignUp(start, k);
      FirstBlockIs(start, k);
      assert all[1..] == [];
      PlaceNothing(EndOf(a, k), end);
    } else {
      PlaceStep(es, start, end);
      assert all[1..] == es[1..] + [e] && all[0] == es[0];
      var next := EndOf(AlignUp(start, k), k);
      if next > end {
        RoomLess(|all|, k, |all| - 1, k, start, end);
        HeadroomTail(all, start, end);
        a := PlaceGreedy(es[1..], e, start, end);
      } else {
        HeadroomTail(all, next, end);
        a := PlaceGreedy(es[1..], e, next, end);
        var p, rest := At(es[0], AlignUp(start, k)), Place(es[1..], next, end);
        FrontierFirst(p, rest, start);
        assert [p] + (rest + if a + Pow2(e.log) <= end then [At(e, a)] else [])
               == ([p] + rest) + if a + Pow2(e.log) <= end then [At(e, a)] else [];
      }
    }
  }

  lemma FrontierFirst(p: Placement, rest: seq<Placement>, start: nat)
    ensures Frontier([p] + rest, start) == Frontier(rest, p.addr + Pow2(p.e.log))
  {
    hide Pow2;
  }

  lemma BelowSpan(n: nat, k: nat, start: nat, end: nat)
    requires n > 0 && Room(n, k, start, end)
    ensures start + Pow2(k) <= U64_SPAN
  {
    hide Pow2;
  }

  // ------------------------------------------------------------------- what fits by size

  function Total(es: seq<Entry>): nat {
    if es == [] then 0 else Pow2(es[0].log) + Total(es[1..])
  }

  /** No padding: each BAR starts where the one before it ends. */
  predicate Packed(es: seq<Entry>, start: nat, ps: seq<Placement>)
    decreases |es|
  {
    if es == [] then ps == []
    else ps != [] && ps[0] == At(es[0], start) && Packed(es[1..], start + Pow2(es[0].log), ps[1..])
  }

  /** From a start that is a multiple of the largest size, everything that fits by size is placed, without padding. */
  lemma {:induction false} PlaceComplete(es: seq<Entry>, start: nat, end: nat)
    requires Ordered(es) && Headroom(es, start, end) && start + Total(es) <= end
    requires es != [] ==> Aligned(start, es[0].log)
    ensures Packed(es, start, Place(es, start, end)) && |Place(es, start, end)| == |es|
    decreases |es|
  {
    hide Pow2, Aligned, AlignUp, EndOf, Place, Room;
    if es == [] {
      PlaceNothing(start, end);
    } else {
      var e, rest := es[0], es[1..];
      NextBlock(|es|, e.log, start, end);
      PlaceStep(es, start, end);
      var next := start + Pow2(e.log);
      HeadroomTail(es, next, end);
      if rest != [] {
        assert Before(es[0], es[1]);
        AlignedPow(e.log, rest[0].log);
        AlignedLess(start, e.log, rest[0].log);
        AlignedSum(start, Pow2(e.log), rest[0].log);
      }
      PlaceComplete(rest, next, end);
      assert Place(es, start, end)[1..] == Place(rest, next, end);
    }
  }

  /** Whatever the start, all of them placed means that they fit by size. */
  lemma {:induction false} PlacedFits(es: seq<Entry>, start: nat, end: nat)
    requires Ordered(es) && Headroom(es, start, end) && start <= end
    ensures |Place(es, start, end)| <= |es|
    ensures |Place(es, start, end)| == |es| ==> start + Total(es) <= end
    decreases |es|
  {
    hide Pow2, Aligned, AlignUp, EndOf, Place, Total, Room;
    TotalStep(es);
    if es == [] {
      PlaceNothing(start, end);
    } else {
      var e, rest := es[0], es[1..];
      NextBlock(|es|, e.log, start, end);
      PlaceStep(es, start, end);
      var next := EndOf(AlignUp(start, e.log), e.log);
      if next > end {
        RoomLess(|es|, e.log, |es| - 1, e.log, start, end);
        HeadroomTail(es, start, end);
        PlacedFits(rest, start, end);
      } else {
        HeadroomTail(es, next, end);
        PlacedFits(rest, next, end);
      }
    }
  }

  lemma TotalStep(es: seq<Entry>)
    ensures Total(es) == if es == [] then 0 else Pow2(es[0].log) + Total(es[1..])
  {
  }

  /** With an aligned start the allocator places every BAR if and only if their sizes sum to at most the window. */
  lemma PlacesAllIff(es: seq<Entry>, start: nat, end: nat)
    requires Ordered(es) && Headroom(es, start, end) && start <= end
    requires es != [] ==> Aligned(start, es[0].log)
    ensures |Place(es, start, end)| == |es| <==> start + Total(es) <= end
  {
    PlacedFits(es, start, end);
    if start + Total(es) <= end {
      PlaceComplete(es, start, end);
    }
  }

  // --------------------------------------------------------------------- near the top

  ghost predicate AtMost(es: seq<Entry>, k: nat) {
    forall i :: 0 <= i < |es| ==> es[i].log <= k
  }

  /** Registers of a segment: 65536 functions of six each. */
  const REGISTERS: nat := 0x6_0000

  ghost predicate InSegment(es: seq<Entry>) {
    forall i :: 0 <= i < |es| ==> es[i].bdf < 0x1_0000 && es[i].index < 6
  }

  /** `n` BARs of 2^k bytes, in the order of the registers. */
  function Alike(from: nat, n: nat, k: nat): (es: seq<Entry>)
    ensures |es| == n
    decreases n
  {
    if n == 0 then [] else [Entry(from / 6, from % 6, k)] + Alike(from + 1, n - 1, k)
  }

  lemma {:induction false} AlikeOrdered(from: nat, n: nat, k: nat)
    ensures forall i :: 0 <= i < n ==> Alike(from, n, k)[i] == Entry((from + i) / 6, (from + i) % 6, k)
    ensures Ordered(Alike(from, n, k)) && AtMost(Alike(from, n, k), k)
    ensures from + n <= REGISTERS ==> InSegment(Alike(from, n, k))
    decreases n
  {
    if n > 0 {
      AlikeOrdered(from + 1, n - 1, k);
    }
  }

  ghost predicate Holds(ps: seq<Placement>, a: nat) {
    exists i :: 0 <= i < |ps| && ps[i].addr == a
  }

  /** A window that reaches into the last block: BARs that fill it end with one that goes up to 2^64. */
  lemma {:induction false} FillsTop(from: nat, n: nat, k: nat, start: nat, end: nat)
    requires k < 64 && Pow2(k) <= U64_SPAN && n > 0 && Aligned(start, k) && start + Blocks(n, k) == U64_SPAN
    requires U64_SPAN - Pow2(k) <= end
    ensures Holds(Place(Alike(from, n, k), start, end), U64_SPAN - Pow2(k))
    decreases n
  {
    hide Pow2, Aligned, AlignUp, Place, EndOf, Blocks;
    var es, p := Alike(from, n, k), Pow2(k);
    OneBlock(n, k);
    AlignUpExact(start, k);
    EndWithin(start, k);
    PlaceStep(es, start, end);
    assert es[1..] == Alike(from + 1, n - 1, k);
    if n == 1 {
      assert Place(es, start, end)[0].addr == start;
    } else {
      AlignedPow(k, k);
      AlignedSum(start, p, k);
      FillsTop(from + 1, n - 1, k, start + p, end);
      var rest := Place(es[1..], start + p, end);
      var i :| 0 <= i < |rest| && rest[i].addr == U64_SPAN - p;
      assert Place(es, start, end)[i + 1] == rest[i];
    }
  }

  lemma TopUnsafe(ps: seq<Placement>, k: nat, start: nat, end: nat)
    requires end < U64_SPAN && Pow2(k) <= U64_SPAN && Holds(ps, U64_SPAN - Pow2(k))
    requires forall i :: 0 <= i < |ps| ==> ps[i].e.log == k
    ensures !Safe(ps, start, end)
  {
    hide Pow2, Aligned;
    var i :| 0 <= i < |ps| && ps[i].addr == U64_SPAN - Pow2(k);
    assert !Inside(ps[i], start, end);
  }

  /** Some of the registers of a segment, largest first: at most `n` of them, of up to 2^k bytes each. */
  ghost predicate Candidate(es: seq<Entry>, n: nat, k: nat) {
    Ordered(es) && AtMost(es, k) && InSegment(es) && |es| <= n
  }

  /** A list of BARs of 2^k bytes that is not placed safely. */
  lemma Unsafe(n: nat, k: nat, start: nat, end: nat) returns (es: seq<Entry>)
    requires 0 < n <= REGISTERS && k < 64 && start <= end < U64_SPAN && !Room(n, k, start, end)
    ensures Candidate(es, n, k) && !Safe(Place(es, start, end), start, end)
  {
    hide Pow2, Aligned, Place;
    Blocks64(k);
    var top := U64_SPAN - Pow2(k);
    if start > top {
      es := WrapsBelow(k, start, end);
    } else if end >= top {
      es := Fills(n, k, start, end);
    } else {
      es := WrapsAtTop(k, start, end);
    }
  }

  /** The start is past the last block: aligning it gives zero. */
  lemma WrapsBelow(k: nat, start: nat, end: nat) returns (es: seq<Entry>)
    requires k < 64 && U64_SPAN - Pow2(k) < start <= end < U64_SPAN
    ensures Candidate(es, 1, k) && !Safe(Place(es, start, end), start, end)
  {
    hide Pow2, Aligned, Place, Down;
    es := [Entry(0, 0, k)];
    Blocks64(k);
    var s := (start + Pow2(k) - 1) % U64_SPAN;
    assert s == start + Pow2(k) - 1 - U64_SPAN < Pow2(k);
    ZeroAligned(k);
    DownUnique(s, k, 0);
    PlaceStep(es, start, end);
    var ps := Place(es, start, end);
    assert ps[0].addr == 0;
    assert !Inside(ps[0], start, end);
  }

  /** Aligning the start gives the last block, which lies above the window. */
  lemma WrapsAtTop(k: nat, start: nat, end: nat) returns (es: seq<Entry>)
    requires k < 64 && start <= end < U64_SPAN - Pow2(k) && U64_SPAN < start + 2 * Pow2(k)
    ensures Candidate(es, 1, k) && !Safe(Place(es, start, end), start, end)
  {
    hide Pow2, Aligned, Place, AlignUp;
    es := [Entry(0, 0, k)];
    var top := U64_SPAN - Pow2(k);
    Blocks64(k);
    AlignUpExact(start, k);
    var a := AlignUp(start, k);
    if a < top { Gap(a, top, k); }
    if a > top { Gap(top, a, k); }
    PlaceStep(es, start, end);
    assert Place(es, start, end)[0].addr == top;
    assert !Inside(Place(es, start, end)[0], start, end);
  }

  /** Enough BARs fill the window up to 2^64. */
  lemma Fills(n: nat, k: nat, start: nat, end: nat) returns (es: seq<Entry>)
    requires n <= REGISTERS && k < 64 && start <= U64_SPAN - Pow2(k) <= end < U64_SPAN && !Few(n, k, start)
    ensures Candidate(es, n, k) && !Safe(Place(es, start, end), start, end)
  {
    hide Pow2, Aligned, Place, AlignUp, Alike, Safe, Ordered, EndOf, InSegment, AtMost;
    Blocks64(k);
    AlignUpExact(start, k);
    var a := AlignUp(start, k);
    if a > U64_SPAN - Pow2(k) { Gap(U64_SPAN - Pow2(k), a, k); }
    var m := BlocksTo(a, k);
    NoMore(n, m, Pow2(k), U64_SPAN - a);
    es := Alike(0, m, k);
    AlikeOrdered(0, m, k);
    FillsTop(0, m, k, a, end);
    SameFromAligned(es, k, start, end);
    AlikeLogs(m, k, a, end);
    TopUnsafe(Place(es, a, end), k, start, end);
  }

  lemma NoMore(n: nat, m: nat, p: nat, total: nat)
    requires p > 0 && m * p == total <= n * p
    ensures m <= n
  {
    if m > n { Products(n + 1, m, p, p); }
  }

  /** The allocator goes on from the aligned start as from the start. */
  lemma SameFromAligned(es: seq<Entry>, k: nat, start: nat, end: nat)
    requires k < 64 && start <= U64_SPAN - Pow2(k) <= end && AlignUp(start, k) <= U64_SPAN - Pow2(k)
    requires es != [] && es[0].log == k
    ensures Place(es, start, end) == Place(es, AlignUp(start, k), end)
  {
    hide Pow2, Aligned, Place, AlignUp;
    var a := AlignUp(start, k);
    AlignUpExact(start, k);
    AlignUpExact(a, k);
    PlaceStep(es, start, end);
    PlaceStep(es, a, end);
    if a + Pow2(k) < U64_SPAN {
      Blocks64(k);
      Gap(a, U64_SPAN - Pow2(k), k);
    }
  }

  lemma InAlike(n: nat, k: nat, e: Entry)
    requires e in Alike(0, n, k)
    ensures e.log == k
  {
    hide Alike, Ordered;
    var es := Alike(0, n, k);
    AlikeOrdered(0, n, k);
    var j :| 0 <= j < |es| && es[j] == e;
    assert Alike(0, n, k)[j] == Entry((0 + j) / 6, (0 + j) % 6, k);
  }

  lemma AlikeLogs(n: nat, k: nat, start: nat, end: nat)
    ensures forall i :: 0 <= i < |Place(Alike(0, n, k), start, end)| ==> Place(Alike(0, n, k), start, end)[i].e.log == k
  {
    hide Pow2, Place, Alike, Ordered;
    var es := Alike(0, n, k);
    var ps := Place(es, start, end);
    AlikeOrdered(0, n, k);
    PlaceFromList(es, start, end);
    forall i | 0 <= i < |ps| ensures ps[i].e.log == k {
      assert Place(es, start, end)[i].e in es;
      InAlike(n, k, ps[i].e);
    }
  }

  lemma BlocksTo(a: nat, k: nat) returns (n: nat)
    requires k < 64 && Aligned(a, k) && a + Pow2(k) <= U64_SPAN
    ensures n > 0 && a + Blocks(n, k) == U64_SPAN
  {
    hide Pow2, Aligned;
    Pow64();
    AlignedPow(64, k);
    AlignedMinus(U64_SPAN, a, k);
    AlignedIff(U64_SPAN - a, k);
    n := (U64_SPAN - a) / Pow2(k);
  }

  /** Every ordered list of up to `n` BARs of up to 2^k bytes is placed safely if and only if the window leaves room
      for such BARs below 2^64. */
  lemma PlacesSafelyIff(n: nat, k: nat, start: nat, end: nat)
    requires 0 < n <= REGISTERS && k < 64 && start <= end < U64_SPAN
    ensures (forall es :: Candidate(es, n, k) ==> Safe(Place(es, start, end), start, end)) <==> Room(n, k, start, end)
  {
    hide Ordered, Place, Safe, Room;
    if Room(n, k, start, end) {
      forall es: seq<Entry> | Candidate(es, n, k) ensures Safe(Place(es, start, end), start, end) {
        if es != [] {
          RoomLess(n, k, |es|, es[0].log, start, end);
        }
        PlaceSafe(es, start, end);
      }
    } else {
      var es := Unsafe(n, k, start, end);
    }
  }

  /** Two BARs of 4 KiB in a window of 4 KiB that ends a page below 2^64: the second does not fit, its end wraps to
      zero, and it is placed above the window. */
  lemma TopPlacedOutside()
    ensures var start, end := U64_SPAN - 8192, U64_SPAN - 4096;
            var es := [Entry(0, 0, 12), Entry(1, 0, 12)];
            && Ordered(es) && !Room(|es|, 12, start, end)
            && Place(es, start, end) == [At(es[0], start), At(es[1], end)]
            && !Safe(Place(es, start, end), start, end)
  {
    hide Pow2, Place, AlignUp, Aligned, EndOf, Room;
    var start, end := U64_SPAN - 8192, U64_SPAN - 4096;
    var es := [Entry(0, 0, 12), Entry(1, 0, 12)];
    Page();
    TopPages();
    PlaceStep(es, start, end);
    assert es[1..] == [es[1]];
    PlaceStep([es[1]], end, end);
    PlaceNothing(0, end);
    assert [es[1]][1..] == [];
    assert !Inside(Place(es, start, end)[1], start, end);
  }

  /** The last two pages. */
  lemma TopPages()
    ensures var start, end := U64_SPAN - 8192, U64_SPAN - 4096;
            && AlignUp(start, 12) == start && EndOf(start, 12) == end && !Room(2, 12, start, end)
            && AlignUp(end, 12) == end && EndOf(end, 12) == 0
  {
    hide Pow2, AlignUp, Aligned;
    var start, end := U64_SPAN - 8192, U64_SPAN - 4096;
    Page();
    Blocks64(12);
    AlignedPow(12, 12);
    AlignedMinus(end, 4096, 12);
    AlignUpExact(start, 12);
    AlignUpExact(end, 12);
  }

  /** A window that starts inside the last page: alignment wraps and a BAR lands below its window. */
  lemma WrapPlacesBelow()
    ensures var start, end := U64_SPAN - 2048, U64_SPAN - 1;
            var es := [Entry(0, 0, 12)];
            && Place(es, start, end) == [At(es[0], 0)] && !Room(|es|, 12, start, end)
            && !Safe(Place(es, start, end), start, end)
  {
    var start, end := U64_SPAN - 2048, U64_SPAN - 1;
    var es := [Entry(0, 0, 12)];
    Page();
    hide Pow2, Place;
    PlaceStep(es, start, end);
    PlaceNothing(4096, end);
    assert es[1..] == [];
    assert !Inside(Place(es, start, end)[0], start, end);
  }

  lemma Page()
    ensures Pow2(12) == 4096
  {
    assert Pow2(6) == 64;
  }

  // ------------------------------------------------------------------------- one order

  ghost function SetOf(es: seq<Entry>): set<Entry> {
    set e | e in es
  }

  lemma OrderTotal(a: Entry, b: Entry)
    ensures a == b || Before(a, b) || Before(b, a)
  {
  }

  lemma OrderedTail(es: seq<Entry>)
    requires Ordered(es) && es != []
    ensures Ordered(es[1..]) && es[0] !in es[1..] && SetOf(es[1..]) == SetOf(es) - {es[0]}
  {
    assert forall i :: 0 <= i < |es[1..]| ==> es[1..][i] == es[i + 1] && Before(es[0], es[i + 1]);
    forall e | e in SetOf(es) - {es[0]} ensures e in SetOf(es[1..]) {
      var i :| 0 <= i < |es| && es[i] == e;
      assert es[1..][i - 1] == e;
    }
  }

  /** A set of entries has one order, so the order in which devices were visited does not matter. */
  lemma {:induction false} OrderUnique(a: seq<Entry>, b: seq<Entry>)
    requires Ordered(a) && Ordered(b) && SetOf(a) == SetOf(b)
    ensures a == b
    decreases |a|
  {
    if a == [] {
      if b != [] {
        SomethingIn(b);
      }
    } else {
      assert a[0] in SetOf(b);
      assert b != [];
      assert b[0] in SetOf(a);
      SameHead(a, b);
      OrderedTail(a);
      OrderedTail(b);
      OrderUnique(a[1..], b[1..]);
      assert a == [a[0]] + a[1..] && b == [b[0]] + b[1..];
    }
  }

  lemma SameHead(a: seq<Entry>, b: seq<Entry>)
    requires Ordered(a) && Ordered(b) && SetOf(a) == SetOf(b) && a != [] && b != []
    ensures a[0] == b[0]
  {
    assert a[0] in SetOf(b) && b[0] in SetOf(a);
    var i :| 0 <= i < |b| && b[i] == a[0];
    var j :| 0 <= j < |a| && a[j] == b[0];
    Heads(a, b, i, j);
  }

  lemma Heads(a: seq<Entry>, b: seq<Entry>, i: nat, j: nat)
    requires Ordered(a) && Ordered(b) && i < |b| && j < |a| && b[i] == a[0] && a[j] == b[0]
    ensures i == 0 || j == 0
  {
  }

  lemma SomethingIn(b: seq<Entry>)
    requires b != []
    ensures SetOf(b) != {}
  {
    assert b[0] in SetOf(b);
  }
}
