/**
 The outer loop of the private marking in laps: it goes up through the region list, and only a region that
 ends at 2^64 takes it back to address zero. A second lap that comes back as well is repeated for ever.
 */
module PrivateLaps {
  import opened Bytes
  import opened Wrappers
  import opened SlotIndex
  import opened MemoryMap
  import opened PrivateMemory

  /** What a lap has marked, and whether it ends by going back to zero. */
  datatype Lap = Lap(marks: seq<Piece>, back: bool)

  lemma TurnAdvances(regions: seq<Slot<Region>>, start: nat, end: nat)
    requires Sorted(regions)
    ensures var t := OneTurn(regions, start, end); t.next.Some? && t.next.value != 0 ==> start < t.next.value < end
  {
    hide Sorted, SearchNext, WalkRanges;
    SearchNextRefines(regions, start);
    if SearchNext(regions, start).Some? {
      var s := SearchNext(regions, start).value;
      InList(regions, s);
    }
  }

  lemma InList(regions: seq<Slot<Region>>, s: Slot<Region>)
    requires Sorted(regions) && s in SetOf(regions)
    ensures s.addr + s.size <= U64_SPAN
  {
    var i :| 0 <= i < |regions| && regions[i] == s;
    assert SlotIndex.Fits(regions[i]);
  }

  function Round(regions: seq<Slot<Region>>, start: nat, end: nat): Lap
    requires Sorted(regions)
    decreases if start < end then end - start else 0
  {
    var t := OneTurn(regions, start, end);
    if t.next == None then Lap(t.marks, false)
    else if t.next.value == 0 then Lap(t.marks, true)
    else
      TurnAdvances(regions, start, end);
      var rest := Round(regions, t.next.value, end);
      Lap(t.marks + rest.marks, rest.back)
  }

  /** `n` turns and then `m` more. */
  lemma {:induction false} TurnsAdd(regions: seq<Slot<Region>>, start: nat, end: nat, n: nat, m: nat)
    requires Sorted(regions)
    ensures var t := Turns(regions, start, end, n);
            Turns(regions, start, end, n + m)
            == if t.next == None then t else After(t.marks, Turns(regions, t.next.value, end, m))
    decreases n
  {
    hide Sorted, OneTurn;
    if n == 0 {
      assert [] + Turns(regions, start, end, m).marks == Turns(regions, start, end, m).marks;
    } else {
      var t := OneTurn(regions, start, end);
      if t.next.Some? {
        TurnsAdd(regions, t.next.value, end, n - 1, m);
        var u := Turns(regions, t.next.value, end, n - 1);
        if u.next.Some? {
          var v := Turns(regions, u.next.value, end, m);
          assert t.marks + (u.marks + v.marks) == (t.marks + u.marks) + v.marks;
        }
      }
    }
  }

  /** A lap is a number of turns. */
  lemma {:induction false} RoundTurns(regions: seq<Slot<Region>>, start: nat, end: nat) returns (n: nat)
    requires Sorted(regions)
    ensures var lap := Round(regions, start, end);
            n > 0 && Turns(regions, start, end, n) == Turn(lap.marks, if lap.back then Some(0) else None)
    decreases if start < end then end - start else 0
  {
    hide Sorted, OneTurn;
    var t := OneTurn(regions, start, end);
    if t.next == None {
      n := 1;
    } else if t.next.value == 0 {
      n := 1;
      assert Turns(regions, 0, end, 0) == Turn([], Some(0));
      assert t.marks + [] == t.marks;
    } else {
      TurnAdvances(regions, start, end);
      n := RoundTurns(regions, t.next.value, end);
      n := n + 1;
    }
  }

  /** Once ended, the loop stays ended. */
  lemma EndedStays(regions: seq<Slot<Region>>, start: nat, end: nat, n: nat, m: nat)
    requires Sorted(regions) && n <= m && Turns(regions, start, end, n).next == None
    ensures Turns(regions, start, end, m) == Turns(regions, start, end, n)
  {
    hide Sorted, Turns;
    TurnsAdd(regions, start, end, n, m - n);
  }

  /** Turns that lead from zero to zero lead nowhere else. */
  lemma {:induction false} NeverEnds(regions: seq<Slot<Region>>, end: nat, k: nat, n: nat)
    requires Sorted(regions) && k > 0 && Turns(regions, 0, end, k).next == Some(0)
    ensures Turns(regions, 0, end, n).next.Some?
    decreases n
  {
    hide Sorted, Turns;
    if n < k {
      if Turns(regions, 0, end, n).next == None {
        EndedStays(regions, 0, end, n, k);
      }
    } else {
      TurnsAdd(regions, 0, end, k, n - k);
      NeverEnds(regions, end, k, n - k);
    }
  }

  /** What the loop marks if it ends. */
  function Outcome(regions: seq<Slot<Region>>, start: nat, end: nat): Option<seq<Piece>>
    requires Sorted(regions)
  {
    var first, second := Round(regions, start, end), Round(regions, 0, end);
    if !first.back then Some(first.marks) else if !second.back then Some(first.marks + second.marks) else None
  }

  /** The loop ends if and only if one of two laps does not come back, and then it has marked what they mark. */
  lemma OutcomeIs(regions: seq<Slot<Region>>, start: nat, end: nat, marks: seq<Piece>)
    requires Sorted(regions)
    ensures Ends(regions, start, end, marks) <==> Outcome(regions, start, end) == Some(marks)
  {
    hide Sorted, Turns, Round;
    var first, second := Round(regions, start, end), Round(regions, 0, end);
    var n := RoundTurns(regions, start, end);
    var m := RoundTurns(regions, 0, end);
    TurnsAdd(regions, start, end, n, m);
    if first.back && second.back {
      forall k ensures Turns(regions, start, end, k).next.Some? {
        LoopsOn(regions, start, end, n, m, k);
      }
    } else {
      var total := if first.back then n + m else n;
      forall k | Turns(regions, start, end, k) == Turn(marks, None)
        ensures Outcome(regions, start, end) == Some(marks)
      {
        if k <= total {
          EndedStays(regions, start, end, k, total);
        } else {
          EndedStays(regions, start, end, total, k);
        }
      }
    }
  }

  lemma LoopsOn(regions: seq<Slot<Region>>, start: nat, end: nat, n: nat, m: nat, k: nat)
    requires Sorted(regions) && m > 0
    requires Turns(regions, start, end, n).next == Some(0) && Turns(regions, 0, end, m).next == Some(0)
    ensures Turns(regions, start, end, k).next.Some?
  {
    hide Sorted, Turns;
    if k < n {
      if Turns(regions, start, end, k).next == None {
        EndedStays(regions, start, end, k, n);
      }
    } else {
      TurnsAdd(regions, start, end, n, k - n);
      NeverEnds(regions, end, m, k - n);
    }
  }
}
