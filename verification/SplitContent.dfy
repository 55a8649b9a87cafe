/**
 What a split ring's three areas hold, and which of it survives each kind of write.
 */
module SplitContent {
  import opened Wrappers
  import opened RingIndex
  import opened QueueSpec
  import opened Rings
  import opened QueueMachine

  /** The first `upto` descriptors of a chain are in the table as they were written. */
  ghost predicate TableHolds(table: seq<SplitDesc>, chain: Chain, upto: nat)
    requires |chain.bufs| == |chain.path|
  {
    forall j :: 0 <= j < |chain.path| && j < upto ==>
      chain.path[j] < |table| && table[chain.path[j]] == SplitEntry(chain, j)
  }

  ghost predicate Entered(table: seq<SplitDesc>, availRing: seq<nat>, chain: Chain, i: nat)
    requires |availRing| > 0
  {
    && |chain.bufs| == |chain.path|
    && availRing[Off(i, |availRing|)] == chain.id
    && TableHolds(table, chain, |chain.path|)
  }

  /** Chains not yet taken are in the ring and the table as they were written. */
  ghost predicate Untaken(table: seq<SplitDesc>, availRing: seq<nat>, posted: seq<Chain>, first: nat)
    requires |availRing| > 0
  {
    forall i: nat :: first <= i < |posted| ==> Entered(table, availRing, posted[i], i)
  }

  /** Returned chains the driver has not read are where it will look for them. */
  ghost predicate Backed(usedRing: seq<UsedElem>, t: Tape)
    requires |usedRing| > 0 && Known(t.posted, t.returned) && |t.lens| == |t.returned|
  {
    forall k: nat :: t.reclaimed <= k < |t.returned| ==> usedRing[Off(k, |usedRing|)] == BackElem(t, k)
  }

  // ------------------------------------------------------------------ reading

  lemma SplitStep(table: seq<SplitDesc>, id: nat, fuel: nat)
    requires fuel > 0 && id < |table|
    ensures var d := table[id];
            var buf := Buf(d.addr, d.len, d.flag.write, d.flag.indirect);
            SplitWalk(table, id, fuel)
            == if !d.flag.next then Some(([buf], [id]))
               else
                 var rest := SplitWalk(table, d.next, fuel - 1);
                 if rest.Some? then Some(([buf] + rest.value.0, [id] + rest.value.1)) else None
  {
  }

  lemma EntryFields(table: seq<SplitDesc>, chain: Chain, j: nat)
    requires |chain.bufs| == |chain.path| && TableHolds(table, chain, |chain.path|) && j < |chain.path|
    ensures chain.path[j] < |table|
    ensures var d := table[chain.path[j]];
            && Buf(d.addr, d.len, d.flag.write, d.flag.indirect) == chain.bufs[j]
                && (d.flag.next <==> j + 1 < |chain.path|)
            && (d.flag.next ==> d.next == chain.path[j + 1])
  {
    assert table[chain.path[j]] == SplitEntry(chain, j);
  }

  lemma Unsliced<T>(s: seq<T>, j: nat)
    requires j < |s|
    ensures s[j..] == [s[j]] + s[j + 1..] && (j + 1 == |s| ==> s[j..] == [s[j]])
  {
  }

  lemma {:induction false} WalkFinds(table: seq<SplitDesc>, chain: Chain, j: nat, fuel: nat)
    requires |chain.bufs| == |chain.path| && TableHolds(table, chain, |chain.path|) && j < |chain.path| <= fuel + j
    ensures SplitWalk(table, chain.path[j], fuel) == Some((chain.bufs[j..], chain.path[j..]))
    decreases fuel
  {
    hide TableHolds, SplitWalk;
    EntryFields(table, chain, j);
    SplitStep(table, chain.path[j], fuel);
    Unsliced(chain.bufs, j);
    Unsliced(chain.path, j);
    if j + 1 < |chain.path| {
      WalkFinds(table, chain, j + 1, fuel - 1);
    }
  }

  // ------------------------------------------------------------------ writing

  lemma EntryKept<T>(ring: seq<T>, w: nat, v: T, q: nat)
    requires |ring| > 0 && q != w && q < w + |ring| && w < q + |ring|
    ensures ring[Off(w, |ring|) := v][Off(q, |ring|)] == ring[Off(q, |ring|)]
  {
    if q < w { SlotsDistinct(q, w, |ring|); } else { SlotsDistinct(w, q, |ring|); }
  }

  /** Writing the next avail entry disturbs no entry still to be taken. */
  lemma UntakenKeptRing(table: seq<SplitDesc>, availRing: seq<nat>, posted: seq<Chain>, first: nat, id: nat)
    requires |availRing| > 0 && Untaken(table, availRing, posted, first) && |posted| < first + |availRing|
    ensures Untaken(table, availRing[Off(|posted|, |availRing|) := id], posted, first)
  {
    var after := availRing[Off(|posted|, |availRing|) := id];
    forall i: nat | first <= i < |posted|
      ensures Entered(table, after, posted[i], i)
    {
      assert Entered(table, availRing, posted[i], i);
      EntryKept(availRing, |posted|, id, i);
    }
  }

  /** Writing a descriptor no untaken chain uses disturbs none of them. */
  lemma UntakenKeptTable(table: seq<SplitDesc>, availRing: seq<nat>, posted: seq<Chain>, first: nat, s: nat,
      d: SplitDesc)
    requires |availRing| > 0 && Untaken(table, availRing, posted, first) && s < |table|
    requires forall i :: first <= i < |posted| ==> s !in posted[i].path
    ensures Untaken(table[s := d], availRing, posted, first)
  {
    forall i: nat | first <= i < |posted|
      ensures Entered(table[s := d], availRing, posted[i], i)
    {
      assert Entered(table, availRing, posted[i], i);
    }
  }

  lemma BackedKept(usedRing: seq<UsedElem>, t: Tape, e: UsedElem)
    requires |usedRing| > 0 && Known(t.posted, t.returned) && |t.lens| == |t.returned| && Backed(usedRing, t)
    requires |t.returned| < t.reclaimed + |usedRing|
    ensures Backed(usedRing[Off(|t.returned|, |usedRing|) := e], t)
  {
    var after := usedRing[Off(|t.returned|, |usedRing|) := e];
    forall k: nat | t.reclaimed <= k < |t.returned|
      ensures after[Off(k, |usedRing|)] == BackElem(t, k)
    {
      EntryKept(usedRing, |t.returned|, e, k);
    }
  }

  lemma UntakenGrows(table: seq<SplitDesc>, availRing: seq<nat>, posted: seq<Chain>, chain: Chain, first: nat)
    requires |availRing| > 0 && Untaken(table, availRing, posted, first) && Entered(table, availRing, chain, |posted|)
    ensures Untaken(table, availRing, posted + [chain], first)
  {
    var all := posted + [chain];
    forall i: nat | first <= i < |all|
      ensures Entered(table, availRing, all[i], i)
    {
      if i < |posted| { assert Entered(table, availRing, posted[i], i); }
    }
  }

  lemma BackedPosted(usedRing: seq<UsedElem>, t: Tape, chain: Chain)
    requires |usedRing| > 0 && Known(t.posted, t.returned) && |t.lens| == |t.returned| && Backed(usedRing, t)
    ensures Known(t.posted + [chain], t.returned) && Backed(usedRing, t.(posted := t.posted + [chain]))
  {
  }

  lemma BackedGrows(usedRing: seq<UsedElem>, t: Tape, i: nat, len: nat)
    requires |usedRing| > 0 && Known(t.posted, t.returned) && |t.lens| == |t.returned| && Backed(usedRing, t)
             && i < |t.fates| && i < |t.posted|
    requires usedRing[Off(|t.returned|, |usedRing|)] == UsedElem(t.posted[i].id, len)
    ensures Known(t.posted, Return(t, i, len).returned) && Backed(usedRing, Return(t, i, len))
  {
    hide Off;
    var v := Return(t, i, len);
    KnownGrows(t.posted, t.returned, i);
    forall k: nat | v.reclaimed <= k < |v.returned|
      ensures usedRing[Off(k, |usedRing|)] == BackElem(v, k)
    {
      ElemGrows(t, i, len, k);
    }
  }

  lemma KnownGrows(posted: seq<Chain>, returned: seq<nat>, i: nat)
    requires Known(posted, returned) && i < |posted|
    ensures Known(posted, returned + [i])
  {
  }

  lemma ElemGrows(t: Tape, i: nat, len: nat, k: nat)
    requires |t.lens| == |t.returned| && k <= |t.returned| && i < |t.fates| && i < |t.posted|
    requires k < |t.returned| ==> t.returned[k] < |t.posted|
    ensures var v := Return(t, i, len);
            && |v.lens| == |v.returned| == |t.returned| + 1 && v.returned[k] < |v.posted|
            && BackElem(v, k) == if k < |t.returned| then BackElem(t, k) else UsedElem(t.posted[i].id, len)
  {
  }

  // -------------------------------------------------- one slot per chain: counts are positions

  ghost predicate Unit(posted: seq<Chain>) {
    forall i :: 0 <= i < |posted| ==> posted[i].delta == 1
  }

  lemma {:induction false} UnitSlots(posted: seq<Chain>)
    requires Unit(posted)
    ensures Slots(posted) == |posted|
    decreases |posted|
  {
    if posted != [] { UnitSlots(posted[..|posted| - 1]); }
  }

  lemma {:induction false} UnitBack(posted: seq<Chain>, returned: seq<nat>)
    requires Unit(posted) && Known(posted, returned)
    ensures SlotsBack(posted, returned) == |returned|
    decreases |returned|
  {
    if returned != [] { UnitBack(posted, returned[..|returned| - 1]); }
  }
}
