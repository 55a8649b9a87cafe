/** A segment's functions, and the boot-time assignment of addresses to their base address registers. */
module PciSegment {
  import opened Bytes
  import opened Powers
  import opened PciBars
  import opened PciBarRuns
  import opened PciNumbers
  import opened PciWindows

  const BAR_PREFETCHABLE: bv32 := 0x8

  /** Windows, in order: ports, 32-bit memory, 32-bit prefetchable memory, 64-bit prefetchable memory. */
  const WINDOWS: nat := 4

  predicate Prefetchable(bar: bv32) {
    bar & BAR_PREFETCHABLE == BAR_PREFETCHABLE
  }

  /** Which window a register goes to. */
  function WindowOf(bar: bv32): nat {
    if IsIo(bar) then 0 else if Is64(bar) then 3 else if Prefetchable(bar) then 2 else 1
  }

  /** The mask of register `i`, joined with the next one for what looks like a 64-bit register. The program reads the
      next mask unchecked and panics in the last place, see `Refuses`. */
  function MaskAt(f: Function, i: nat): bv64
    requires Shaped(f) && i < BARS
  {
    Join(f.masks[i], if Is64(f.bars[i]) && i + 1 < BARS then f.masks[i + 1] else 0)
  }

  function LogAt(f: Function, i: nat): nat
    requires Shaped(f) && i < BARS
  {
    TrailingZeros(MaskAt(f, i), 64)
  }

  /** The registers of one function for window `c`, from `i` on; the upper half of a 64-bit register is passed over. */
  function EntriesFrom(bdf: nat, f: Function, i: nat, c: nat): seq<Entry>
    requires Shaped(f)
    decreases BARS - i
  {
    if i >= BARS then [] else EntryAt(bdf, f, i, c) + EntriesFrom(bdf, f, After(f, i), c)
  }

  /** Register `i` if it wants an address in window `c`. */
  function EntryAt(bdf: nat, f: Function, i: nat, c: nat): seq<Entry>
    requires Shaped(f) && i < BARS
  {
    if MaskAt(f, i) == 0 || WindowOf(f.bars[i]) != c then [] else [Entry(bdf, i, LogAt(f, i))]
  }

  function After(f: Function, i: nat): (j: nat)
    requires Shaped(f) && i < BARS
    ensures j > i
  {
    if Is64(f.bars[i]) then i + 2 else i + 1
  }

  /** The registers that the allocator looks at, from `i` on. */
  function Visited(f: Function, i: nat): set<nat>
    requires Shaped(f)
    decreases BARS - i
  {
    if i >= BARS then {} else {i} + Visited(f, After(f, i))
  }

  lemma {:induction false} VisitedFrom(f: Function, i: nat)
    requires Shaped(f)
    ensures forall j :: j in Visited(f, i) ==> i <= j < BARS
    decreases BARS - i
  {
    if i < BARS {
      VisitedFrom(f, After(f, i));
    }
  }

  type Devices = map<nat, Function>

  // --------------------------------------------------------------------- by type bits

  /** The registers that window `c` is for, by their low bits: ports, 32-bit memory, 32-bit prefetchable memory, 64-bit
      prefetchable memory; sections 6.2.5.1 of PCI Local Bus 3.0 and the order in which the windows are given. */
  predicate ForType(bar: bv32, c: nat) {
    match c
    case 0 => bar & 0x1 == 0x1
    case 1 => bar & 0xD == 0x0
    case 2 => bar & 0xD == 0x8
    case 3 => bar & 0xD == 0xC
    case _ => false
  }

  lemma WindowBits(bar: bv32, c: nat)
    requires c < WINDOWS && (IsIo(bar) || !Is64(bar) || Prefetchable(bar))
    ensures WindowOf(bar) == c <==> ForType(bar, c)
  {
  }

  /** Register `i` of function `bdf` is on the list of the window that its type bits name, with its size, and on no
      other. */
  ghost predicate OnItsList(bdf: nat, f: Function, i: nat, lists: seq<seq<Entry>>)
    requires Shaped(f) && i < BARS && |lists| == WINDOWS
  {
    forall c :: 0 <= c < WINDOWS ==> (Entry(bdf, i, LogAt(f, i)) in lists[c] <==> ForType(f.bars[i], c))
  }

  /** Each list of one function's registers holds those of its type that are looked at and have a mask. */
  lemma {:induction false} EntriesTyped(bdf: nat, f: Function, i: nat, c: nat, e: Entry)
    requires Shaped(f) && Sound(f, i) && c < WINDOWS
    ensures e in EntriesFrom(bdf, f, i, c)
            <==> e.bdf == bdf && e.index in Visited(f, i) && e.index < BARS && MaskAt(f, e.index) != 0
                 && e.log == LogAt(f, e.index) && ForType(f.bars[e.index], c)
    decreases BARS - i
  {
    hide Is64, IsIo, Prefetchable, MaskAt, LogAt, WindowOf, ForType;
    if i < BARS {
      EntriesTyped(bdf, f, After(f, i), c, e);
      VisitedFrom(f, After(f, i));
      if MaskAt(f, i) != 0 { WindowBits(f.bars[i], c); }
    }
  }

  ghost predicate DevicesShaped(devices: Devices) {
    forall b :: b in devices ==> Shaped(devices[b])
  }

  /** Every register for window `c`. */
  ghost function ForWindow(devices: Devices, c: nat): set<Entry>
    requires DevicesShaped(devices)
  {
    set b, e | b in devices && e in EntriesFrom(b, devices[b], 0, c) :: e
  }

  // ------------------------------------------------------------------------- sorting

  function InsertEntry(es: seq<Entry>, e: Entry): seq<Entry> {
    if es == [] || Before(e, es[0]) then [e] + es else [es[0]] + InsertEntry(es[1..], e)
  }

  function Sort(es: seq<Entry>): seq<Entry> {
    if es == [] then [] else InsertEntry(Sort(es[..|es| - 1]), es[|es| - 1])
  }

  ghost predicate NoDup(es: seq<Entry>) {
    forall i, j :: 0 <= i < j < |es| ==> es[i] != es[j]
  }

  lemma {:induction false} InsertOrdered(es: seq<Entry>, e: Entry)
    requires Ordered(es) && e !in es
    ensures Ordered(InsertEntry(es, e)) && SetOf(InsertEntry(es, e)) == SetOf(es) + {e}
    decreases |es|
  {
    if es == [] || Before(e, es[0]) {
      ConsOrdered(e, es);
    } else {
      OrderedTail(es);
      InsertOrdered(es[1..], e);
      OrderTotal(e, es[0]);
      var r := InsertEntry(es[1..], e);
      forall x | x in r ensures Before(es[0], x) {
        assert x in SetOf(r);
        if x != e {
          var k :| 0 <= k < |es[1..]| && es[1..][k] == x;
          assert es[k + 1] == x;
        }
      }
      ConsBefore(es[0], r);
    }
  }

  lemma ConsOrdered(e: Entry, es: seq<Entry>)
    requires Ordered(es) && (es != [] ==> Before(e, es[0]))
    ensures Ordered([e] + es) && SetOf([e] + es) == SetOf(es) + {e}
  {
    forall x | x in es ensures Before(e, x) {
      var k :| 0 <= k < |es| && es[k] == x;
      assert k > 0 ==> Before(es[0], es[k]);
    }
    ConsBefore(e, es);
  }

  lemma ConsBefore(e: Entry, es: seq<Entry>)
    requires Ordered(es) && forall x :: x in es ==> Before(e, x)
    ensures Ordered([e] + es) && SetOf([e] + es) == SetOf(es) + {e}
  {
    var r := [e] + es;
    assert forall i :: 0 < i < |r| ==> r[i] == es[i - 1] && r[i] in es;
  }

  lemma {:induction false} SortOrdered(es: seq<Entry>)
    requires NoDup(es)
    ensures Ordered(Sort(es)) && SetOf(Sort(es)) == SetOf(es)
    decreases |es|
  {
    if es != [] {
      var n := |es| - 1;
      SortOrdered(es[..n]);
      assert es[n] !in SetOf(es[..n]);
      assert es[n] !in SetOf(Sort(es[..n]));
      InsertOrdered(Sort(es[..n]), es[n]);
      assert es == es[..n] + [es[n]];
    }
  }

  // -------------------------------------------------------------------------- writing

  /** The registers after the placements `ps`, one after another. */
  function Written(devices: Devices, ps: seq<Placement>): (r: Devices)
    requires DevicesShaped(devices) && forall i :: 0 <= i < |ps| ==> ps[i].e.bdf in devices && ps[i].e.index < BARS
    ensures DevicesShaped(r) && r.Keys == devices.Keys
    decreases |ps|
  {
    if ps == [] then devices
    else
      var n := |ps| - 1;
      var d, p := Written(devices, ps[..n]), ps[n];
      AssignOutside(d[p.e.bdf], p.e.index, Halves(p.addr));
      d[p.e.bdf := Assign(d[p.e.bdf], p.e.index, Halves(p.addr))]
  }

  /** The placements of the first `c` windows. */
  function Placed(lists: seq<seq<Entry>>, windows: seq<(nat, nat)>, c: nat): seq<Placement>
    requires |lists| == WINDOWS && |windows| == WINDOWS && c <= WINDOWS
  {
    if c == 0 then [] else Placed(lists, windows, c - 1) + Place(lists[c - 1], windows[c - 1].0, windows[c - 1].1)
  }

  ghost predicate Located(devices: Devices, es: seq<Entry>) {
    forall i :: 0 <= i < |es| ==> es[i].bdf in devices && es[i].index < BARS
  }

  /** Ordered lists of every register that wants an address. */
  ghost predicate Listed(devices: Devices, lists: seq<seq<Entry>>)
    requires DevicesShaped(devices)
  {
    |lists| == WINDOWS && forall c :: 0 <= c < WINDOWS ==> Ordered(lists[c]) && SetOf(lists[c]) == ForWindow(devices, c)
  }

  /** The lists, and with them the placements, follow from the functions alone. */
  lemma ListsUnique(devices: Devices, a: seq<seq<Entry>>, b: seq<seq<Entry>>)
    requires DevicesShaped(devices) && Listed(devices, a) && Listed(devices, b)
    ensures a == b
  {
    forall c | 0 <= c < WINDOWS ensures a[c] == b[c] {
      OrderUnique(a[c], b[c]);
    }
  }

  lemma {:induction false} EntriesKnown(bdf: nat, f: Function, i: nat, c: nat)
    requires Shaped(f)
    ensures forall k :: 0 <= k < |EntriesFrom(bdf, f, i, c)| ==>
              var e := EntriesFrom(bdf, f, i, c)[k]; e.bdf == bdf && i <= e.index < BARS
    decreases BARS - i
  {
    if i < BARS {
      EntriesKnown(bdf, f, After(f, i), c);
    }
  }

  lemma WantedKnown(devices: Devices, es: seq<Entry>, c: nat)
    requires DevicesShaped(devices) && SetOf(es) == ForWindow(devices, c)
    ensures Located(devices, es)
  {
    forall i | 0 <= i < |es| ensures es[i].bdf in devices && es[i].index < BARS {
      assert es[i] in SetOf(es);
      var b :| b in devices && es[i] in EntriesFrom(b, devices[b], 0, c);
      EntriesKnown(b, devices[b], 0, c);
    }
  }

  lemma PlaceKnown(devices: Devices, es: seq<Entry>, addr: nat, end: nat)
    requires Located(devices, es)
    ensures var ps := Place(es, addr, end); forall i :: 0 <= i < |ps| ==> ps[i].e.bdf in devices && ps[i].e.index < BARS
  {
    hide Place;
    PlaceFromList(es, addr, end);
    var ps := Place(es, addr, end);
    forall i | 0 <= i < |ps| ensures ps[i].e.bdf in devices && ps[i].e.index < BARS {
      assert ps[i].e in es;
      var k :| 0 <= k < |es| && es[k] == ps[i].e;
    }
  }

  /** Every register that is looked at and has a mask is on the list of its type. */
  ghost predicate ByType(devices: Devices, lists: seq<seq<Entry>>)
    requires DevicesShaped(devices) && |lists| == WINDOWS
  {
    forall b, i :: b in devices && i in Visited(devices[b], 0) && i < BARS && MaskAt(devices[b], i) != 0 ==>
      OnItsList(b, devices[b], i, lists)
  }

  lemma ListsByType(devices: Devices, lists: seq<seq<Entry>>)
    requires DevicesShaped(devices) && Supported(devices) && |lists| == WINDOWS
    requires forall c :: 0 <= c < WINDOWS ==> SetOf(lists[c]) == ForWindow(devices, c)
    ensures ByType(devices, lists)
  {
    hide Sound, EntriesFrom, Visited, MaskAt, LogAt, ForType;
    forall b, i | b in devices && i in Visited(devices[b], 0) && i < BARS && MaskAt(devices[b], i) != 0
      ensures OnItsList(b, devices[b], i, lists)
    {
      var e := Entry(b, i, LogAt(devices[b], i));
      forall c | 0 <= c < WINDOWS ensures e in lists[c] <==> ForType(devices[b].bars[i], c) {
        assert e in lists[c] <==> e in SetOf(lists[c]);
        EntriesTyped(b, devices[b], 0, c, e);
        if e in ForWindow(devices, c) {
          var b2 :| b2 in devices && e in EntriesFrom(b2, devices[b2], 0, c);
          EntriesTyped(b2, devices[b2], 0, c, e);
        }
      }
    }
  }

  // ------------------------------------------------------------------------- the object

  /** The registers for window `c` of the functions in `keys`. */
  ghost function ForWindowOf(devices: Devices, keys: set<nat>, c: nat): set<Entry>
    requires DevicesShaped(devices)
  {
    set b, e | b in keys && b in devices && e in EntriesFrom(b, devices[b], 0, c) :: e
  }

  lemma {:induction false} EntriesApart(bdf: nat, f: Function, i: nat, c: nat)
    requires Shaped(f)
    ensures NoDup(EntriesFrom(bdf, f, i, c))
    decreases BARS - i
  {
    if i < BARS {
      EntriesApart(bdf, f, After(f, i), c);
      EntriesKnown(bdf, f, After(f, i), c);
    }
  }

  lemma OneMoreDevice(devices: Devices, keys: set<nat>, bdf: nat, c: nat, es: seq<Entry>)
    requires DevicesShaped(devices) && bdf in devices && bdf !in keys
    requires NoDup(es) && SetOf(es) == ForWindowOf(devices, keys, c)
    ensures var all := es + EntriesFrom(bdf, devices[bdf], 0, c);
            NoDup(all) && SetOf(all) == ForWindowOf(devices, keys + {bdf}, c)
  {
    hide EntriesFrom;
    var more := EntriesFrom(bdf, devices[bdf], 0, c);
    EntriesApart(bdf, devices[bdf], 0, c);
    EntriesKnown(bdf, devices[bdf], 0, c);
    forall i | 0 <= i < |es| ensures es[i].bdf != bdf {
      assert es[i] in SetOf(es);
      var b :| b in keys && b in devices && es[i] in EntriesFrom(b, devices[b], 0, c);
      EntriesKnown(b, devices[b], 0, c);
    }
    var all := es + more;
    forall e | e in SetOf(all) ensures e in ForWindowOf(devices, keys + {bdf}, c) {
      assert e in SetOf(es) || e in more;
    }
    forall e | e in ForWindowOf(devices, keys + {bdf}, c) ensures e in SetOf(all) {
      var b :| b in keys + {bdf} && b in devices && e in EntriesFrom(b, devices[b], 0, c);
      assert b != bdf ==> e in ForWindowOf(devices, keys, c);
    }
  }

  /** The lists hold the registers of the functions in `keys`, each once. */
  ghost predicate Collected(devices: Devices, keys: set<nat>, lists: seq<seq<Entry>>)
    requires DevicesShaped(devices) && |lists| == WINDOWS
  {
    forall c :: 0 <= c < WINDOWS ==> NoDup(lists[c]) && SetOf(lists[c]) == ForWindowOf(devices, keys, c)
  }

  lemma AllMoreDevice(devices: Devices, keys: set<nat>, bdf: nat, before: seq<seq<Entry>>, after: seq<seq<Entry>>)
    requires DevicesShaped(devices) && bdf in devices && bdf !in keys && |before| == |after| == WINDOWS
    requires Collected(devices, keys, before)
    requires forall c :: 0 <= c < WINDOWS ==> after[c] == before[c] + EntriesFrom(bdf, devices[bdf], 0, c)
    ensures Collected(devices, keys + {bdf}, after)
  {
    hide EntriesFrom, NoDup, ForWindowOf, SetOf;
    forall c | 0 <= c < WINDOWS ensures NoDup(after[c]) && SetOf(after[c]) == ForWindowOf(devices, keys + {bdf}, c) {
      OneMoreDevice(devices, keys, bdf, c, before[c]);
    }
  }

  lemma NoneCollected(devices: Devices, lists: seq<seq<Entry>>)
    requires DevicesShaped(devices) && lists == [[], [], [], []]
    ensures Collected(devices, devices.Keys - devices.Keys, lists)
  {
    hide NoDup, ForWindowOf, SetOf;
    forall c | 0 <= c < WINDOWS
      ensures NoDup(lists[c]) && SetOf(lists[c]) == ForWindowOf(devices, devices.Keys - devices.Keys, c)
    {
      assert lists[c] == [];
      NothingYet(devices, c);
    }
  }

  lemma AllCollected(devices: Devices, lists: seq<seq<Entry>>)
    requires DevicesShaped(devices) && |lists| == WINDOWS && Collected(devices, devices.Keys, lists)
    ensures forall c :: 0 <= c < WINDOWS ==> NoDup(lists[c]) && SetOf(lists[c]) == ForWindow(devices, c)
  {
    hide NoDup, ForWindowOf, SetOf, ForWindow;
    forall c | 0 <= c < WINDOWS ensures NoDup(lists[c]) && SetOf(lists[c]) == ForWindow(devices, c) {
      AllWanted(devices, c);
    }
  }

  lemma AllWanted(devices: Devices, c: nat)
    requires DevicesShaped(devices)
    ensures ForWindowOf(devices, devices.Keys, c) == ForWindow(devices, c)
  {
  }

  /** The program panics on register `i`: it looks like a 64-bit one in the last place, or it is a 64-bit memory
      register that wants an address and is not prefetchable. */
  predicate Refuses(f: Function, i: nat)
    requires Shaped(f) && i < BARS
  {
    Overruns(f, i) || (MaskAt(f, i) != 0 && !IsIo(f.bars[i]) && Is64(f.bars[i]) && !Prefetchable(f.bars[i]))
  }

  /** It panics on none of the registers that it comes to from `i` on. */
  predicate Sound(f: Function, i: nat)
    requires Shaped(f)
    decreases BARS - i
  {
    i >= BARS || (!Refuses(f, i) && Sound(f, After(f, i)))
  }

  ghost predicate Supported(devices: Devices)
    requires DevicesShaped(devices)
  {
    forall b :: b in devices ==> Sound(devices[b], 0)
  }

  /** It panics when it gives the last register an address with an upper half. */
  predicate Exceeds(p: Placement) {
    p.e.index == BARS - 1 && p.addr >= 0x1_0000_0000
  }

  ghost predicate Within(ps: seq<Placement>) {
    forall i :: 0 <= i < |ps| ==> !Exceeds(ps[i])
  }

  /** The registers from `i` on would complete the list `es`, which was `first` before this function. */
  ghost predicate Pending(bdf: nat, f: Function, i: nat, c: nat, es: seq<Entry>, first: seq<Entry>)
    requires Shaped(f)
  {
    es + EntriesFrom(bdf, f, i, c) == first + EntriesFrom(bdf, f, 0, c)
  }

  lemma EntryStep(bdf: nat, f: Function, i: nat, c: nat, mask: bv64)
    requires Shaped(f) && i < BARS && mask == MaskAt(f, i)
    ensures EntryAt(bdf, f, i, c)
            == if mask == 0 || WindowOf(f.bars[i]) != c then [] else [Entry(bdf, i, TrailingZeros(mask, 64))]
  {
    hide Is64, IsIo, Prefetchable, Join, TrailingZeros;
  }

  lemma ListTurn(bdf: nat, f: Function, i: nat, c: nat, es: seq<Entry>, first: seq<Entry>)
    requires Shaped(f) && i < BARS && Pending(bdf, f, i, c, es, first)
    ensures Pending(bdf, f, After(f, i), c, es + EntryAt(bdf, f, i, c), first)
  {
    hide EntryAt, After;
    var one, rest := EntryAt(bdf, f, i, c), EntriesFrom(bdf, f, After(f, i), c);
    assert es + (one + rest) == (es + one) + rest;
  }

  lemma ListDone(bdf: nat, f: Function, i: nat, c: nat, es: seq<Entry>, first: seq<Entry>)
    requires Shaped(f) && i >= BARS && Pending(bdf, f, i, c, es, first)
    ensures es == first + EntriesFrom(bdf, f, 0, c)
  {
    assert EntriesFrom(bdf, f, i, c) == [];
  }

  lemma AllOnList(bdf: nat, f: Function, before: seq<seq<Entry>>, lists: seq<seq<Entry>>)
    requires Shaped(f) && Sound(f, 0) && |before| == |lists| == WINDOWS
    requires forall c :: 0 <= c < WINDOWS ==> lists[c] == before[c] + EntriesFrom(bdf, f, 0, c)
    ensures before == [[], [], [], []] ==>
              forall i :: i in Visited(f, 0) && i < BARS && MaskAt(f, i) != 0 ==> OnItsList(bdf, f, i, lists)
  {
    hide EntriesFrom, Sound, Visited, MaskAt, LogAt, ForType;
    if before == [[], [], [], []] {
      forall i | i in Visited(f, 0) && i < BARS && MaskAt(f, i) != 0 ensures OnItsList(bdf, f, i, lists) {
        var e := Entry(bdf, i, LogAt(f, i));
        forall c | 0 <= c < WINDOWS ensures e in lists[c] <==> ForType(f.bars[i], c) {
          EntriesTyped(bdf, f, 0, c, e);
          assert before[c] == [];
        }
      }
    }
  }

  class PciSegment {
    var devices: Devices

    constructor (devices: Devices)
      ensures this.devices == devices
    {
      this.devices := devices;
    }

    /** The first loop of `assign_resources`, over the functions in any order; not `ok` where it panics. */
    method Collect() returns (ok: bool, lists: seq<seq<Entry>>)
      requires DevicesShaped(devices)
      ensures ok <==> Supported(devices)
      ensures ok ==> |lists| == WINDOWS && ByType(devices, lists) && forall c :: 0 <= c < WINDOWS ==>
              NoDup(lists[c]) && SetOf(lists[c]) == ForWindow(devices, c)
    {
      hide Collected, EntriesFrom, ForWindow, NoDup, SetOf, Sound, ByType;
      lists := [[], [], [], []];
      var todo := devices.Keys;
      NoneCollected(devices, lists);
      while todo != {}
        invariant todo <= devices.Keys && |lists| == WINDOWS
        invariant Collected(devices, devices.Keys - todo, lists)
        invariant forall b :: b in devices && b !in todo ==> Sound(devices[b], 0)
        decreases |todo|
      {
        var bdf :| bdf in todo;
        ghost var keys, before := devices.Keys - todo, lists;
        ok, lists := CollectFrom(bdf, devices[bdf], lists);
        if !ok {
          return;
        }
        AllMoreDevice(devices, keys, bdf, before, lists);
        todo := todo - {bdf};
        assert devices.Keys - todo == keys + {bdf};
      }
      ok := true;
      assert devices.Keys - todo == devices.Keys;
      AllCollected(devices, lists);
      ListsByType(devices, lists);
    }

    /** The registers of one function, each to the list of its window. */
    method CollectFrom(bdf: nat, f: Function, before: seq<seq<Entry>>) returns (ok: bool, lists: seq<seq<Entry>>)
      requires Shaped(f) && |before| == WINDOWS
      ensures ok <==> Sound(f, 0)
      ensures ok ==> |lists| == WINDOWS
                     && forall c :: 0 <= c < WINDOWS ==> lists[c] == before[c] + EntriesFrom(bdf, f, 0, c)
      ensures ok && before == [[], [], [], []] ==>
                forall i :: i in Visited(f, 0) && i < BARS && MaskAt(f, i) != 0 ==> OnItsList(bdf, f, i, lists)
    {
      hide Is64, IsIo, Prefetchable, Join, TrailingZeros, EntriesFrom, EntryAt;
      lists := before;
      var index: nat := 0;
      while index < BARS
        invariant |lists| == WINDOWS
        invariant Sound(f, 0) <==> Sound(f, index)
        invariant forall c :: 0 <= c < WINDOWS ==> Pending(bdf, f, index, c, lists[c], before[c])
        decreases BARS - index
      {
        var i, val := index, f.bars[index];
        index := index + 1;
        var mask := Join(f.masks[i], 0);
        if Is64(val) {
          if i + 1 >= BARS {
            return false, lists;
          }
          mask := Join(f.masks[i], f.masks[i + 1]);
          index := index + 1;
        }
        ghost var was := lists;
        if mask != 0 {
          if !IsIo(val) && Is64(val) && !Prefetchable(val) {
            return false, lists;
          }
          var c := if IsIo(val) then 0 else if Is64(val) then 3 else if Prefetchable(val) then 2 else 1;
          lists := lists[c := lists[c] + [Entry(bdf, i, TrailingZeros(mask, 64))]];
        }
        forall c | 0 <= c < WINDOWS ensures Pending(bdf, f, index, c, lists[c], before[c]) {
          assert lists[c] == was[c] + EntryAt(bdf, f, i, c) by { EntryStep(bdf, f, i, c, mask); }
          ListTurn(bdf, f, i, c, was[c], before[c]);
        }
      }
      forall c | 0 <= c < WINDOWS ensures lists[c] == before[c] + EntriesFrom(bdf, f, 0, c) {
        ListDone(bdf, f, index, c, lists[c], before[c]);
      }
      ok := true;
      AllOnList(bdf, f, before, lists);
    }

    /** `assign_resources`; `lists` are the registers in the order in which they were placed. Not `ok` where the program
        panics: on a register that it refuses, before anything is written, or at a placement that exceeds. */
    method AssignResources(windows: seq<(nat, nat)>) returns (ok: bool, ghost lists: seq<seq<Entry>>)
      requires DevicesShaped(devices) && |windows| == WINDOWS
      requires forall c :: 0 <= c < WINDOWS ==> windows[c].0 < U64_SPAN && windows[c].1 < U64_SPAN
      modifies this
      ensures !Supported(old(devices)) ==> !ok && devices == old(devices)
      ensures Supported(old(devices)) ==>
                && Listed(old(devices), lists) && ByType(old(devices), lists)
                && (ok <==> Within(Placed(lists, windows, WINDOWS)))
      ensures ok ==> PlacedKnown(old(devices), Placed(lists, windows, WINDOWS))
                     && devices == Written(old(devices), Placed(lists, windows, WINDOWS))
    {
      hide ForWindow, Ordered, NoDup, Place, Written, Sort, Supported, Exceeds, ByType;
      var found;
      ok, found := Collect();
      lists := [];
      if !ok {
        return;
      }
      var sorted: seq<seq<Entry>> := [[], [], [], []];
      for c := 0 to WINDOWS
        invariant |sorted| == WINDOWS && forall k :: 0 <= k < c ==> sorted[k] == Sort(found[k])
      {
        sorted := sorted[c := Sort(found[c])];
      }
      lists := sorted;
      forall c | 0 <= c < WINDOWS
        ensures Ordered(lists[c]) && SetOf(lists[c]) == ForWindow(devices, c) && Located(devices, lists[c])
      {
        SortOrdered(found[c]);
        WantedKnown(devices, lists[c], c);
      }
      ListsByType(devices, lists);
      ghost var first := devices;
      WrittenNone(first);
      for c := 0 to WINDOWS
        invariant DevicesShaped(devices) && devices.Keys == first.Keys
        invariant PlacedKnown(first, Placed(lists, windows, c)) && Within(Placed(lists, windows, c))
        invariant devices == Written(first, Placed(lists, windows, c))
      {
        ghost var ps := Placed(lists, windows, c);
        ok := PlaceAll(sorted[c], windows[c].0, windows[c].1);
        WithinMore(ps, Place(lists[c], windows[c].0, windows[c].1));
        if !ok {
          PlacedGrow(lists, windows, c + 1, WINDOWS);
          return;
        }
        KnownSame(first, old(devices), lists[c]);
        PlaceKnown(first, lists[c], windows[c].0, windows[c].1);
        WrittenMore(first, ps, Place(lists[c], windows[c].0, windows[c].1));
      }
      ok := true;
    }

    /** The inner loop: one window. */
    method PlaceAll(es: seq<Entry>, start: nat, end: nat) returns (ok: bool)
      requires DevicesShaped(devices) && Located(devices, es) && start < U64_SPAN && end < U64_SPAN
      modifies this
      ensures ok <==> Within(Place(es, start, end))
      ensures ok ==> PlacedKnown(old(devices), Place(es, start, end))
                     && devices == Written(old(devices), Place(es, start, end))
    {
      hide Place, Written, Pow2, AlignUp, EndOf, Assign, Halves;
      ghost var first := devices;
      ghost var done: seq<Placement> := [];
      var addr: nat := start;
      PlaceKnown(first, es, start, end);
      WrittenNone(first);
      for k := 0 to |es|
        invariant DevicesShaped(devices) && devices.Keys == first.Keys
        invariant PlacedKnown(first, done) && devices == Written(first, done) && Within(done)
        invariant Place(es, start, end) == done + Place(es[k..], addr, end)
      {
        var e := es[k];
        var aligned := AlignUp(addr, e.log);
        var next := EndOf(aligned, e.log);
        AlignUpBelow(addr, e.log);
        PlaceStep(es[k..], addr, end);
        assert es[k..][0] == e && es[k..][1..] == es[k + 1..];
        if next > end {
          continue;
        }
        ghost var p := At(e, aligned);
        assert done + ([p] + Place(es[k + 1..], next, end)) == (done + [p]) + Place(es[k + 1..], next, end);
        WrittenOne(first, done, p);
        var f := devices[e.bdf];
        SetTwice(f, e.index, aligned);
        var g := SetBar(f, e.index, Halves(aligned).lo);
        if aligned >= 0x1_0000_0000 {
          if e.index + 1 >= BARS {
            assert Exceeds(p) && Place(es, start, end)[|done|] == p;
            return false;
          }
          g := SetBar(g, e.index + 1, Halves(aligned).hi);
        }
        devices := devices[e.bdf := g];
        addr := next;
        done := done + [p];
      }
      PlaceNothing(addr, end);
      assert es[|es|..] == [] && done + [] == done;
      return true;
    }
  }

  lemma WithinMore(a: seq<Placement>, b: seq<Placement>)
    ensures Within(a + b) <==> Within(a) && Within(b)
  {
    hide Exceeds;
    var all := a + b;
    if Within(all) {
      assert forall i :: 0 <= i < |a| ==> a[i] == all[i];
      assert forall i :: 0 <= i < |b| ==> b[i] == all[|a| + i];
    }
  }

  lemma {:induction false} PlacedGrow(lists: seq<seq<Entry>>, windows: seq<(nat, nat)>, c: nat, d: nat)
    requires |lists| == WINDOWS && |windows| == WINDOWS && c <= d <= WINDOWS && !Within(Placed(lists, windows, c))
    ensures !Within(Placed(lists, windows, d))
    decreases d
  {
    hide Place, Within;
    if c < d {
      PlacedGrow(lists, windows, c, d - 1);
      WithinMore(Placed(lists, windows, d - 1), Place(lists[d - 1], windows[d - 1].0, windows[d - 1].1));
    }
  }

  ghost predicate PlacedKnown(devices: Devices, ps: seq<Placement>) {
    forall i :: 0 <= i < |ps| ==> ps[i].e.bdf in devices && ps[i].e.index < BARS
  }

  lemma NothingYet(devices: Devices, c: nat)
    requires DevicesShaped(devices)
    ensures NoDup([]) && SetOf([]) == ForWindowOf(devices, devices.Keys - devices.Keys, c)
  {
  }

  lemma KnownSame(a: Devices, b: Devices, es: seq<Entry>)
    requires Located(b, es) && a.Keys == b.Keys
    ensures Located(a, es)
  {
  }

  lemma WrittenNone(devices: Devices)
    requires DevicesShaped(devices)
    ensures Written(devices, []) == devices
  {
  }

  lemma WrittenOne(devices: Devices, ps: seq<Placement>, p: Placement)
    requires DevicesShaped(devices) && PlacedKnown(devices, ps) && p.e.bdf in devices && p.e.index < BARS
    ensures PlacedKnown(devices, ps + [p])
    ensures var d := Written(devices, ps);
            Written(devices, ps + [p]) == d[p.e.bdf := Assign(d[p.e.bdf], p.e.index, Halves(p.addr))]
  {
    hide Assign, Halves;
    assert (ps + [p])[..|ps|] == ps;
  }

  lemma {:induction false} WrittenMore(devices: Devices, a: seq<Placement>, b: seq<Placement>)
    requires DevicesShaped(devices) && PlacedKnown(devices, a) && PlacedKnown(devices, b)
    ensures PlacedKnown(devices, a + b) && PlacedKnown(Written(devices, a), b)
    ensures Written(devices, a + b) == Written(Written(devices, a), b)
    decreases |b|
  {
    hide Assign, Halves, Written;
    if b == [] {
      assert a + b == a;
      WrittenNone(Written(devices, a));
    } else {
      var n := |b| - 1;
      WrittenMore(devices, a, b[..n]);
      WrittenOne(devices, a + b[..n], b[n]);
      WrittenOne(Written(devices, a), b[..n], b[n]);
      assert a + b == a + b[..n] + [b[n]] && b == b[..n] + [b[n]];
    }
  }

  /** Below 2^64 the upper half is written exactly if the address is above the 32-bit limit. */
  lemma SetTwice(f: Function, i: nat, a: nat)
    requires Shaped(f) && i < BARS && a < U64_SPAN
    ensures var g := SetBar(f, i, Halves(a).lo);
            Assign(f, i, Halves(a)) == if a >= 0x1_0000_0000 && i + 1 < BARS then SetBar(g, i + 1, Halves(a).hi) else g
  {
    hide SetBar;
    UpperHalf(a);
  }

  lemma UpperHalf(a: nat)
    requires a < U64_SPAN
    ensures Halves(a).hi != 0 <==> a >= 0x1_0000_0000
  {
    hide Bits;
    Pow32();
    ShrZero(a, 32);
    ShrSmall(a);
    BitsZero(Shr(a, 32), 32);
  }

  lemma {:induction false} ShrLess(a: nat, j: nat, k: nat)
    requires a < Pow2(j + k)
    ensures Shr(a, j) < Pow2(k)
    decreases j
  {
    if j > 0 {
      ShrLess(a / 2, j - 1, k);
    }
  }

  lemma ShrSmall(a: nat)
    requires a < U64_SPAN
    ensures Shr(a, 32) < Pow2(32)
  {
    hide Shr;
    Pow64();
    ShrLess(a, 32, 32);
  }
}
