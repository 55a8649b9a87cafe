/**
 Slots of the guest address space: what adding, removing and looking up mean on a sorted vector,
 and that they mean the same on a plain set of disjoint intervals.
 */
module SlotIndex {
  import opened Bytes
  import opened Wrappers

  datatype Slot<+B> = Slot(addr: nat, size: nat, backend: B) {
    function Last(): int {
      addr + size - 1
    }

    predicate Holds(a: nat) {
      addr <= a < addr + size
    }

    predicate Meets<C>(other: Slot<C>) {
      addr < other.addr + other.size && other.addr < addr + size
    }
  }

  datatype Error =
    | ZeroSizedSlot
    | ExceedsLimit(addr: nat, size: nat)
    | Overlap(added: (nat, int), existing: (nat, int))
    | NotMapped(addr: nat)
    | BackendTooBig(sum: nat, size: nat)

  /** Not empty and within 64 bits. */
  predicate Fits<B>(s: Slot<B>) {
    s.size > 0 && s.addr + s.size <= U64_SPAN
  }

  predicate Sorted<B>(slots: seq<Slot<B>>) {
    && (forall i :: 0 <= i < |slots| ==> Fits(slots[i]))
    && (forall i, j :: 0 <= i < j < |slots| ==> slots[i].addr + slots[i].size <= slots[j].addr)
  }

  /** How many slots start below `addr`: where binary search finds it or would insert it. */
  function Position<B>(slots: seq<Slot<B>>, addr: nat): (p: nat)
    requires Sorted(slots)
    ensures p <= |slots|
    ensures forall i :: 0 <= i < p ==> slots[i].addr < addr
    ensures forall i :: p <= i < |slots| ==> slots[i].addr >= addr
  {
    if slots == [] || slots[|slots| - 1].addr < addr then |slots| else Position(slots[..|slots| - 1], addr)
  }

  function Insert<B>(slots: seq<Slot<B>>, addr: nat, size: nat, backend: B): Result<seq<Slot<B>>, Error>
    requires Sorted(slots)
  {
    if size == 0 then Err(ZeroSizedSlot)
    else if addr + size > U64_SPAN then Err(ExceedsLimit(addr, size))
    else
      var i, s := Position(slots, addr), Slot(addr, size, backend);
      if i < |slots| && slots[i].addr <= s.Last() then Err(Overlap((addr, s.Last()), (slots[i].addr, slots[i].Last())))
      else if i > 0 && addr <= slots[i - 1].Last()
          then Err(Overlap((addr, s.Last()), (slots[i - 1].addr, slots[i - 1].Last())))
      else Ok(slots[..i] + [s] + slots[i..])
  }

  function Delete<B>(slots: seq<Slot<B>>, addr: nat): Result<(seq<Slot<B>>, B), Error>
    requires Sorted(slots)
  {
    var i := Position(slots, addr);
    if i < |slots| && slots[i].addr == addr
        then Ok((slots[..i] + slots[i + 1..], slots[i].backend)) else Err(NotMapped(addr))
  }

  function Search<B>(slots: seq<Slot<B>>, addr: nat): Option<Slot<B>>
    requires Sorted(slots)
  {
    var i := Position(slots, addr);
    if i < |slots| && slots[i].addr == addr then Some(slots[i])
    else if i > 0 && addr <= slots[i - 1].Last() then Some(slots[i - 1])
    else None
  }

  function SearchNext<B>(slots: seq<Slot<B>>, addr: nat): Option<Slot<B>>
    requires Sorted(slots)
  {
    var i := Position(slots, addr);
    if i < |slots| && slots[i].addr == addr then Some(slots[i])
    else if i == 0 then None
    else if addr <= slots[i - 1].Last() then Some(slots[i - 1])
    else if i < |slots| then Some(slots[i])
    else None
  }

  // ----------------------------------------------------------------- a set of intervals

  ghost function SetOf<B>(slots: seq<Slot<B>>): set<Slot<B>> {
    set s | s in slots
  }

  /** What `Insert` promises, said of the set. */
  ghost predicate AddedTo<B>(before: set<Slot<B>>, addr: nat, size: nat, backend: B, r: Result<set<Slot<B>>, Error>) {
    var s := Slot(addr, size, backend);
    if size == 0 then r == Err(ZeroSizedSlot)
    else if addr + size > U64_SPAN then r == Err(ExceedsLimit(addr, size))
    else if exists t :: t in before && t.Meets(s) then
      r.Err? && exists t :: t in before && t.Meets(s) && r.error == Overlap((addr, s.Last()), (t.addr, t.Last()))
    else r == Ok(before + {s})
  }

  ghost predicate RemovedFrom<B>(before: set<Slot<B>>, addr: nat, r: Result<(set<Slot<B>>, B), Error>) {
    if exists t :: t in before && t.addr == addr then
      r.Ok? && exists t :: t in before && t.addr == addr && r.value == (before - {t}, t.backend)
    else r == Err(NotMapped(addr))
  }

  /** The slot that holds `addr`, which is the only one. */
  ghost predicate FoundIn<B>(slots: set<Slot<B>>, addr: nat, r: Option<Slot<B>>) {
    match r
    case Some(s) => s in slots && s.Holds(addr) && forall t :: t in slots && t.Holds(addr) ==> t == s
    case None => forall t :: t in slots ==> !t.Holds(addr)
  }

  /** With a slot starting at or below `addr`: the one that holds it, or else the nearest above, or else none. */
  ghost predicate FoundNextIn<B>(slots: set<Slot<B>>, addr: nat, r: Option<Slot<B>>) {
    if forall t :: t in slots ==> t.addr > addr then r == None
    else
      match r
      case Some(s) => s in slots && addr < s.addr + s.size && forall t :: t in slots && addr < t.addr + t.size ==>
          s.addr <= t.addr
      case None => forall t :: t in slots ==> t.addr + t.size <= addr
  }

  ghost function MapResult<B>(r: Result<seq<Slot<B>>, Error>): Result<set<Slot<B>>, Error> {
    match r
    case Ok(slots) => Ok(SetOf(slots))
    case Err(e) => Err(e)
  }

  ghost function MapPair<B>(r: Result<(seq<Slot<B>>, B), Error>): Result<(set<Slot<B>>, B), Error> {
    match r
    case Ok(pair) => Ok((SetOf(pair.0), pair.1))
    case Err(e) => Err(e)
  }

  /** What lies before the slot below position `i` ends before it, what lies after slot `i` starts after it. */
  lemma Around<B>(slots: seq<Slot<B>>, i: nat)
    requires Sorted(slots) && i <= |slots|
    ensures forall k :: 0 <= k < i - 1 ==> slots[k].addr + slots[k].size <= slots[i - 1].addr
    ensures forall k :: i < k < |slots| ==> slots[i].addr + slots[i].size <= slots[k].addr
    ensures 0 < i < |slots| ==> slots[i - 1].addr + slots[i - 1].size <= slots[i].addr
    ensures forall k :: 0 <= k < |slots| ==> slots[k].size > 0
  {
  }

  lemma PositionIs<B>(slots: seq<Slot<B>>, addr: nat, i: nat)
    requires Sorted(slots) && i <= |slots|
    requires forall k :: 0 <= k < i ==> slots[k].addr < addr
    requires forall k :: i <= k < |slots| ==> slots[k].addr >= addr
    ensures Position(slots, addr) == i
  {
    var _ := Position(slots, addr);
  }

  /** Looking at two neighbours is enough: an add is refused exactly when it would overlap. */
  lemma InsertRefines<B>(slots: seq<Slot<B>>, addr: nat, size: nat, backend: B)
    requires Sorted(slots)
    ensures AddedTo(SetOf(slots), addr, size, backend, MapResult(Insert(slots, addr, size, backend)))
    ensures Insert(slots, addr, size, backend).Ok? ==> Sorted(Insert(slots, addr, size, backend).value)
  {
    hide Sorted;
    var r, i, s := Insert(slots, addr, size, backend), Position(slots, addr), Slot(addr, size, backend);
    Around(slots, i);
    if r.Ok? {
      forall t | t in SetOf(slots) ensures !t.Meets(s) {
        var k :| 0 <= k < |slots| && slots[k] == t;
      }
      InsertSorted(slots, i, s);
      assert SetOf(r.value) == SetOf(slots) + {s};
    } else if size > 0 && addr + size <= U64_SPAN {
      var t := if i < |slots| && slots[i].addr <= s.Last() then slots[i] else slots[i - 1];
      assert t in SetOf(slots) && t.Meets(s);
    }
  }

  lemma InsertSorted<B>(slots: seq<Slot<B>>, i: nat, s: Slot<B>)
    requires Sorted(slots) && i <= |slots| && Fits(s)
    requires i > 0 ==> slots[i - 1].addr + slots[i - 1].size <= s.addr
    requires i < |slots| ==> s.addr + s.size <= slots[i].addr
    ensures Sorted(slots[..i] + [s] + slots[i..])
  {
    var r := slots[..i] + [s] + slots[i..];
    forall j | 0 <= j < |r| ensures Fits(r[j]) {
      assert r[j] == if j < i then slots[j] else if j == i then s else slots[j - 1];
    }
    forall j, k | 0 <= j < k < |r| ensures r[j].addr + r[j].size <= r[k].addr {
      assert j < i - 1 ==> slots[j].addr + slots[j].size <= slots[i - 1].addr;
      assert k - 1 > i ==> slots[i].addr + slots[i].size <= slots[k - 1].addr;
    }
  }

  lemma DeleteRefines<B>(slots: seq<Slot<B>>, addr: nat)
    requires Sorted(slots)
    ensures RemovedFrom(SetOf(slots), addr, MapPair(Delete(slots, addr)))
    ensures Delete(slots, addr).Ok? ==> Sorted(Delete(slots, addr).value.0)
  {
    var i := Position(slots, addr);
    Around(slots, i);
    if i < |slots| && slots[i].addr == addr {
      assert slots[i] in SetOf(slots);
      DeleteAt(slots, i);
    } else {
      forall t | t in SetOf(slots) ensures t.addr != addr {
        var k :| 0 <= k < |slots| && slots[k] == t;
      }
    }
  }

  lemma DeleteAt<B>(slots: seq<Slot<B>>, i: nat)
    requires Sorted(slots) && i < |slots|
    ensures Sorted(slots[..i] + slots[i + 1..])
    ensures SetOf(slots[..i] + slots[i + 1..]) == SetOf(slots) - {slots[i]}
  {
    var rest := slots[..i] + slots[i + 1..];
    Others(slots, i);
    DropSorted(slots, i);
    forall t | t in SetOf(slots) - {slots[i]} ensures t in SetOf(rest) {
      var j :| 0 <= j < |slots| && slots[j] == t;
      assert rest[if j < i then j else j - 1] == t;
    }
  }

  lemma Others<B>(slots: seq<Slot<B>>, i: nat)
    requires Sorted(slots) && i < |slots|
    ensures forall j :: 0 <= j < |slots| && j != i ==> slots[j] != slots[i]
  {
  }

  lemma DropSorted<B>(slots: seq<Slot<B>>, i: nat)
    requires Sorted(slots) && i < |slots|
    ensures Sorted(slots[..i] + slots[i + 1..])
  {
  }

  lemma SearchRefines<B>(slots: seq<Slot<B>>, addr: nat)
    requires Sorted(slots)
    ensures FoundIn(SetOf(slots), addr, Search(slots, addr))
  {
    var i, r := Position(slots, addr), Search(slots, addr);
    Around(slots, i);
    forall t | t in SetOf(slots) && t.Holds(addr) ensures r == Some(t) {
      var k :| 0 <= k < |slots| && slots[k] == t;
    }
  }

  lemma SearchNextRefines<B>(slots: seq<Slot<B>>, addr: nat)
    requires Sorted(slots)
    ensures FoundNextIn(SetOf(slots), addr, SearchNext(slots, addr))
  {
    hide Sorted;
    var i, r := Position(slots, addr), SearchNext(slots, addr);
    Around(slots, i);
    if forall t :: t in SetOf(slots) ==> t.addr > addr {
      assert i == 0 by {
        assert |slots| > 0 ==> slots[0] in SetOf(slots);
      }
      assert i < |slots| ==> slots[i] in SetOf(slots);
    } else {
      var low :| low in SetOf(slots) && low.addr <= addr;
      var l :| 0 <= l < |slots| && slots[l] == low;
      forall t | t in SetOf(slots) && addr < t.addr + t.size ensures r.Some? && r.value.addr <= t.addr {
        var k :| 0 <= k < |slots| && slots[k] == t;
      }
    }
  }

  // ------------------------------------------------------------------------- any run

  datatype Op<+B> = Add(addr: nat, size: nat, backend: B) | Remove(addr: nat)

  /** The vector after a run of adds and removes; those that fail change nothing. */
  function Run<B>(ops: seq<Op<B>>): (slots: seq<Slot<B>>)
    ensures Sorted(slots)
  {
    if ops == [] then []
    else
      var before := Run(ops[..|ops| - 1]);
      match ops[|ops| - 1]
      case Add(addr, size, backend) =>
        InsertRefines(before, addr, size, backend);
        var r := Insert(before, addr, size, backend);
        if r.Ok? then r.value else before
      case Remove(addr) =>
        DeleteRefines(before, addr);
        var r := Delete(before, addr);
        if r.Ok? then r.value.0 else before
  }

  ghost predicate Disjoint<B>(slots: set<Slot<B>>) {
    forall s, t :: s in slots && t in slots && s != t ==> !s.Meets(t)
  }

  /** The set after the same run, with overlap judged against every member. */
  ghost function RunSet<B>(ops: seq<Op<B>>): set<Slot<B>> {
    if ops == [] then {}
    else
      var before := RunSet(ops[..|ops| - 1]);
      match ops[|ops| - 1]
      case Add(addr, size, backend) =>
        var s := Slot(addr, size, backend);
        if Fits(s) && forall t :: t in before ==> !t.Meets(s) then before + {s} else before
      case Remove(addr) => set t | t in before && t.addr != addr
  }

  /** In every run the vector holds exactly the set, sorted and without overlaps. */
  lemma {:induction false} RunRefines<B>(ops: seq<Op<B>>)
    ensures SetOf(Run(ops)) == RunSet(ops) && Sorted(Run(ops)) && Disjoint(RunSet(ops))
    decreases |ops|
  {
    if ops != [] {
      var before := Run(ops[..|ops| - 1]);
      RunRefines(ops[..|ops| - 1]);
      match ops[|ops| - 1]
      case Add(addr, size, backend) =>
        InsertRefines(before, addr, size, backend);
      case Remove(addr) =>
        DeleteRefines(before, addr);
        OneStart(before, addr);
    }
    SortedDisjoint(Run(ops));
  }

  lemma SortedDisjoint<B>(slots: seq<Slot<B>>)
    requires Sorted(slots)
    ensures Disjoint(SetOf(slots))
  {
    forall s, t | s in SetOf(slots) && t in SetOf(slots) && s != t ensures !s.Meets(t) {
      var j, k :| 0 <= j < |slots| && slots[j] == s && 0 <= k < |slots| && slots[k] == t;
      assert j < k || k < j;
    }
  }

  lemma OneStart<B>(slots: seq<Slot<B>>, addr: nat)
    requires Sorted(slots)
    ensures forall s, t :: s in SetOf(slots) && t in SetOf(slots) && s.addr == addr && t.addr == addr ==> s == t
  {
    SortedDisjoint(slots);
    forall s, t | s in SetOf(slots) && t in SetOf(slots) && s.addr == addr && t.addr == addr ensures s == t {
      assert Fits(s) && Fits(t);
    }
  }

  // --------------------------------------------------------------- backends by start

  /** The backends by where their slots start. */
  ghost function Starts<B>(slots: seq<Slot<B>>): map<nat, B>
    requires Sorted(slots)
  {
    map a: nat | a in (set s | s in slots :: s.addr) :: slots[IndexOf(slots, a)].backend
  }

  ghost function IndexOf<B>(slots: seq<Slot<B>>, a: nat): (i: nat)
    requires Sorted(slots) && a in (set s | s in slots :: s.addr)
    ensures i < |slots| && slots[i].addr == a
  {
    var s :| s in slots && s.addr == a;
    var i :| 0 <= i < |slots| && slots[i] == s;
    i
  }

  lemma StartsAt<B>(slots: seq<Slot<B>>, i: nat)
    requires Sorted(slots) && i < |slots|
    ensures slots[i].addr in Starts(slots) && Starts(slots)[slots[i].addr] == slots[i].backend
  {
    var a := slots[i].addr;
    assert slots[i] in slots;
    OneStart(slots, a);
    var j := IndexOf(slots, a);
    assert slots[j] in SetOf(slots) && slots[i] in SetOf(slots);
  }

  lemma StartsOnly<B>(slots: seq<Slot<B>>, a: nat) returns (i: nat)
    requires Sorted(slots) && a in Starts(slots)
    ensures i < |slots| && slots[i].addr == a && Starts(slots)[a] == slots[i].backend
  {
    i := IndexOf(slots, a);
  }

  /** A slot that is added starts where none did, and nothing else moves. */
  lemma InsertStarts<B>(slots: seq<Slot<B>>, addr: nat, size: nat, backend: B)
    requires Sorted(slots) && Insert(slots, addr, size, backend).Ok?
    ensures var v := Insert(slots, addr, size, backend).value;
            Sorted(v) && addr !in Starts(slots) && Starts(v) == Starts(slots)[addr := backend]
  {
    hide Sorted, Starts;
    InsertRefines(slots, addr, size, backend);
    var v, p := Insert(slots, addr, size, backend).value, Position(slots, addr);
    if addr in Starts(slots) {
      var i := StartsOnly(slots, addr);
      Around(slots, p);
    }
    forall a | a in Starts(v)
      ensures a in Starts(slots)[addr := backend] && Starts(v)[a] == Starts(slots)[addr := backend][a]
    {
      var i := StartsOnly(v, a);
      if i != p {
        StartsAt(slots, if i < p then i else i - 1);
      }
    }
    forall a | a in Starts(slots)[addr := backend] ensures a in Starts(v) {
      if a == addr {
        StartsAt(v, p);
      } else {
        var i := StartsOnly(slots, a);
        StartsAt(v, if i < p then i else i + 1);
      }
    }
  }

  /** Removing finds what starts there, and nothing else moves. */
  lemma DeleteStarts<B>(slots: seq<Slot<B>>, addr: nat)
    requires Sorted(slots) && Delete(slots, addr).Ok?
    ensures var (v, b) := Delete(slots, addr).value;
            Sorted(v) && addr in Starts(slots) && Starts(slots)[addr] == b && Starts(v) == Starts(slots) - {addr}
  {
    hide Sorted, Starts;
    DeleteRefines(slots, addr);
    var v, p := Delete(slots, addr).value.0, Position(slots, addr);
    StartsAt(slots, p);
    Around(slots, p);
    forall a | a in Starts(v) ensures a in Starts(slots) - {addr} && Starts(v)[a] == (Starts(slots) - {addr})[a] {
      var i := StartsOnly(v, a);
      StartsAt(slots, if i < p then i else i + 1);
    }
    forall a | a in Starts(slots) - {addr} ensures a in Starts(v) {
      var i := StartsOnly(slots, a);
      StartsAt(v, if i < p then i else i - 1);
    }
  }
}
