/** The sorted vector of slots that the buses and the region list keep. */
module Addressable {
  import opened Bytes
  import opened Wrappers
  import opened SlotIndex

  class Addressable<B> {
    var slots: seq<Slot<B>>

    ghost predicate Valid()
      reads this
    {
      Sorted(slots)
    }

    constructor ()
      ensures Valid() && slots == []
    {
      slots := [];
    }

    method BinarySearch(addr: nat) returns (found: bool, index: nat)
      requires Valid()
      ensures index == Position(slots, addr)
      ensures found <==> index < |slots| && slots[index].addr == addr
    {
      var lo, hi := 0, |slots|;
      while lo < hi
        invariant lo <= hi <= |slots|
        invariant forall i :: 0 <= i < lo ==> slots[i].addr < addr
        invariant forall i :: hi <= i < |slots| ==> slots[i].addr > addr
      {
        var mid := (lo + hi) / 2;
        if slots[mid].addr == addr {
          PositionIs(slots, addr, mid);
          return true, mid;
        }
        if slots[mid].addr < addr {
          lo := mid + 1;
        } else {
          hi := mid;
        }
      }
      PositionIs(slots, addr, lo);
      return false, lo;
    }

    /** `add`; on success the index of the new slot. */
    method Add(addr: nat, size: nat, backend: B) returns (r: Result<nat, Error>)
      requires Valid()
      modifies this
      ensures Valid()
      ensures match Insert(old(slots), addr, size, backend)
              case Ok(v) => slots == v && r.Ok? && r.value < |v| && v[r.value] == Slot(addr, size, backend)
              case Err(e) => slots == old(slots) && r == Err(e)
    {
      hide Sorted, AddedTo;
      if size == 0 {
        return Err(ZeroSizedSlot);
      }
      if size - 1 + addr >= U64_SPAN {
        return Err(ExceedsLimit(addr, size));
      }
      var s := Slot(addr, size, backend);
      var found, i := BinarySearch(addr);
      InsertRefines(slots, addr, size, backend);
      if found {
        return Err(Overlap((addr, s.Last()), (slots[i].addr, slots[i].Last())));
      }
      if i < |slots| && slots[i].addr <= s.Last() {
        return Err(Overlap((addr, s.Last()), (slots[i].addr, slots[i].Last())));
      }
      if i > 0 && addr <= slots[i - 1].Last() {
        return Err(Overlap((addr, s.Last()), (slots[i - 1].addr, slots[i - 1].Last())));
      }
      slots := slots[..i] + [s] + slots[i..];
      return Ok(i);
    }

    method Remove(addr: nat) returns (r: Result<B, Error>)
      requires Valid()
      modifies this
      ensures Valid()
      ensures match Delete(old(slots), addr)
              case Ok(v) => slots == v.0 && r == Ok(v.1)
              case Err(e) => slots == old(slots) && r == Err(e)
    {
      hide Sorted, RemovedFrom;
      var found, i := BinarySearch(addr);
      DeleteRefines(slots, addr);
      if found {
        r := Ok(slots[i].backend);
        slots := slots[..i] + slots[i + 1..];
      } else {
        r := Err(NotMapped(addr));
      }
    }

    method Find(addr: nat) returns (r: Option<Slot<B>>)
      requires Valid()
      ensures r == Search(slots, addr) && FoundIn(SetOf(slots), addr, r)
    {
      SearchRefines(slots, addr);
      var found, i := BinarySearch(addr);
      if found {
        return Some(slots[i]);
      }
      if i == 0 {
        return None;
      }
      return if addr <= slots[i - 1].Last() then Some(slots[i - 1]) else None;
    }

    method FindNext(addr: nat) returns (r: Option<Slot<B>>)
      requires Valid()
      ensures r == SearchNext(slots, addr) && FoundNextIn(SetOf(slots), addr, r)
    {
      SearchNextRefines(slots, addr);
      var found, i := BinarySearch(addr);
      if found {
        return Some(slots[i]);
      }
      if i == 0 {
        return None;
      }
      if addr <= slots[i - 1].Last() {
        return Some(slots[i - 1]);
      }
      return if i < |slots| then Some(slots[i]) else None;
    }

    /** `drain(..)`. */
    method Drain() returns (all: seq<Slot<B>>)
      modifies this
      ensures Valid() && slots == [] && all == old(slots)
    {
      all := slots;
      slots := [];
    }
  }
}
