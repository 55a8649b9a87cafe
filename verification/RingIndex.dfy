/**
 Ring positions. A ring position is an unbounded counter of slots; the device
 and the driver only ever store a 16-bit code of it. The packed ring stores an
 offset and a wrap counter, the split ring stores the counter modulo 2^16.
 */
module RingIndex {

  const U16_SPAN: nat := 0x1_0000

  /** The index type of the packed ring: 15 bits of offset and the wrap counter. */
  datatype WrappedIndex = WrappedIndex(offset: nat, wrap: bool)

  /** `WrappedIndex::wrapping_add`. */
  function WrappingAdd(index: WrappedIndex, delta: nat, size: nat): WrappedIndex {
    var offset := index.offset + delta;
    if offset >= size then WrappedIndex(offset - size, !index.wrap) else WrappedIndex(offset, index.wrap)
  }

  /** `WrappedIndex::wrapping_sub`; `size - delta` must not underflow. */
  function WrappingSub(index: WrappedIndex, delta: nat, size: nat): WrappedIndex
    requires delta <= size
  {
    if index.offset >= delta then WrappedIndex(index.offset - delta, index.wrap)
    else WrappedIndex(index.offset + (size - delta), !index.wrap)
  }

  /** The slot that holds position `p` in a ring of `size` slots. */
  function Off(p: nat, size: nat): (o: nat)
    requires size > 0
    ensures o < size
    decreases p
  {
    if p < size then p else Off(p - size, size)
  }

  /** The wrap counter of position `p`: true on the first lap, then alternating. */
  predicate Wrap(p: nat, size: nat)
    requires size > 0
    decreases p
  {
    if p < size then true else !Wrap(p - size, size)
  }

  function At(p: nat, size: nat): WrappedIndex
    requires size > 0
  {
    WrappedIndex(Off(p, size), Wrap(p, size))
  }

  /** Adding to a wrapped index is adding to the unbounded position, across every wrap. */
  lemma {:induction false} AddRefines(p: nat, delta: nat, size: nat)
    requires 0 < size && delta <= size
    ensures WrappingAdd(At(p, size), delta, size) == At(p + delta, size)
    decreases p
  {
    if p >= size {
      AddRefines(p - size, delta, size);
    } else if p + delta >= size {
      assert At(p + delta - size, size) == WrappedIndex(p + delta - size, true);
    }
  }

  /** Subtracting from a wrapped index undoes the addition, across every wrap. */
  lemma {:induction false} SubRefines(p: nat, delta: nat, size: nat)
    requires 0 < size && delta <= size && delta <= p
    ensures WrappingSub(At(p, size), delta, size) == At(p - delta, size)
    decreases p
  {
    if p - delta >= size {
      SubRefines(p - size, delta, size);
    } else if p >= size {
      assert At(p - size, size) == WrappedIndex(p - size, true);
    }
  }

  /** Positions less than a lap apart never share a slot. */
  lemma {:induction false} SlotsDistinct(p: nat, q: nat, size: nat)
    requires 0 < size && p < q < p + size
    ensures Off(p, size) != Off(q, size)
    decreases p
  {
    if p >= size {
      SlotsDistinct(p - size, q - size, size);
    }
  }

  /** The code tells positions apart as long as they are less than two laps apart. */
  lemma {:induction false} AtDistinct(p: nat, q: nat, size: nat)
    requires 0 < size && p < q < p + 2 * size
    ensures At(p, size) != At(q, size)
    decreases p
  {
    if p >= size {
      AtDistinct(p - size, q - size, size);
    } else if q == p + size {
      assert Wrap(q, size) == !Wrap(p, size);
    } else if q > p + size {
      SlotsDistinct(p, q - size, size);
    } else {
      SlotsDistinct(p, q, size);
    }
  }

  /** The split ring's code of a position. */
  function U16(p: nat): nat {
    p % U16_SPAN
  }

  /** `u16::wrapping_sub(1)`. */
  function U16Dec(x: nat): nat {
    (x + (U16_SPAN - 1)) % U16_SPAN
  }

  lemma U16Next(p: nat)
    ensures (U16(p) + 1) % U16_SPAN == U16(p + 1)
  {
  }

  /** The code tells counters apart as long as they are less than 2^16 apart. */
  lemma U16Distinct(p: nat, q: nat)
    requires p <= q < p + U16_SPAN
    ensures U16(p) == U16(q) <==> p == q
  {
  }

  /** Bitwise and of two unsigned integers. */
  function BitAnd(x: nat, y: nat): nat {
    if x == 0 || y == 0 then 0
    else 2 * BitAnd(x / 2, y / 2) + (if x % 2 == 1 && y % 2 == 1 then 1 else 0)
  }

  ghost predicate PowerOfTwo(n: nat) {
    n == 1 || (n > 1 && n % 2 == 0 && PowerOfTwo(n / 2))
  }

  lemma {:induction false} OffDoubles(p: nat, size: nat)
    requires size > 0
    ensures Off(p, 2 * size) == 2 * Off(p / 2, size) + p % 2
    decreases p
  {
    if p >= 2 * size {
      OffDoubles(p - 2 * size, size);
      assert (p - 2 * size) / 2 == p / 2 - size;
    }
  }

  /** Masking with `size - 1` is reduction modulo a power-of-two `size`. */
  lemma {:induction false} MaskIsOff(x: nat, size: nat)
    requires PowerOfTwo(size)
    ensures BitAnd(x, size - 1) == Off(x, size)
    decreases size
  {
    if size == 1 {
      OffOne(x);
    } else {
      var half := size / 2;
      assert (size - 1) / 2 == half - 1 && (size - 1) % 2 == 1;
      MaskIsOff(x / 2, half);
      OffDoubles(x, half);
      if x == 0 {
        assert Off(0, size) == 0;
      } else {
        assert BitAnd(x, size - 1) == 2 * BitAnd(x / 2, half - 1) + x % 2;
      }
    }
  }

  lemma {:induction false} OffOne(x: nat)
    ensures Off(x, 1) == 0
    decreases x
  {
    if x >= 1 {
      OffOne(x - 1);
    }
  }

  lemma {:induction false} LapsKeepSlot(size: nat, laps: nat, p: nat)
    requires size > 0
    ensures Off(p + laps * size, size) == Off(p, size)
    decreases laps
  {
    if laps > 0 {
      assert laps * size == (laps - 1) * size + size;
      LapsKeepSlot(size, laps - 1, p);
    }
  }

  /** A power of two up to 2^15 divides the span of the split index. */
  lemma {:induction false} DividesSpan(size: nat, span: nat) returns (laps: nat)
    requires PowerOfTwo(size) && PowerOfTwo(span) && size <= span
    ensures laps * size == span
    decreases size
  {
    if size == 1 {
      laps := span;
    } else {
      laps := DividesSpan(size / 2, span / 2);
      assert laps * size == 2 * (laps * (size / 2));
    }
  }

  lemma SpanIsPowerOfTwo()
    ensures PowerOfTwo(U16_SPAN)
  {
    assert PowerOfTwo(16);
    assert PowerOfTwo(128);
    assert PowerOfTwo(1024);
    assert PowerOfTwo(8192);
  }

  lemma SpanLaps(p: nat, k: nat, laps: nat, size: nat)
    requires size > 0 && laps * size == U16_SPAN
    ensures Off(p + k * U16_SPAN, size) == Off(p, size)
  {
    assert k * U16_SPAN == (k * laps) * size;
    LapsKeepSlot(size, k * laps, p);
  }

  lemma LapsOfSpan(p: nat)
    ensures p == U16(p) + (p / U16_SPAN) * U16_SPAN
  {
  }

  lemma PowerPositive(size: nat)
    requires PowerOfTwo(size)
    ensures size > 0
  {
  }

  /** Masking the stored 16-bit index finds the same slot as masking the unbounded counter. */
  lemma MaskRefines(p: nat, size: nat)
    requires PowerOfTwo(size) && size <= U16_SPAN
    ensures BitAnd(U16(p), size - 1) == Off(p, size)
  {
    hide BitAnd, Off, PowerOfTwo, U16;
    PowerPositive(size);
    SpanIsPowerOfTwo();
    MaskIsOff(U16(p), size);
    var laps := DividesSpan(size, U16_SPAN);
    LapsOfSpan(p);
    SpanLaps(U16(p), p / U16_SPAN, laps, size);
  }
}
