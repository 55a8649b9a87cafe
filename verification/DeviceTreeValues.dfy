/**
 Property values as a client of the Devicetree Specification v0.4 reads them, section 2.2.4: what the
 bytes of a property say, value by value, without reference to how they were written.
 */
module DeviceTreeValues {
  import opened Bytes
  import opened Lists
  import opened DeviceTree

  /** The big-endian 64-bit number at `p`. */
  function Quad(b: seq<byte>, p: nat): nat
    requires p + 8 <= |b|
  {
    Word(b, p) * U32_SPAN + Word(b, p + 4)
  }

  ghost predicate WordIs(raw: seq<byte>, p: nat, n: nat) {
    p + 4 <= |raw| && Word(raw, p) == n
  }

  ghost predicate QuadIs(raw: seq<byte>, p: nat, n: nat) {
    p + 8 <= |raw| && Quad(raw, p) == n
  }

  /** A string and the NUL after it. */
  ghost predicate IsCString(raw: seq<byte>, s: Name) {
    |raw| == |s| + 1 && raw[..|s|] == s && raw[|s|] == 0
  }

  ghost predicate AreCStrings(parts: seq<seq<byte>>, list: seq<Name>) {
    |parts| == |list| && forall i :: 0 <= i < |list| ==> IsCString(parts[i], list[i])
  }

  /** Strings one after another, each with its NUL, in order. */
  ghost predicate StringsAre(raw: seq<byte>, list: seq<Name>) {
    exists parts :: AreCStrings(parts, list) && Joined<byte>(parts, raw)
  }

  /** What a client reads in the bytes of a property. */
  ghost predicate Spells(raw: seq<byte>, v: PropVal) {
    match v
    case Empty => raw == []
    case U32(n) => |raw| == 4 && WordIs(raw, 0, n)
    case PHandle(n) => |raw| == 4 && WordIs(raw, 0, n)
    case U64(n) => |raw| == 8 && QuadIs(raw, 0, n)
    case OwnedStr(s) => IsCString(raw, s)
    case StaticStr(s) => IsCString(raw, s)
    case StringList(list) => StringsAre(raw, list)
    case U32List(words) => |raw| == 4 * |words| && forall k :: 0 <= k < |words| ==> WordIs(raw, 4 * k, words[k])
    case U64List(words) => |raw| == 8 * |words| && forall k :: 0 <= k < |words| ==> QuadIs(raw, 8 * k, words[k])
    case Bytes(d) => raw == d
  }

  lemma WordAfter(a: seq<byte>, n: nat, p: nat)
    requires n < U32_SPAN && p == |a|
    ensures WordIs(a + Be32(n), p, n)
  {
    hide Word, Be32;
    var b := a + Be32(n);
    assert b[p..p + 4] == Be32(n);
    Be32Word(n, b, p);
  }

  lemma WordKept(a: seq<byte>, more: seq<byte>, p: nat, n: nat)
    requires WordIs(a, p, n)
    ensures WordIs(a + more, p, n)
  {
  }

  lemma QuadAfter(a: seq<byte>, n: nat, p: nat)
    requires n < U64_SPAN && p == |a|
    ensures QuadIs(a + Be64(n), p, n)
  {
    hide Word, Be32;
    var hi, lo := n / U32_SPAN, n % U32_SPAN;
    WordAfter(a, hi, p);
    WordKept(a + Be32(hi), Be32(lo), p, hi);
    WordAfter(a + Be32(hi), lo, p + 4);
    assert a + Be64(n) == a + Be32(hi) + Be32(lo);
  }

  lemma QuadKept(a: seq<byte>, more: seq<byte>, p: nat, n: nat)
    requires QuadIs(a, p, n)
    ensures QuadIs(a + more, p, n)
  {
    hide Word;
    WordKept(a, more, p, Word(a, p));
    WordKept(a, more, p + 4, Word(a, p + 4));
  }

  lemma {:induction false} Words32Read(words: seq<nat>, k: nat)
    requires (forall i :: 0 <= i < |words| ==> words[i] < U32_SPAN) && k < |words|
    ensures WordIs(Words32(words), 4 * k, words[k])
    decreases |words|
  {
    hide WordIs, Be32;
    var n := |words| - 1;
    if k == n {
      Words32Length(words[..n]);
      WordAfter(Words32(words[..n]), words[n], 4 * n);
    } else {
      Words32Read(words[..n], k);
      WordKept(Words32(words[..n]), Be32(words[n]), 4 * k, words[k]);
    }
  }

  lemma {:induction false} Words64Read(words: seq<nat>, k: nat)
    requires (forall i :: 0 <= i < |words| ==> words[i] < U64_SPAN) && k < |words|
    ensures QuadIs(Words64(words), 8 * k, words[k])
    decreases |words|
  {
    hide QuadIs, Be64;
    var n := |words| - 1;
    if k == n {
      Words64Length(words[..n]);
      QuadAfter(Words64(words[..n]), words[n], 8 * n);
    } else {
      Words64Read(words[..n], k);
      QuadKept(Words64(words[..n]), Be64(words[n]), 8 * k, words[k]);
    }
  }

  function CStrings(list: seq<Name>): (parts: seq<seq<byte>>)
    ensures |parts| == |list|
  {
    seq(|list|, i requires 0 <= i < |list| => list[i] + [0])
  }

  lemma {:induction false} TerminatedJoins(list: seq<Name>)
    ensures Joined<byte>(CStrings(list), Terminated(list))
    decreases |list|
  {
    hide Joined;
    if list == [] {
      JoinedNone<byte>();
      assert CStrings(list) == [];
    } else {
      var n := |list| - 1;
      TerminatedJoins(list[..n]);
      JoinedMore<byte>(CStrings(list[..n]), Terminated(list[..n]), list[n] + [0]);
      assert CStrings(list) == CStrings(list[..n]) + [list[n] + [0]];
      assert Terminated(list) == Terminated(list[..n]) + (list[n] + [0]);
    }
  }

  /** Every value reads back from its bytes. */
  lemma ValueSpells(v: PropVal)
    requires Fits(v)
    ensures Spells(Value(v), v)
  {
    hide Be32, Be64, Words32, Words64, Terminated, WordIs, QuadIs, Joined;
    match v
    case U32(n) => WordAlone(n);
    case PHandle(n) => WordAlone(n);
    case U64(n) =>
      QuadAfter([], n, 0);
      assert [] + Be64(n) == Be64(n);
    case U32List(words) =>
      Words32Length(words);
      forall k | 0 <= k < |words| ensures WordIs(Words32(words), 4 * k, words[k]) {
        Words32Read(words, k);
      }
    case U64List(words) =>
      Words64Length(words);
      forall k | 0 <= k < |words| ensures QuadIs(Words64(words), 8 * k, words[k]) {
        Words64Read(words, k);
      }
    case StringList(list) =>
      TerminatedJoins(list);
      assert AreCStrings(CStrings(list), list);
    case _ =>
  }

  lemma WordAlone(n: nat)
    requires n < U32_SPAN
    ensures WordIs(Be32(n), 0, n)
  {
    hide Be32, WordIs;
    WordAfter([], n, 0);
    assert [] + Be32(n) == Be32(n);
  }
}
