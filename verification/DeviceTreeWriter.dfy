/**
 The writer as it works: one growing byte vector, and a hash map of property names to
 their offsets in the strings block that is written at the end.
 */
module DeviceTreeWriter {
  import opened Bytes
  import opened DeviceTree
  import opened DeviceTreeValues
  import opened DeviceTreeTheorems

  class Writer {
    var data: seq<byte>
    var total: nat
    var strings: map<Name, nat>
    ghost var names: seq<Name>  // in order of entry

    ghost predicate Valid()
      reads this`total, this`strings, this`names
    {
      && (forall n :: n in strings <==> n in names)
      && (forall n :: n in strings ==> strings[n] == Offset(names, n))
      && total == SumLengths(names)
      && (forall i, j :: 0 <= i < j < |names| ==> names[i] != names[j])
    }

    constructor ()
      ensures Valid() && data == [] && names == []
    {
      data, total, strings, names := [], 0, map[], [];
    }

    method Extend(b: seq<byte>)
      modifies this`data
      ensures data == old(data) + b
    {
      data := data + b;
    }

    method PushZeros(n: nat)
      modifies this`data
      ensures data == old(data) + Zeros(n)
    {
      for i := 0 to n
        invariant data == old(data) + Zeros(i)
      {
        data := data + [0];
        assert Zeros(i) + [0] == Zeros(i + 1);
        assert old(data) + Zeros(i) + [0] == old(data) + (Zeros(i) + [0]);
      }
    }

    /** `push_string_align`: padding counted from the start of the string. */
    method PushStringAlign(s: Name)
      modifies this`data
      ensures data == old(data) + Padded(s + [0])
    {
      data := data + s;
      PushZeros(AlignUp(|s| + 1) - |s|);
      assert s + Zeros(AlignUp(|s| + 1) - |s|) == Padded(s + [0]);
      assert old(data) + s + Zeros(AlignUp(|s| + 1) - |s|) == old(data) + (s + Zeros(AlignUp(|s| + 1) - |s|));
    }

    /** `pad_data`: padding counted from the start of the vector. */
    method PadData(ghost start: nat)
      requires start <= |data| && start % 4 == 0
      modifies this`data
      ensures data == old(data)[..start] + Padded(old(data)[start..])
    {
      AlignShift(start, |data| - start);
      PushZeros(AlignUp(|data|) - |data|);
      assert data == old(data)[..start] + Padded(old(data)[start..]);
    }

    /** `StringBlock::add`. */
    method AddName(name: Name) returns (offset: nat)
      requires Valid()
      modifies this`total, this`strings, this`names
      ensures Valid() && names == Entered(old(names), name)
      ensures name in names && offset == Offset(names, name)
    {
      if name in strings {
        offset := strings[name];
      } else {
        offset := total;
        strings := strings[name := total];
        total := total + |name| + 1;
        EnterNew(names, name);
        names := names + [name];
      }
    }

    /** `PropVal::write_as_blob`. */
    method WriteValue(v: PropVal)
      requires Fits(v) && |data| % 4 == 0
      modifies this`data
      ensures data == old(data) + Padded(Value(v)) && Spells(Value(v), v)
    {
      ValueSpells(v);
      hide Spells;
      ghost var start := |data|;
      match v {
        case Empty =>
          assert Padded([]) == [];
        case U32(n) =>
          Extend(Be32(n));
          assert Padded(Be32(n)) == Be32(n);
        case PHandle(n) =>
          Extend(Be32(n));
          assert Padded(Be32(n)) == Be32(n);
        case U64(n) =>
          Extend(Be64(n));
          assert Padded(Be64(n)) == Be64(n);
        case OwnedStr(s) => PushStringAlign(s);
        case StaticStr(s) => PushStringAlign(s);
        case Bytes(d) =>
          Extend(d);
          PadData(start);
        case StringList(list) => WriteStrings(list);
        case U32List(words) => WriteWords32(words);
        case U64List(words) => WriteWords64(words);
      }
    }

    method WriteStrings(list: seq<Name>)
      requires |data| % 4 == 0
      modifies this`data
      ensures data == old(data) + Padded(Terminated(list))
    {
      ghost var start := |data|;
      for i := 0 to |list|
        invariant data == old(data) + Terminated(list[..i])
      {
        assert list[..i + 1][..i] == list[..i];
        data := data + list[i];
        data := data + [0];
      }
      assert list[..|list|] == list;
      PadData(start);
    }

    method WriteWords32(words: seq<nat>)
      requires forall i :: 0 <= i < |words| ==> words[i] < U32_SPAN
      modifies this`data
      ensures data == old(data) + Padded(Words32(words))
    {
      for i := 0 to |words|
        invariant data == old(data) + Words32(words[..i])
      {
        assert words[..i + 1][..i] == words[..i];
        data := data + Be32(words[i]);
      }
      assert words[..|words|] == words;
      Words32Length(words);
      assert Padded(Words32(words)) == Words32(words);
    }

    method WriteWords64(words: seq<nat>)
      requires forall i :: 0 <= i < |words| ==> words[i] < U64_SPAN
      modifies this`data
      ensures data == old(data) + Padded(Words64(words))
    {
      hide Words64, Be64, Padded;
      Words64None(words);
      for i := 0 to |words|
        invariant data == old(data) + Words64(words[..i])
      {
        Words64More(words, i);
        data := data + Be64(words[i]);
      }
      assert words[..|words|] == words;
      Words64Padded(words);
    }
  
    method WriteProp(p: Prop)
      requires Valid() && PropFits(p) && |data| % 4 == 0
      modifies this
      ensures Valid() && data == old(data) + PropOut(old(names), p).bytes && names == PropOut(old(names), p).names
    {
      hide Fits, Value, Size, Valid, Be32, Low32, Offset, Padded, AlignUp;
      data := data + PROP;
      var offset := AddName(p.name);
      data := data + Be32(Low32(Size(p.val))) + Be32(Low32(offset));
      WriteValue(p.val);
      ghost var head := PROP + Be32(Low32(Size(p.val))) + Be32(Low32(offset));
      assert data == old(data) + (head + Padded(Value(p.val)));
    }

    /** The first loop of `Node::write_as_blob`. */
    method WriteProps(props: seq<Prop>)
      requires Valid() && |data| % 4 == 0 && forall i :: 0 <= i < |props| ==> PropFits(props[i])
      modifies this
      ensures Valid() && |data| % 4 == 0
      ensures data == old(data) + PropsOut(old(names), props).bytes && names == PropsOut(old(names), props).names
    {
      hide PropOut, PropsOut, PropFits, Valid;
      ghost var start, before := data, names;
      PropsNamesGrow(before, props);
      NoProps(before);
      for i := 0 to |props|
        invariant Valid()
        invariant data == start + PropsOut(before, props[..i]).bytes && names == PropsOut(before, props[..i]).names
      {
        PropsNamesGrow(before, props[..i]);
        PropsSnoc(before, props, i);
        WriteProp(props[i]);
      }
      assert props[..|props|] == props;
    }

    /** `Node::write_as_blob`. */
    method WriteNode(node: Node, name: Name)
      requires Valid() && NodeFits(node) && |data| % 4 == 0
      modifies this
      ensures Valid()
      ensures data == old(data) + NodeOut(old(names), name, node).bytes
              && names == NodeOut(old(names), name, node).names
      decreases node
    {
      hide PropOut, PropsOut, NodesOut, PropFits, Valid, AlignUp, Padded;
      data := data + BEGIN_NODE;
      PushStringAlign(name);
      PaddedAligned(name + [0]);
      ghost var before := names;
      WriteProps(node.props);
      ghost var middle, entered := data, names;
      NoNodes(entered);
      for i := 0 to |node.nodes|
        invariant Valid()
        invariant data == middle + NodesOut(entered, node.nodes[..i]).bytes
                  && names == NodesOut(entered, node.nodes[..i]).names
      {
        NodesOutGrows(entered, node.nodes[..i]);
        NodesSnoc(entered, node.nodes, i);
        WriteNode(node.nodes[i].node, node.nodes[i].name);
      }
      assert node.nodes[..|node.nodes|] == node.nodes;
      data := data + END_NODE;
      Together(old(data), BEGIN_NODE, Padded(name + [0]), PropsOut(before, node.props).bytes,
          NodesOut(entered, node.nodes).bytes, END_NODE);
    }

    /** `StringBlock::write_as_blob`: the names in order of their offsets. */
    method WriteBlock()
      requires Valid() && |data| % 4 == 0
      modifies this`data
      ensures data == old(data) + Padded(Terminated(names))
    {
      hide AlignUp, Padded, Offset, Terminated, SumLengths;
      ghost var start, k := |data|, 0;
      var pos := 0;
      NoneWritten(names);
      while pos < total
        invariant 0 <= k <= |names| && pos == SumLengths(names[..k])
        invariant data == old(data) + Terminated(names[..k])
        invariant pos < total ==> k < |names|
        decreases |names| - k
      {
        OffsetOfIndex(names, k);
        assert names[k] in strings && strings[names[k]] == pos;
        var s :| s in strings && strings[s] == pos;
        OffsetInjective(names, s, names[k]);
        data := data + s + [0];
        pos := pos + |s| + 1;
        NextWritten(names, k);
        k := k + 1;
        if k == |names| { assert names[..k] == names; }
      }
      SumBelow(names, k);
      assert names[..|names|] == names;
      assert data[..start] == old(data) && data[start..] == Terminated(names);
      PadData(start);
    }

    method WriteReserved(reserved: seq<Reserve>)
      requires forall i :: 0 <= i < |reserved| ==> ReserveFits(reserved[i])
      modifies this`data
      ensures data == old(data) + ReserveOut(reserved) + Zeros(16)
    {
      hide Be64;
      for i := 0 to |reserved|
        invariant data == old(data) + ReserveOut(reserved[..i])
      {
        assert reserved[..i + 1][..i] == reserved[..i];
        assert ReserveFits(reserved[i]);
        data := data + Be64(reserved[i].addr) + Be64(reserved[i].size);
      }
      assert reserved[..|reserved|] == reserved;
      PushZeros(16);
    }

    /** Everything after the header; where the structure and the strings start. */
    method WriteBody(t: Tree) returns (structAt: nat, stringsAt: nat)
      requires TreeFits(t) && Valid() && names == [] && |data| % 4 == 0
      modifies this
      ensures data == old(data) + Body(t)
      ensures structAt == |old(data)| + 16 * |t.reserved| + 16 && stringsAt == structAt + |Structure(t).bytes|
    {
      hide NodeOut, Terminated, AlignUp, Fits, Padded, ReserveOut, Valid, NodeFits, Body, Structure, Strings;
      WriteReserved(t.reserved);
      structAt := |data|;
      BodyWritten(t, old(data));
      FoursAdd(|old(data)|, |ReserveOut(t.reserved)|, 16);
      WriteNode(t.root, []);
      data := data + END;
      FoursAdd(structAt, |NodeOut([], [], t.root).bytes|, |END|);
      stringsAt := |data|;
      WriteBlock();
    }

    /** `DeviceTree::to_blob`; the header is written last, over the space kept for it. */
    method ToBlob(t: Tree)
      requires TreeFits(t) && Valid() && data == [] && names == []
      modifies this
      ensures data == Blob(t)
    {
      hide Body, Structure, Strings, Be32, Low32, Header, Valid, TreeFits;
      PushZeros(HEADER_SIZE);
      var mapAt := |data|;
      var structAt, stringsAt := WriteBody(t);
      var structSize, stringsSize := stringsAt - structAt, |data| - stringsAt;
      BodyLength(t);
      FitsCpu(t);
      var header := MAGIC_BYTES + Be32(Low32(|data|)) + Be32(Low32(structAt)) + Be32(Low32(stringsAt))
          + Be32(Low32(mapAt))
        + Be32(0x11) + Be32(0x10) + Be32(t.bootCpu) + Be32(Low32(stringsSize)) + Be32(Low32(structSize));
      HeaderIs(t);
      assert data[HEADER_SIZE..] == Body(t);
      data := header + data[HEADER_SIZE..];
    }
  }

  lemma BodyTogether(first: seq<byte>, a: seq<byte>, b: seq<byte>, c: seq<byte>, d: seq<byte>, e: seq<byte>)
    ensures first + a + b + c + d + e == first + (a + b + (c + d) + e)
  {
  }

  lemma BodyWritten(t: Tree, first: seq<byte>)
    requires TreeFits(t)
    ensures var root := NodeOut([], [], t.root);
            first + ReserveOut(t.reserved) + Zeros(16) + root.bytes + END + Padded(Terminated(root.names))
              == first + Body(t)
    ensures |Structure(t).bytes| == |NodeOut([], [], t.root).bytes| + 4
    ensures |ReserveOut(t.reserved)| % 4 == 0 && |NodeOut([], [], t.root).bytes| % 4 == 0
  {
    hide NodeOut, Terminated, AlignUp, Padded, ReserveOut, NodeFits;
    var root := NodeOut([], [], t.root);
    NodeOutGrows([], [], t.root);
    BodyTogether(first, ReserveOut(t.reserved), Zeros(16), root.bytes, END, Strings(t));
  }

  lemma FoursAdd(a: nat, b: nat, c: nat)
    requires a % 4 == 0 && b % 4 == 0 && c % 4 == 0
    ensures (a + b + c) % 4 == 0
  {
  }

  lemma BodyLength(t: Tree)
    requires TreeFits(t)
    ensures |Body(t)| == 16 * |t.reserved| + 16 + |Structure(t).bytes| + |Strings(t)|
  {
    hide Structure, Strings, ReserveOut;
  }

  lemma FitsCpu(t: Tree)
    requires TreeFits(t)
    ensures t.bootCpu < U32_SPAN
  {
  }

  lemma HeaderIs(t: Tree)
    requires TreeFits(t)
    ensures var structure := HEADER_SIZE + 16 * |t.reserved| + 16;
            Header(t) == MAGIC_BYTES + Be32(Low32(HEADER_SIZE + |Body(t)|)) + Be32(Low32(structure))
              + Be32(Low32(structure + |Structure(t).bytes|)) + Be32(Low32(HEADER_SIZE))
              + Be32(0x11) + Be32(0x10) + Be32(t.bootCpu) + Be32(Low32(|Strings(t)|))
                  + Be32(Low32(|Structure(t).bytes|))
  {
    hide Structure, Strings, Body, Be32;
    LowKeeps(HEADER_SIZE);
  }

  lemma Together(first: seq<byte>, a: seq<byte>, b: seq<byte>, c: seq<byte>, d: seq<byte>, e: seq<byte>)
    ensures first + a + b + c + d + e == first + (a + b + c + d + e)
  {
  }

  lemma PaddedAligned(b: seq<byte>)
    ensures |Padded(b)| % 4 == 0
  {
  }

  lemma NoProps(names: seq<Name>)
    ensures PropsOut(names, []) == Out([], names)
  {
  }

  lemma {:induction false} PropsSnoc(names: seq<Name>, props: seq<Prop>, i: nat)
    requires i < |props| && forall k :: 0 <= k < |props| ==> PropFits(props[k])
    ensures var a := PropsOut(names, props[..i]);
            var b := PropOut(a.names, props[i]);
            PropsOut(names, props[..i + 1]) == Out(a.bytes + b.bytes, b.names)
    decreases i
  {
    hide PropOut;
    if i > 0 {
      var head := PropOut(names, props[0]);
      assert props[..i][1..] == props[1..][..i - 1] && props[..i + 1][1..] == props[1..][..i];
      PropsSnoc(head.names, props[1..], i - 1);
    } else {
      assert props[..1][1..] == [] && props[..0] == [];
    }
  }

  lemma {:induction false} NodesSnoc(names: seq<Name>, nodes: seq<Child>, i: nat)
    requires i < |nodes| && forall k :: 0 <= k < |nodes| ==> NodeFits(nodes[k].node)
    ensures var a := NodesOut(names, nodes[..i]);
            var b := NodeOut(a.names, nodes[i].name, nodes[i].node);
            NodesOut(names, nodes[..i + 1]) == Out(a.bytes + b.bytes, b.names)
    decreases i
  {
    hide NodeOut;
    if i > 0 {
      var head := NodeOut(names, nodes[0].name, nodes[0].node);
      assert nodes[..i][1..] == nodes[1..][..i - 1] && nodes[..i + 1][1..] == nodes[1..][..i];
      NodesSnoc(head.names, nodes[1..], i - 1);
    } else {
      assert nodes[..1][1..] == [] && nodes[..0] == [];
    }
  }

  /** With distinct names, each lies where the ones before it end. */
  lemma {:induction false} OffsetOfIndex(names: seq<Name>, k: nat)
    requires k < |names| && forall i, j :: 0 <= i < j < |names| ==> names[i] != names[j]
    ensures Offset(names, names[k]) == SumLengths(names[..k])
    decreases |names|
  {
    var n := |names| - 1;
    if k < n {
      assert names[..n][..k] == names[..k];
      OffsetOfIndex(names[..n], k);
    }
  }

  lemma {:induction false} SumGrows(names: seq<Name>, i: nat, j: nat)
    requires i < j <= |names|
    ensures SumLengths(names[..i]) < SumLengths(names[..j])
    decreases j
  {
    assert names[..j][..j - 1] == names[..j - 1];
    if i < j - 1 { SumGrows(names, i, j - 1); }
  }

  lemma OffsetInjective(names: seq<Name>, a: Name, b: Name)
    requires forall i, j :: 0 <= i < j < |names| ==> names[i] != names[j]
    requires a in names && b in names && Offset(names, a) == Offset(names, b)
    ensures a == b
  {
    var i :| 0 <= i < |names| && names[i] == a;
    var j :| 0 <= j < |names| && names[j] == b;
    OffsetOfIndex(names, i);
    OffsetOfIndex(names, j);
    if i < j { SumGrows(names, i, j); } else if j < i { SumGrows(names, j, i); }
  }

  lemma NoneWritten(names: seq<Name>)
    ensures SumLengths(names[..0]) == 0 && Terminated(names[..0]) == [] && (SumLengths(names) > 0 ==> names != [])
  {
  }

  lemma NextWritten(names: seq<Name>, k: nat)
    requires k < |names|
    ensures SumLengths(names[..k + 1]) == SumLengths(names[..k]) + |names[k]| + 1
    ensures Terminated(names[..k + 1]) == Terminated(names[..k]) + names[k] + [0]
  {
    assert names[..k + 1][..k] == names[..k];
  }

  lemma SumBelow(names: seq<Name>, k: nat)
    requires k <= |names| && SumLengths(names[..k]) >= SumLengths(names)
    ensures k == |names|
  {
    assert names[..|names|] == names;
    if k < |names| { SumGrows(names, k, |names|); }
  }

  /** A new name goes to the end of the block and moves no other. */
  lemma EnterNew(names: seq<Name>, name: Name)
    requires name !in names
    ensures Offset(names + [name], name) == SumLengths(names)
            && SumLengths(names + [name]) == SumLengths(names) + |name| + 1
    ensures forall n :: n in names ==> Offset(names + [name], n) == Offset(names, n)
  {
    assert (names + [name])[..|names|] == names;
  }

  lemma Words64None(words: seq<nat>)
    ensures Words64(words[..0]) == []
  {
  }

  lemma Words64More(words: seq<nat>, i: nat)
    requires i < |words| && forall k :: 0 <= k < |words| ==> words[k] < U64_SPAN
    ensures Words64(words[..i + 1]) == Words64(words[..i]) + Be64(words[i])
  {
    assert words[..i + 1][..i] == words[..i];
  }

  lemma Words64Padded(words: seq<nat>)
    requires forall k :: 0 <= k < |words| ==> words[k] < U64_SPAN
    ensures Padded(Words64(words)) == Words64(words)
  {
    hide Words64;
    Words64Length(words);
    PaddedWhole(Words64(words), 2 * |words|);
  }

  lemma PaddedWhole(b: seq<byte>, n: nat)
    requires |b| == 4 * n
    ensures Padded(b) == b
  {
    assert AlignUp(|b|) == |b|;
  }
}
