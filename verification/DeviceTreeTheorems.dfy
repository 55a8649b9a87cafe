/**
 Reading back what was written: the round trip of device trees.
 */
module DeviceTreeTheorems {
  import opened Bytes
  import opened DeviceTree
  import opened DeviceTreeReader
  import opened DeviceTreeValues

  // ------------------------------------------------------------ placing byte strings

  ghost predicate At(b: seq<byte>, p: nat, x: seq<byte>) {
    p + |x| <= |b| && b[p..p + |x|] == x
  }

  lemma AtSplit(b: seq<byte>, p: nat, x: seq<byte>, y: seq<byte>)
    requires At(b, p, x + y)
    ensures At(b, p, x) && At(b, p + |x|, y)
  {
    assert (x + y)[..|x|] == x && (x + y)[|x|..] == y;
    assert b[p..p + |x|] == b[p..p + |x + y|][..|x|];
    assert b[p + |x|..p + |x| + |y|] == b[p..p + |x + y|][|x|..];
  }

  lemma AtPrefix(b: seq<byte>, p: nat, x: seq<byte>, y: seq<byte>)
    requires At(b, p, y) && x <= y
    ensures At(b, p, x)
  {
    assert y == x + y[|x|..];
    AtSplit(b, p, x, y[|x|..]);
  }

  lemma AtInside(b: seq<byte>, s: nat, x: seq<byte>, o: nat, y: seq<byte>)
    requires At(b, s, x) && At(x, o, y)
    ensures At(b, s + o, y)
  {
    var rest := x[o + |y|..];
    assert x == x[..o] + (y + rest);
    AtSplit(b, s, x[..o], y + rest);
    AtSplit(b, s + o, y, rest);
  }

  lemma AtByte(b: seq<byte>, p: nat, x: seq<byte>, i: nat)
    requires At(b, p, x) && i < |x|
    ensures p + i < |b| && b[p + i] == x[i]
  {
    assert b[p + i] == b[p..p + |x|][i];
  }

  lemma AtWord(b: seq<byte>, p: nat, n: nat)
    requires n < U32_SPAN && At(b, p, Be32(n))
    ensures Token(b, p) == n && p + 4 <= |b| && Word(b, p) == n
  {
    Be32Word(n, b, p);
  }

  lemma AtToken(b: seq<byte>, p: nat, t: byte)
    requires At(b, p, [0, 0, 0, t])
    ensures Token(b, p) == t
  {
    AtByte(b, p, [0, 0, 0, t], 0);
    AtByte(b, p, [0, 0, 0, t], 1);
    AtByte(b, p, [0, 0, 0, t], 2);
    AtByte(b, p, [0, 0, 0, t], 3);
  }

  // ------------------------------------------------------------------------ strings

  predicate NulFree(name: Name) {
    forall i :: 0 <= i < |name| ==> name[i] != 0
  }

  lemma {:induction false} CStrReads(b: seq<byte>, p: nat, name: Name)
    requires NulFree(name) && At(b, p, name + [0])
    ensures CStr(b, p) == Ok(name, p + |name| + 1)
    decreases |name|
  {
    AtByte(b, p, name + [0], 0);
    if name != [] {
      assert name + [0] == [name[0]] + (name[1..] + [0]);
      AtSplit(b, p, [name[0]], name[1..] + [0]);
      CStrReads(b, p + 1, name[1..]);
      assert name == [name[0]] + name[1..];
    }
  }

  /** A name keeps its offset when more names are entered. */
  lemma {:induction false} OffsetStable(names: seq<Name>, all: seq<Name>, name: Name)
    requires name in names && names <= all
    ensures name in all && Offset(all, name) == Offset(names, name)
    decreases |all|
  {
    if |all| > |names| {
      assert names <= all[..|all| - 1];
      OffsetStable(names, all[..|all| - 1], name);
    } else {
      assert all == names;
    }
  }

  /** At its offset in the block, a name is there with its terminator. */
  lemma {:induction false} NameAtOffset(names: seq<Name>, name: Name)
    requires name in names
    ensures At(Terminated(names), Offset(names, name), name + [0])
    decreases |names|
  {
    hide Terminated, Offset, At;
    var n := |names| - 1;
    var init := names[..n];
    LastName(names, name);
    if name in init {
      NameAtOffset(init, name);
      AtLonger(Terminated(init), Offset(init, name), name + [0], names[n] + [0]);
    } else {
      AtEnd(Terminated(init), name + [0]);
    }
  }

  /** The last name's place in the block. */
  lemma LastName(names: seq<Name>, name: Name)
    requires name in names
    ensures var n := |names| - 1;
            && Terminated(names) == Terminated(names[..n]) + (names[n] + [0])
            && (name in names[..n] ==> Offset(names, name) == Offset(names[..n], name))
            && (name !in names[..n] ==> names[n] == name && Offset(names, name) == |Terminated(names[..n])|)
  {
    var n := |names| - 1;
    TerminatedLength(names[..n]);
    assert Terminated(names) == Terminated(names[..n]) + (names[n] + [0]);
  }

  lemma AtLonger(b: seq<byte>, p: nat, part: seq<byte>, more: seq<byte>)
    requires At(b, p, part)
    ensures At(b + more, p, part)
  {
    assert (b + more)[p..p + |part|] == b[p..p + |part|];
  }

  lemma AtEnd(b: seq<byte>, part: seq<byte>)
    ensures At(b + part, |b|, part)
  {
    assert (b + part)[|b|..|b| + |part|] == part;
  }

  /** The strings block with these names lies at `s`. */
  ghost predicate Block(b: seq<byte>, s: nat, names: seq<Name>) {
    At(b, s, Terminated(names)) && s + |Terminated(names)| < U32_SPAN
  }

  /** Deduplicated or not, a property's name is found at the offset written for it. */
  lemma NameFound(b: seq<byte>, s: nat, names: seq<Name>, all: seq<Name>, name: Name)
    requires Block(b, s, all) && name in names && names <= all && NulFree(name)
    ensures Low32(Offset(names, name)) == Offset(names, name)
    ensures CStr(b, s + Offset(names, name)).Ok? && CStr(b, s + Offset(names, name)).value == name
  {
    OffsetStable(names, all, name);
    NameAtOffset(all, name);
    hide Offset, CStr, Terminated;
    var o := Offset(all, name);
    AtInside(b, s, Terminated(all), o, name + [0]);
    CStrReads(b, s + o, name);
  }

  // ---------------------------------------------------------------------- properties

  /** What a reader should see of a property. */
  function RawOf(p: Prop): RawProp
    requires PropFits(p)
  {
    RawProp(p.name, Value(p.val))
  }

  function RawProps(props: seq<Prop>): seq<RawProp>
    requires forall i :: 0 <= i < |props| ==> PropFits(props[i])
  {
    seq(|props|, i requires 0 <= i < |props| => RawOf(props[i]))
  }

  lemma PropOutAligned(names: seq<Name>, p: Prop)
    requires PropFits(p)
    ensures |PropOut(names, p).bytes| == 12 + AlignUp(|Value(p.val)|)
    ensures names <= PropOut(names, p).names
    ensures |PropOut(names, p).bytes| % 4 == 0
  {
    hide Value, Size, Be32, Low32, Offset, Fits;
  }

  lemma PropReads(b: seq<byte>, p: nat, s: nat, names: seq<Name>, all: seq<Name>, prop: Prop)
    requires PropFits(prop) && NulFree(prop.name) && p % 4 == 0
    requires At(b, p, PropOut(names, prop).bytes) && Block(b, s, all) && PropOut(names, prop).names <= all
             && |b| < U32_SPAN
    ensures Token(b, p) == PROP_TOKEN && p < |b|
    ensures ReadProp(b, p, s) == Ok(RawOf(prop), p + |PropOut(names, prop).bytes|)
  {
    hide Value, Size, Be32, Low32, Word, CStr, Offset, Fits, AlignUp, Terminated;
    var v := Value(prop.val);
    var after := Entered(names, prop.name);
    var size, off := Low32(Size(prop.val)), Low32(Offset(after, prop.name));
    var x1, x2, x3 := PROP, Be32(size), Be32(off);
    assert PropOut(names, prop).bytes == x1 + (x2 + (x3 + Padded(v)));
    AtSplit(b, p, x1, x2 + (x3 + Padded(v)));
    AtSplit(b, p + 4, x2, x3 + Padded(v));
    AtSplit(b, p + 8, x3, Padded(v));
    AtPrefix(b, p + 12, v, Padded(v));
    AtToken(b, p, 3);
    AtWord(b, p + 4, size);
    AtWord(b, p + 8, off);
    SizeIsLength(prop.val);
    LowKeeps(|v|);
    NameFound(b, s, after, all, prop.name);
    AlignShift(p + 12, |v|);
  }

  /** All names of a list of properties stay in front of what is entered later. */
  lemma {:induction false} PropsNamesGrow(names: seq<Name>, props: seq<Prop>)
    requires forall i :: 0 <= i < |props| ==> PropFits(props[i])
    ensures names <= PropsOut(names, props).names
    ensures |PropsOut(names, props).bytes| % 4 == 0
    decreases |props|
  {
    hide PropOut;
    if props != [] {
      PropOutAligned(names, props[0]);
      PropsNamesGrow(PropOut(names, props[0]).names, props[1..]);
    }
  }

  predicate PropsNulFree(props: seq<Prop>) {
    forall i :: 0 <= i < |props| ==> NulFree(props[i].name)
  }

  lemma {:induction false} PropsRead(b: seq<byte>, p: nat, s: nat, names: seq<Name>, all: seq<Name>, props: seq<Prop>)
    requires (forall i :: 0 <= i < |props| ==> PropFits(props[i])) && PropsNulFree(props) && p % 4 == 0
    requires At(b, p, PropsOut(names, props).bytes) && Block(b, s, all) && PropsOut(names, props).names <= all
             && |b| < U32_SPAN
    requires var q := p + |PropsOut(names, props).bytes|;
             q < |b| && Token(b, q) != PROP_TOKEN && Token(b, q) != NOP_TOKEN
    ensures ReadProps(b, p, s) == Ok(RawProps(props), p + |PropsOut(names, props).bytes|)
    decreases |props|
  {
    hide PropOut, ReadProp, At, Block, Token, RawOf;
    if props != [] {
      var head := PropOut(names, props[0]);
      var rest := PropsOut(head.names, props[1..]);
      AtSplit(b, p, head.bytes, rest.bytes);
      PropsNamesGrow(head.names, props[1..]);
      PropOutAligned(names, props[0]);
      PropReads(b, p, s, names, all, props[0]);
      PropsRead(b, p + |head.bytes|, s, head.names, all, props[1..]);
      assert RawProps(props) == [RawOf(props[0])] + RawProps(props[1..]);
    } else {
      assert RawProps(props) == [];
    }
  }

  // --------------------------------------------------------------------------- nodes

  function RawOfNode(n: Node): RawNode
    requires NodeFits(n)
    decreases n, 1
  {
    RawNode(RawProps(n.props), RawNodes(n.nodes))
  }

  function RawNodes(nodes: seq<Child>): seq<RawChild>
    requires forall i :: 0 <= i < |nodes| ==> NodeFits(nodes[i].node)
    decreases nodes, 0
  {
    if nodes == [] then [] else [RawChild(nodes[0].name, RawOfNode(nodes[0].node))] + RawNodes(nodes[1..])
  }

  /** A reader has got back property `p`: its name, and bytes that say its value. */
  ghost predicate SameProp(p: Prop, raw: RawProp) {
    raw.name == p.name && Spells(raw.value, p.val)
  }

  /** A reader has got back node `n`: its properties and its children, in order, all the way down. */
  ghost predicate SameNode(n: Node, raw: RawNode) {
    && |raw.props| == |n.props| && |raw.nodes| == |n.nodes|
    && (forall i :: 0 <= i < |n.props| ==> SameProp(n.props[i], raw.props[i]))
    && (forall i :: 0 <= i < |n.nodes| ==>
          raw.nodes[i].name == n.nodes[i].name && SameNode(n.nodes[i].node, raw.nodes[i].node))
  }

  lemma {:induction false} RawNodesAt(nodes: seq<Child>)
    requires forall i :: 0 <= i < |nodes| ==> NodeFits(nodes[i].node)
    ensures |RawNodes(nodes)| == |nodes|
    ensures forall i :: 0 <= i < |nodes| ==> RawNodes(nodes)[i] == RawChild(nodes[i].name, RawOfNode(nodes[i].node))
    decreases |nodes|
  {
    hide RawOfNode, NodeFits;
    if nodes != [] {
      assert forall i :: 0 <= i < |nodes[1..]| ==> nodes[1..][i] == nodes[i + 1];
      RawNodesAt(nodes[1..]);
    }
  }

  lemma {:induction false} RawIsSame(n: Node)
    requires NodeFits(n)
    ensures SameNode(n, RawOfNode(n))
    decreases n
  {
    hide Spells, Value, Fits;
    RawNodesAt(n.nodes);
    forall i | 0 <= i < |n.props| ensures SameProp(n.props[i], RawOfNode(n).props[i]) {
      assert PropFits(n.props[i]);
      ValueSpells(n.props[i].val);
    }
    forall i | 0 <= i < |n.nodes| ensures SameNode(n.nodes[i].node, RawOfNode(n).nodes[i].node) {
      RawIsSame(n.nodes[i].node);
    }
  }

  predicate NodeNulFree(n: Node) {
    && PropsNulFree(n.props)
    && (forall i :: 0 <= i < |n.nodes| ==> NulFree(n.nodes[i].name) && NodeNulFree(n.nodes[i].node))
  }

  lemma {:induction false} NodeOutGrows(names: seq<Name>, name: Name, node: Node)
    requires NodeFits(node)
    ensures names <= NodeOut(names, name, node).names
    ensures |NodeOut(names, name, node).bytes| % 4 == 0
    ensures BEGIN_NODE <= NodeOut(names, name, node).bytes
    decreases node, 1
  {
    hide PropsOut, NodesOut, AlignUp;
    PropsNamesGrow(names, node.props);
    NodesOutGrows(PropsOut(names, node.props).names, node.nodes);
  }

  lemma {:induction false} NodesOutGrows(names: seq<Name>, nodes: seq<Child>)
    requires forall i :: 0 <= i < |nodes| ==> NodeFits(nodes[i].node)
    ensures names <= NodesOut(names, nodes).names
    ensures |NodesOut(names, nodes).bytes| % 4 == 0
    ensures nodes != [] ==> BEGIN_NODE <= NodesOut(names, nodes).bytes
    decreases nodes, 0
  {
    hide NodeOut;
    if nodes != [] {
      NodeOutGrows(names, nodes[0].name, nodes[0].node);
      NodesOutGrows(NodeOut(names, nodes[0].name, nodes[0].node).names, nodes[1..]);
    }
  }

  /** What the strings and the surroundings must provide for reading at `p`. */
  ghost predicate Readable(b: seq<byte>, p: nat, s: nat, all: seq<Name>) {
    Block(b, s, all) && |b| < U32_SPAN && p % 4 == 0
  }

  /** The token after a node's properties begins a child or ends the node. */
  lemma AfterProps(b: seq<byte>, p: nat, names: seq<Name>, nodes: seq<Child>)
    requires forall i :: 0 <= i < |nodes| ==> NodeFits(nodes[i].node)
    requires At(b, p, NodesOut(names, nodes).bytes + END_NODE)
    ensures p < |b| && Token(b, p) == if nodes == [] then END_NODE_TOKEN else BEGIN_NODE_TOKEN
  {
    AtSplit(b, p, NodesOut(names, nodes).bytes, END_NODE);
    NodesOutGrows(names, nodes);
    hide NodesOut;
    if nodes == [] {
      NoNodes(names);
      AtToken(b, p, 2);
    } else {
      AtPrefix(b, p, BEGIN_NODE, NodesOut(names, nodes).bytes);
      AtToken(b, p, 1);
    }
  }

  lemma NoNodes(names: seq<Name>)
    ensures NodesOut(names, []) == Out([], names)
  {
  }

  lemma {:induction false} NodeReads(b: seq<byte>, p: nat, s: nat, names: seq<Name>, all: seq<Name>, name: Name,
      node: Node)
    requires NodeFits(node) && NodeNulFree(node) && NulFree(name) && Readable(b, p, s, all)
    requires At(b, p, NodeOut(names, name, node).bytes) && NodeOut(names, name, node).names <= all
    ensures ReadNode(b, p, s) == Ok(RawChild(name, RawOfNode(node)), p + |NodeOut(names, name, node).bytes|)
    ensures SameNode(node, RawOfNode(node))
    decreases node, 1
  {
    hide At, Block, Token, CStr, ReadNode, ReadProps, ReadNodes, PropsOut, NodesOut, Padded, AlignUp, NulFree,
         RawProps, RawNodes, SameNode;
    RawIsSame(node);
    var props := PropsOut(names, node.props);
    var nodes := NodesOut(props.names, node.nodes);
    var head := Padded(name + [0]);
    NodeSplit(b, p, names, name, node);
    NodeNames(names, name, node);
    HeadRead(b, p, name);
    var q := p + 4 + |head|;
    PropsNamesGrow(names, node.props);
    NodesOutGrows(props.names, node.nodes);
    var q2 := q + |props.bytes|;
    AfterProps(b, q2, props.names, node.nodes);
    PropsRead(b, q, s, names, all, node.props);
    AtSplit(b, q2, nodes.bytes, END_NODE);
    AtToken(b, q2 + |nodes.bytes|, 2);
    NodesRead(b, q2, s, props.names, all, node.nodes);
    ReadNodeIs(b, p, s, name, RawProps(node.props), RawNodes(node.nodes), q, q2, q2 + |nodes.bytes|);
  }

  /** The token and the name of a node. */
  lemma HeadRead(b: seq<byte>, p: nat, name: Name)
    requires At(b, p, BEGIN_NODE) && At(b, p + 4, Padded(name + [0])) && NulFree(name) && p % 4 == 0
    ensures p < |b| && Token(b, p) == BEGIN_NODE_TOKEN && CStr(b, p + 4) == Ok(name, p + 4 + |name| + 1)
    ensures AlignUp(p + 4 + |name| + 1) == p + 4 + |Padded(name + [0])| && |Padded(name + [0])| % 4 == 0
  {
    hide At, Token, CStr, NulFree;
    AtToken(b, p, 1);
    AtPrefix(b, p + 4, name + [0], Padded(name + [0]));
    CStrReads(b, p + 4, name);
    AlignShift(p + 4, |name| + 1);
    TokenInside(b, p);
  }

  lemma NodeNames(names: seq<Name>, name: Name, node: Node)
    requires NodeFits(node)
    ensures NodeOut(names, name, node).names == NodesOut(PropsOut(names, node.props).names, node.nodes).names
  {
    hide PropsOut, NodesOut, Padded;
  }

  /** A node is its token, name, properties, children and end. */
  lemma ReadNodeIs(b: seq<byte>, p: nat, s: nat, name: Name, props: seq<RawProp>, nodes: seq<RawChild>, q: nat,
      q2: nat, q3: nat)
    requires p < |b| && Token(b, p) == BEGIN_NODE_TOKEN && CStr(b, p + 4) == Ok(name, p + 4 + |name| + 1)
    requires AlignUp(p + 4 + |name| + 1) == q && ReadProps(b, q, s) == Ok(props, q2)
             && ReadNodes(b, q2, s) == Ok(nodes, q3)
    requires Token(b, q3) == END_NODE_TOKEN
    ensures ReadNode(b, p, s) == Ok(RawChild(name, RawNode(props, nodes)), q3 + 4)
  {
    hide Token, CStr, ReadProps, ReadNodes, AlignUp;
  }

  /** Where the parts of a node lie. */
  lemma NodeSplit(b: seq<byte>, p: nat, names: seq<Name>, name: Name, node: Node)
    requires NodeFits(node) && At(b, p, NodeOut(names, name, node).bytes)
    ensures var props := PropsOut(names, node.props);
            var nodes := NodesOut(props.names, node.nodes);
            var head, tail := Padded(name + [0]), nodes.bytes + END_NODE;
            var q := p + 4 + |head|;
            && At(b, p, BEGIN_NODE) && At(b, p + 4, head) && At(b, q, props.bytes) && At(b, q + |props.bytes|, tail)
            && |NodeOut(names, name, node).bytes| == 4 + |head| + |props.bytes| + |tail|
  {
    hide At, PropsOut, NodesOut, Padded;
    var props := PropsOut(names, node.props);
    var nodes := NodesOut(props.names, node.nodes);
    var head, tail := Padded(name + [0]), nodes.bytes + END_NODE;
    assert NodeOut(names, name, node).bytes == BEGIN_NODE + (head + (props.bytes + tail));
    AtSplit(b, p, BEGIN_NODE, head + (props.bytes + tail));
    AtSplit(b, p + 4, head, props.bytes + tail);
    AtSplit(b, p + 4 + |head|, props.bytes, tail);
  }

  lemma TokenInside(b: seq<byte>, p: nat)
    ensures Token(b, p) != 0 ==> p + 4 <= |b|
  {
  }

  lemma {:induction false} NodesRead(b: seq<byte>, p: nat, s: nat, names: seq<Name>, all: seq<Name>, nodes: seq<Child>)
    requires forall i :: 0 <= i < |nodes| ==> NodeFits(nodes[i].node)
    requires forall i :: 0 <= i < |nodes| ==> NulFree(nodes[i].name) && NodeNulFree(nodes[i].node)
    requires Readable(b, p, s, all)
    requires At(b, p, NodesOut(names, nodes).bytes) && NodesOut(names, nodes).names <= all
    requires var q := p + |NodesOut(names, nodes).bytes|; Token(b, q) == END_NODE_TOKEN
    ensures ReadNodes(b, p, s) == Ok(RawNodes(nodes), p + |NodesOut(names, nodes).bytes|)
    decreases nodes, 0
  {
    hide At, Block, Token, ReadNode, NodeOut, NulFree, RawOfNode;
    if nodes == [] {
      TokenInside(b, p);
    } else {
      var head := NodeOut(names, nodes[0].name, nodes[0].node);
      var rest := NodesOut(head.names, nodes[1..]);
      AtSplit(b, p, head.bytes, rest.bytes);
      NodeOutGrows(names, nodes[0].name, nodes[0].node);
      NodesOutGrows(head.names, nodes[1..]);
      AtPrefix(b, p, BEGIN_NODE, head.bytes);
      AtToken(b, p, 1);
      TokenInside(b, p);
      NodeReads(b, p, s, names, all, nodes[0].name, nodes[0].node);
      NodesRead(b, p + |head.bytes|, s, head.names, all, nodes[1..]);
    }
  }

  // ------------------------------------------------------------------- the whole blob

  /** The reservations a reader finds: those ahead of the first that looks like the end of the list. */
  function BeforeZero(reserved: seq<Reserve>): seq<Reserve> {
    if reserved == [] || reserved[0] == Reserve(0, 0) then [] else [reserved[0]] + BeforeZero(reserved[1..])
  }

  /** The reservations from the `k`-th on, as bytes. */
  lemma {:induction false} ReserveOutFront(reserved: seq<Reserve>)
    requires reserved != [] && forall i :: 0 <= i < |reserved| ==> ReserveFits(reserved[i])
    ensures ReserveOut(reserved) == Be64(reserved[0].addr) + Be64(reserved[0].size) + ReserveOut(reserved[1..])
    decreases |reserved|
  {
    hide Be64;
    assert ReserveFits(reserved[0]);
    var n := |reserved| - 1;
    if n > 0 {
      ReserveOutFront(reserved[..n]);
      assert reserved[..n][1..] == reserved[1..][..n - 1];
    }
  }

  lemma AtQuad(b: seq<byte>, p: nat, n: nat)
    requires n < U64_SPAN && At(b, p, Be64(n))
    ensures p + 8 <= |b| && Word(b, p) * U32_SPAN + Word(b, p + 4) == n
  {
    AtSplit(b, p, Be32(n / U32_SPAN), Be32(n % U32_SPAN));
    hide Word, Be32, At;
    AtWord(b, p, n / U32_SPAN);
    AtWord(b, p + 4, n % U32_SPAN);
  }

  lemma ZerosAreQuad(b: seq<byte>, p: nat)
    requires At(b, p, Zeros(16))
    ensures p + 16 <= |b| && Word(b, p) == 0 && Word(b, p + 4) == 0 && Word(b, p + 8) == 0 && Word(b, p + 12) == 0
  {
    assert Zeros(16) == Zeros(4) + (Zeros(4) + (Zeros(4) + Zeros(4)));
    AtSplit(b, p, Zeros(4), Zeros(4) + (Zeros(4) + Zeros(4)));
    AtSplit(b, p + 4, Zeros(4), Zeros(4) + Zeros(4));
    AtSplit(b, p + 8, Zeros(4), Zeros(4));
    hide At, Word;
    ZeroWord(b, p);
    ZeroWord(b, p + 4);
    ZeroWord(b, p + 8);
    ZeroWord(b, p + 12);
  }

  lemma ZeroWord(b: seq<byte>, p: nat)
    requires At(b, p, Zeros(4))
    ensures p + 4 <= |b| && Word(b, p) == 0
  {
    assert Zeros(4) == [0, 0, 0, 0];
    AtToken(b, p, 0);
  }

  lemma {:induction false} ReservedRead(b: seq<byte>, p: nat, reserved: seq<Reserve>)
    requires forall i :: 0 <= i < |reserved| ==> ReserveFits(reserved[i])
    requires At(b, p, ReserveOut(reserved) + Zeros(16))
    ensures ReadReserved(b, p).Ok? && ReadReserved(b, p).value == BeforeZero(reserved)
    decreases |reserved|
  {
    hide At, Word, Be64, ReserveOut;
    if reserved == [] {
      EmptyReserve();
      assert ReserveOut([]) + Zeros(16) == Zeros(16);
      ZerosAreQuad(b, p);
    } else {
      ReserveOutFront(reserved);
      assert ReserveFits(reserved[0]);
      var a, z, rest := Be64(reserved[0].addr), Be64(reserved[0].size), ReserveOut(reserved[1..]) + Zeros(16);
      assert ReserveOut(reserved) + Zeros(16) == a + (z + rest);
      AtSplit(b, p, a, z + rest);
      AtSplit(b, p + 8, z, rest);
      AtQuad(b, p, reserved[0].addr);
      AtQuad(b, p + 8, reserved[0].size);
      ReservedRead(b, p + 16, reserved[1..]);
    }
  }

  lemma EmptyReserve()
    ensures ReserveOut([]) == []
  {
  }

  /** The ten words of the header. */
  lemma HeaderRead(b: seq<byte>, t: Tree)
    requires TreeFits(t) && At(b, 0, Header(t)) && HEADER_SIZE + |Body(t)| < U32_SPAN
    ensures |b| >= 40 && Word(b, 0) == DeviceTreeReader.MAGIC && Word(b, 4) == HEADER_SIZE + |Body(t)|
    ensures Word(b, 8) == HEADER_SIZE + 16 * |t.reserved| + 16
    ensures Word(b, 12) == Word(b, 8) + |Structure(t).bytes| && Word(b, 16) == HEADER_SIZE && Word(b, 24) == 0x10
    ensures Word(b, 28) == t.bootCpu && Word(b, 32) == |Strings(t)| && Word(b, 36) == |Structure(t).bytes|
  {
    hide At, Word, Structure, Strings, Be32, Low32, ReserveOut;
    var structure := HEADER_SIZE + 16 * |t.reserved| + 16;
    var strings := structure + |Structure(t).bytes|;
    LowKeeps(HEADER_SIZE + |Body(t)|);
    LowKeeps(structure);
    LowKeeps(strings);
    LowKeeps(|Strings(t)|);
    LowKeeps(|Structure(t).bytes|);
    var w0, w1, w2, w3, w4 := MAGIC_BYTES, Be32(HEADER_SIZE + |Body(t)|), Be32(structure), Be32(strings),
        Be32(HEADER_SIZE);
    var w5, w6, w7, w8, w9 := Be32(0x11), Be32(0x10), Be32(t.bootCpu), Be32(|Strings(t)|), Be32(|Structure(t).bytes|);
    TenWords(b, w0, w1, w2, w3, w4, w5, w6, w7, w8, w9);
    MagicWord(b);
    AtWord(b, 4, HEADER_SIZE + |Body(t)|);
    AtWord(b, 8, structure);
    AtWord(b, 12, strings);
    AtWord(b, 16, HEADER_SIZE);
    AtWord(b, 24, 0x10);
    AtWord(b, 28, t.bootCpu);
    AtWord(b, 32, |Strings(t)|);
    AtWord(b, 36, |Structure(t).bytes|);
  }

  lemma MagicWord(b: seq<byte>)
    requires At(b, 0, MAGIC_BYTES)
    ensures |b| >= 4 && Word(b, 0) == DeviceTreeReader.MAGIC
  {
    AtByte(b, 0, MAGIC_BYTES, 0);
    AtByte(b, 0, MAGIC_BYTES, 1);
    AtByte(b, 0, MAGIC_BYTES, 2);
    AtByte(b, 0, MAGIC_BYTES, 3);
  }

  lemma TenWords(b: seq<byte>, w0: seq<byte>, w1: seq<byte>, w2: seq<byte>, w3: seq<byte>, w4: seq<byte>,
                 w5: seq<byte>, w6: seq<byte>, w7: seq<byte>, w8: seq<byte>, w9: seq<byte>)
    requires |w0| == |w1| == |w2| == |w3| == |w4| == |w5| == |w6| == |w7| == |w8| == |w9| == 4
    requires At(b, 0, w0 + w1 + w2 + w3 + w4 + w5 + w6 + w7 + w8 + w9)
    ensures At(b, 0, w0) && At(b, 4, w1) && At(b, 8, w2) && At(b, 12, w3) && At(b, 16, w4)
    ensures At(b, 20, w5) && At(b, 24, w6) && At(b, 28, w7) && At(b, 32, w8) && At(b, 36, w9)
  {
    hide At;
    AtSplit(b, 0, w0 + w1 + w2 + w3 + w4 + w5 + w6 + w7 + w8, w9);
    AtSplit(b, 0, w0 + w1 + w2 + w3 + w4 + w5 + w6 + w7, w8);
    AtSplit(b, 0, w0 + w1 + w2 + w3 + w4 + w5 + w6, w7);
    AtSplit(b, 0, w0 + w1 + w2 + w3 + w4 + w5, w6);
    AtSplit(b, 0, w0 + w1 + w2 + w3 + w4, w5);
    AtSplit(b, 0, w0 + w1 + w2 + w3, w4);
    AtSplit(b, 0, w0 + w1 + w2, w3);
    AtSplit(b, 0, w0 + w1, w2);
    AtSplit(b, 0, w0, w1);
  }

  /** For every tree with NUL-free names whose blob fits 32-bit offsets, a reader of the specification gets back
      the same nodes, properties with their values, and boot CPU, and the reservations ahead of the first all-zero
      one. */
  lemma RoundTrip(t: Tree)
    requires TreeFits(t) && NodeNulFree(t.root) && |Blob(t)| < U32_SPAN
    ensures ReadTree(Blob(t)) == Ok(RawTree(RawOfNode(t.root), BeforeZero(t.reserved), t.bootCpu),
                                    HEADER_SIZE + 16 * |t.reserved| + 16 + |Structure(t).bytes|)
    ensures var r := ReadTree(Blob(t)); r.Ok? && SameNode(t.root, r.value.root) && r.value.bootCpu == t.bootCpu
  {
    hide At, Blob, Header, Body, Strings, Structure, NodeOut, Word, Token, ReadReserved, ReadNode, BeforeZero,
         RawOfNode, NodeNulFree, NodeFits, ReserveOut, SameNode;
    RawIsSame(t.root);
    var b := Blob(t);
    BlobSplit(t);
    HeaderRead(b, t);
    ReservedRead(b, HEADER_SIZE, t.reserved);
    var p := HEADER_SIZE + 16 * |t.reserved| + 16;
    StructureReads(b, p, p + |Structure(t).bytes|, t);
  }

  /** Where the parts of the blob lie. */
  lemma BlobSplit(t: Tree)
    requires TreeFits(t)
    ensures var b, p := Blob(t), HEADER_SIZE + 16 * |t.reserved| + 16;
            && At(b, 0, Header(t)) && At(b, HEADER_SIZE, ReserveOut(t.reserved) + Zeros(16))
                && At(b, p, Structure(t).bytes)
            && At(b, p + |Structure(t).bytes|, Strings(t))
            && |b| == HEADER_SIZE + |Body(t)| == p + |Structure(t).bytes| + |Strings(t)|
  {
    hide At, Blob, Body, Strings, Structure, ReserveOut;
    var b := Blob(t);
    BlobWhole(t);
    AtSplit(b, 0, Header(t), Body(t));
    BodyParts(t);
    var map_, st := ReserveOut(t.reserved) + Zeros(16), Structure(t).bytes;
    AtSplit(b, HEADER_SIZE, map_ + st, Strings(t));
    AtSplit(b, HEADER_SIZE, map_, st);
  }

  lemma BodyParts(t: Tree)
    requires TreeFits(t)
    ensures Body(t) == (ReserveOut(t.reserved) + Zeros(16)) + Structure(t).bytes + Strings(t)
    ensures |ReserveOut(t.reserved) + Zeros(16)| == 16 * |t.reserved| + 16
  {
  }

  lemma BlobWhole(t: Tree)
    requires TreeFits(t)
    ensures At(Blob(t), 0, Header(t) + Body(t)) && |Blob(t)| == HEADER_SIZE + |Body(t)|
  {
  }

  lemma StructureReads(b: seq<byte>, p: nat, s: nat, t: Tree)
    requires TreeFits(t) && NodeNulFree(t.root) && |b| < U32_SPAN && p % 4 == 0 && s + |Strings(t)| == |b|
    requires At(b, p, Structure(t).bytes) && At(b, s, Strings(t))
    ensures ReadNode(b, p, s) == Ok(RawChild([], RawOfNode(t.root)), p + |Structure(t).bytes| - 4)
    ensures |Structure(t).bytes| >= 4 && Token(b, p + |Structure(t).bytes| - 4) == END_TOKEN
  {
    hide At, Block, NodeOut, ReadNode, RawOfNode, NodeNulFree, NodeFits, Terminated, AlignUp, Token;
    var root := NodeOut([], [], t.root);
    AtSplit(b, p, root.bytes, END);
    AtToken(b, p + |root.bytes|, 9);
    AtPrefix(b, s, Terminated(root.names), Strings(t));
    BlockFrom(b, s, root.names);
    NodeReads(b, p, s, [], root.names, [], t.root);
  }

  lemma BlockFrom(b: seq<byte>, s: nat, names: seq<Name>)
    requires At(b, s, Terminated(names)) && |b| < U32_SPAN
    ensures Block(b, s, names)
  {
  }

  /** The reservations come back if and only if none of them is all zeros. */
  lemma {:induction false} ReservedBack(reserved: seq<Reserve>)
    ensures BeforeZero(reserved) == reserved <==> Reserve(0, 0) !in reserved
    decreases |reserved|
  {
    if reserved != [] {
      ReservedBack(reserved[1..]);
      if reserved[0] != Reserve(0, 0) {
        assert reserved == [reserved[0]] + reserved[1..];
        assert BeforeZero(reserved)[1..] == BeforeZero(reserved[1..]);
      } else {
        assert BeforeZero(reserved) == [];
      }
    }
  }

  /** A reader sees neither a reservation of zeros nor any that follows it. */
  lemma ZerosHideReservation()
    ensures BeforeZero([Reserve(0, 0), Reserve(0x8000_0000, 0x1000)]) == []
  {
  }
}
