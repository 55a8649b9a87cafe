/**
 Flattened device trees: the tree, its blob as the Devicetree Specification v0.4
 lays it out in chapter 5, and what a reader of that chapter gets back from it.
 */
module DeviceTree {
  import opened Bytes

  type Name = seq<byte>

  datatype PropVal =
    | Empty
    | U32(n: nat)
    | U64(n: nat)
    | OwnedStr(s: Name)
    | StaticStr(s: Name)
    | PHandle(n: nat)
    | StringList(list: seq<Name>)
    | U32List(words: seq<nat>)
    | U64List(words: seq<nat>)
    | Bytes(d: seq<byte>)

  datatype Prop = Prop(name: Name, val: PropVal)

  datatype Child = Child(name: Name, node: Node)

  /** The properties stand in the order the hash map happens to yield them. */
  datatype Node = Node(props: seq<Prop>, nodes: seq<Child>)

  datatype Reserve = Reserve(addr: nat, size: nat)

  datatype Tree = Tree(root: Node, reserved: seq<Reserve>, bootCpu: nat)

  // ---------------------------------------------------------------- numbers

  function Be16(n: nat): (b: seq<byte>)
    requires n < 0x1_0000
    ensures |b| == 2
  {
    var hi, lo := n / 256, n % 256;
    [hi, lo]
  }

  /** `u32::to_be_bytes`. */
  function Be32(n: nat): (b: seq<byte>)
    requires n < U32_SPAN
    ensures |b| == 4
  {
    Be16(n / 0x1_0000) + Be16(n % 0x1_0000)
  }

  function Be64(n: nat): (b: seq<byte>)
    requires n < U64_SPAN
    ensures |b| == 8
  {
    Be32(n / U32_SPAN) + Be32(n % U32_SPAN)
  }

  function Half(b: seq<byte>, p: nat): nat
    requires p + 2 <= |b|
  {
    (b[p] as int) * 256 + (b[p + 1] as int)
  }

  /** The big-endian 32-bit number at `p`. */
  function Word(b: seq<byte>, p: nat): nat
    requires p + 4 <= |b|
  {
    Half(b, p) * 0x1_0000 + Half(b, p + 2)
  }

  lemma Be16Half(n: nat, b: seq<byte>, p: nat)
    requires n < 0x1_0000 && p + 2 <= |b| && b[p..p + 2] == Be16(n)
    ensures Half(b, p) == n
  {
    assert b[p] == b[p..p + 2][0] && b[p + 1] == b[p..p + 2][1];
  }

  lemma Be32Word(n: nat, b: seq<byte>, p: nat)
    requires n < U32_SPAN && p + 4 <= |b| && b[p..p + 4] == Be32(n)
    ensures Word(b, p) == n
  {
    hide Half, Be16;
    assert b[p..p + 2] == b[p..p + 4][..2] && b[p + 2..p + 4] == b[p..p + 4][2..];
    Be16Half(n / 0x1_0000, b, p);
    Be16Half(n % 0x1_0000, b, p + 2);
  }

  /** `align_up!(n, 2)`. */
  function AlignUp(n: nat): (m: nat)
    ensures m % 4 == 0 && n <= m < n + 4
  {
    (n + 3) / 4 * 4
  }

  lemma AlignShift(p: nat, n: nat)
    requires p % 4 == 0
    ensures AlignUp(p + n) == p + AlignUp(n)
  {
  }

  /** Zeros up to the next multiple of four. */
  function Padded(b: seq<byte>): (r: seq<byte>)
    ensures |r| == AlignUp(|b|) && b <= r
  {
    b + Zeros(AlignUp(|b|) - |b|)
  }

  // ------------------------------------------------------------- property values

  predicate Fits(v: PropVal) {
    match v
    case U32(n) => n < U32_SPAN
    case PHandle(n) => n < U32_SPAN
    case U64(n) => n < U64_SPAN
    case U32List(words) => forall i :: 0 <= i < |words| ==> words[i] < U32_SPAN
    case U64List(words) => forall i :: 0 <= i < |words| ==> words[i] < U64_SPAN
    case _ => true
  }

  function Terminated(list: seq<Name>): seq<byte> {
    if list == [] then [] else Terminated(list[..|list| - 1]) + list[|list| - 1] + [0]
  }

  function Words32(words: seq<nat>): seq<byte>
    requires forall i :: 0 <= i < |words| ==> words[i] < U32_SPAN
  {
    if words == [] then [] else Words32(words[..|words| - 1]) + Be32(words[|words| - 1])
  }

  function Words64(words: seq<nat>): seq<byte>
    requires forall i :: 0 <= i < |words| ==> words[i] < U64_SPAN
  {
    if words == [] then [] else Words64(words[..|words| - 1]) + Be64(words[|words| - 1])
  }

  /** The bytes a property's value stands for. */
  function Value(v: PropVal): seq<byte>
    requires Fits(v)
  {
    match v
    case Empty => []
    case U32(n) => Be32(n)
    case PHandle(n) => Be32(n)
    case U64(n) => Be64(n)
    case OwnedStr(s) => s + [0]
    case StaticStr(s) => s + [0]
    case StringList(list) => Terminated(list)
    case U32List(words) => Words32(words)
    case U64List(words) => Words64(words)
    case Bytes(d) => d
  }

  function SumLengths(list: seq<Name>): nat {
    if list == [] then 0 else SumLengths(list[..|list| - 1]) + |list[|list| - 1]| + 1
  }

  /** `PropVal::size`. */
  function Size(v: PropVal): nat {
    match v
    case Empty => 0
    case U32(_) | PHandle(_) => 4
    case U64(_) => 8
    case OwnedStr(s) => |s| + 1
    case StaticStr(s) => |s| + 1
    case Bytes(d) => |d|
    case U32List(words) => 4 * |words|
    case U64List(words) => 8 * |words|
    case StringList(list) => SumLengths(list)
  }

  lemma {:induction false} Words32Length(words: seq<nat>)
    requires forall i :: 0 <= i < |words| ==> words[i] < U32_SPAN
    ensures |Words32(words)| == 4 * |words|
    decreases |words|
  {
    if words != [] { Words32Length(words[..|words| - 1]); }
  }

  lemma {:induction false} Words64Length(words: seq<nat>)
    requires forall i :: 0 <= i < |words| ==> words[i] < U64_SPAN
    ensures |Words64(words)| == 8 * |words|
    decreases |words|
  {
    if words != [] { Words64Length(words[..|words| - 1]); }
  }

  lemma {:induction false} TerminatedLength(list: seq<Name>)
    ensures |Terminated(list)| == SumLengths(list)
    decreases |list|
  {
    if list != [] { TerminatedLength(list[..|list| - 1]); }
  }

  /** The length that is written ahead of a value is the length of the value. */
  lemma SizeIsLength(v: PropVal)
    requires Fits(v)
    ensures Size(v) == |Value(v)|
  {
    match v
    case U32List(words) => Words32Length(words);
    case U64List(words) => Words64Length(words);
    case StringList(list) => TerminatedLength(list);
    case _ =>
  }

  // ------------------------------------------------------------------ the strings

  /** Where a name is in the strings block made of `names`. */
  function Offset(names: seq<Name>, name: Name): nat
    requires name in names
    decreases |names|
  {
    if name in names[..|names| - 1] then Offset(names[..|names| - 1], name) else SumLengths(names[..|names| - 1])
  }

  /** Names are entered once, in order of first use. */
  function Entered(names: seq<Name>, name: Name): (r: seq<Name>)
    ensures name in r && names <= r
  {
    if name in names then names else names + [name]
  }

  // -------------------------------------------------------------------- the blob

  const BEGIN_NODE: seq<byte> := [0, 0, 0, 1]
  const END_NODE: seq<byte> := [0, 0, 0, 2]
  const PROP: seq<byte> := [0, 0, 0, 3]
  const END: seq<byte> := [0, 0, 0, 9]

  /** Bytes written, and the names entered so far. */
  datatype Out = Out(bytes: seq<byte>, names: seq<Name>)

  predicate PropFits(p: Prop) {
    Fits(p.val)
  }

  predicate NodeFits(n: Node) {
    && (forall i :: 0 <= i < |n.props| ==> PropFits(n.props[i]))
    && (forall i :: 0 <= i < |n.nodes| ==> NodeFits(n.nodes[i].node))
  }

  function PropOut(names: seq<Name>, p: Prop): Out
    requires PropFits(p)
  {
    var after := Entered(names, p.name);
    Out(PROP + Be32(Low32(Size(p.val))) + Be32(Low32(Offset(after, p.name))) + Padded(Value(p.val)), after)
  }

  function PropsOut(names: seq<Name>, props: seq<Prop>): Out
    requires forall i :: 0 <= i < |props| ==> PropFits(props[i])
    decreases |props|
  {
    if props == [] then Out([], names)
    else
      var head := PropOut(names, props[0]);
      var rest := PropsOut(head.names, props[1..]);
      Out(head.bytes + rest.bytes, rest.names)
  }

  function NodeOut(names: seq<Name>, name: Name, node: Node): Out
    requires NodeFits(node)
    decreases node, 1
  {
    var props := PropsOut(names, node.props);
    var nodes := NodesOut(props.names, node.nodes);
    Out(BEGIN_NODE + Padded(name + [0]) + props.bytes + nodes.bytes + END_NODE, nodes.names)
  }

  function NodesOut(names: seq<Name>, nodes: seq<Child>): Out
    requires forall i :: 0 <= i < |nodes| ==> NodeFits(nodes[i].node)
    decreases nodes, 0
  {
    if nodes == [] then Out([], names)
    else
      var head := NodeOut(names, nodes[0].name, nodes[0].node);
      var rest := NodesOut(head.names, nodes[1..]);
      Out(head.bytes + rest.bytes, rest.names)
  }

  // -------------------------------------------------------------- the whole blob

  function ReserveOut(reserved: seq<Reserve>): (r: seq<byte>)
    requires forall i :: 0 <= i < |reserved| ==> ReserveFits(reserved[i])
    ensures |r| == 16 * |reserved|
  {
    if reserved == [] then []
    else
      var n := |reserved| - 1;
      assert ReserveFits(reserved[n]);
      ReserveOut(reserved[..n]) + Be64(reserved[n].addr) + Be64(reserved[n].size)
  }

  predicate ReserveFits(r: Reserve) {
    r.addr < U64_SPAN && r.size < U64_SPAN
  }

  predicate TreeFits(t: Tree) {
    NodeFits(t.root) && t.bootCpu < U32_SPAN && forall i :: 0 <= i < |t.reserved| ==> ReserveFits(t.reserved[i])
  }

  function Structure(t: Tree): Out
    requires TreeFits(t)
  {
    var root := NodeOut([], [], t.root);
    Out(root.bytes + END, root.names)
  }

  function Strings(t: Tree): seq<byte>
    requires TreeFits(t)
  {
    Padded(Terminated(Structure(t).names))
  }

  const HEADER_SIZE: nat := 40
  const MAGIC_BYTES: seq<byte> := [0xd0, 0x0d, 0xfe, 0xed]

  /** Everything after the header. */
  function Body(t: Tree): seq<byte>
    requires TreeFits(t)
  {
    ReserveOut(t.reserved) + Zeros(16) + Structure(t).bytes + Strings(t)
  }

  function Header(t: Tree): (h: seq<byte>)
    requires TreeFits(t)
    ensures |h| == HEADER_SIZE
  {
    var structure := HEADER_SIZE + 16 * |t.reserved| + 16;
    var strings := structure + |Structure(t).bytes|;
    MAGIC_BYTES + Be32(Low32(HEADER_SIZE + |Body(t)|)) + Be32(Low32(structure)) + Be32(Low32(strings))
        + Be32(HEADER_SIZE)
    + Be32(0x11) + Be32(0x10) + Be32(t.bootCpu) + Be32(Low32(|Strings(t)|)) + Be32(Low32(|Structure(t).bytes|))
  }

  /** `DeviceTree::to_blob`. */
  function Blob(t: Tree): seq<byte>
    requires TreeFits(t)
  {
    Header(t) + Body(t)
  }
}
