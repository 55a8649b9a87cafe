/**
 A reader of flattened device trees that follows chapter 5 of the Devicetree
 Specification v0.4 and knows nothing of the writer.
 */
module DeviceTreeReader {
  import opened Bytes
  import opened DeviceTree

  /** A property as a reader sees it: a name and bytes. */
  datatype RawProp = RawProp(name: Name, value: seq<byte>)

  datatype RawChild = RawChild(name: Name, node: RawNode)

  datatype RawNode = RawNode(props: seq<RawProp>, nodes: seq<RawChild>)

  datatype RawTree = RawTree(root: RawNode, reserved: seq<Reserve>, bootCpu: nat)

  datatype Read<T> = Bad | Ok(value: T, next: nat)

  const BEGIN_NODE_TOKEN: nat := 1
  const END_NODE_TOKEN: nat := 2
  const PROP_TOKEN: nat := 3
  const NOP_TOKEN: nat := 4
  const END_TOKEN: nat := 9

  /** The token at `p`; 0, which is no token, past the end. */
  function Token(b: seq<byte>, p: nat): nat {
    if p + 4 <= |b| then Word(b, p) else 0
  }

  /** The NUL-terminated string at `p`. */
  function CStr(b: seq<byte>, p: nat): (r: Read<Name>)
    ensures r.Ok? ==> p < r.next <= |b| && r.next == p + |r.value| + 1
    decreases if p < |b| then |b| - p else 0
  {
    if p >= |b| then Bad
    else if b[p] == 0 then Ok([], p + 1)
    else
      match CStr(b, p + 1)
      case Bad => Bad
      case Ok(rest, next) => Ok([b[p]] + rest, next)
  }

  function ReadProp(b: seq<byte>, p: nat, strings: nat): (r: Read<RawProp>)
    ensures r.Ok? ==> p < r.next
  {
    if p + 12 > |b| then Bad
    else
      var len, off := Word(b, p + 4), Word(b, p + 8);
      if p + 12 + len > |b| then Bad
      else
        match CStr(b, strings + off)
        case Bad => Bad
        case Ok(name, _) => Ok(RawProp(name, b[p + 12..p + 12 + len]), AlignUp(p + 12 + len))
  }

  /** Properties up to the first token that is neither a property nor a filler. */
  function ReadProps(b: seq<byte>, p: nat, strings: nat): (r: Read<seq<RawProp>>)
    ensures r.Ok? ==> p <= r.next
    decreases if p < |b| then |b| - p else 0
  {
    if p >= |b| then Bad
    else if Token(b, p) == NOP_TOKEN then ReadProps(b, p + 4, strings)
    else if Token(b, p) != PROP_TOKEN then Ok([], p)
    else
      match ReadProp(b, p, strings)
      case Bad => Bad
      case Ok(prop, q) =>
        match ReadProps(b, q, strings)
        case Bad => Bad
        case Ok(rest, next) => Ok([prop] + rest, next)
  }

  function ReadNode(b: seq<byte>, p: nat, strings: nat): (r: Read<RawChild>)
    ensures r.Ok? ==> p < r.next
    decreases if p < |b| then |b| - p else 0, 0
  {
    if p >= |b| || Token(b, p) != BEGIN_NODE_TOKEN then Bad
    else
      match CStr(b, p + 4)
      case Bad => Bad
      case Ok(name, q) =>
        match ReadProps(b, AlignUp(q), strings)
        case Bad => Bad
        case Ok(props, q2) =>
          match ReadNodes(b, q2, strings)
          case Bad => Bad
          case Ok(nodes, q3) =>
            if Token(b, q3) != END_NODE_TOKEN then Bad else Ok(RawChild(name, RawNode(props, nodes)), q3 + 4)
  }

  /** Nodes up to the first token that neither begins a node nor is a filler. */
  function ReadNodes(b: seq<byte>, p: nat, strings: nat): (r: Read<seq<RawChild>>)
    ensures r.Ok? ==> p <= r.next
    decreases if p < |b| then |b| - p else 0, 1
  {
    if p >= |b| then Bad
    else if Token(b, p) == NOP_TOKEN then ReadNodes(b, p + 4, strings)
    else if Token(b, p) != BEGIN_NODE_TOKEN then Ok([], p)
    else
      match ReadNode(b, p, strings)
      case Bad => Bad
      case Ok(child, q) =>
        match ReadNodes(b, q, strings)
        case Bad => Bad
        case Ok(rest, next) => Ok([child] + rest, next)
  }

  /** Reservations up to the entry of two zeros that ends the list. */
  function ReadReserved(b: seq<byte>, p: nat): (r: Read<seq<Reserve>>)
    decreases if p < |b| then |b| - p else 0
  {
    if p + 16 > |b| then Bad
    else
      var addr := Word(b, p) * U32_SPAN + Word(b, p + 4);
      var size := Word(b, p + 8) * U32_SPAN + Word(b, p + 12);
      if addr == 0 && size == 0 then Ok([], p + 16)
      else
        match ReadReserved(b, p + 16)
        case Bad => Bad
        case Ok(rest, next) => Ok([Reserve(addr, size)] + rest, next)
  }

  const MAGIC: nat := 0xd00d_feed

  function ReadTree(b: seq<byte>): (r: Read<RawTree>) {
    if |b| < 40 || Word(b, 0) != MAGIC || Word(b, 4) != |b| || Word(b, 24) > 17 then Bad
    else
      var structure, strings, map_, cpu := Word(b, 8), Word(b, 12), Word(b, 16), Word(b, 28);
      match ReadReserved(b, map_)
      case Bad => Bad
      case Ok(reserved, _) =>
        match ReadNode(b, structure, strings)
        case Bad => Bad
        case Ok(RawChild(_, root), q) =>
          if Token(b, q) != END_TOKEN || q + 4 != structure + Word(b, 36) || strings + Word(b, 32) > |b| then Bad
          else Ok(RawTree(root, reserved, cpu), q + 4)
  }
}
