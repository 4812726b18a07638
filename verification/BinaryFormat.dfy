/** The binary syntax-tree format: 7-bit numbers, strings that repeat by reference, and
    nodes, as functions from values to bytes and from bytes to values. */
module BinaryFormat {
  import opened Utf8
  import opened Wrappers

  type Bytes = seq<Byte>

  /** The members of the two enumerations that the format stores as numbers. */
  type NodeType = x: nat | x < 137
  type AttributeKey = x: nat | x < 27

  datatype Payload =
    | Plain
    | Compound(endCol: nat, endLine: nat)
    | Valued(value: Text)
    | Comment(text: Text)

  datatype Node = Node(payload: Payload, typ: NodeType, col: nat, line: nat,
                       attributes: seq<(AttributeKey, Text)>, children: seq<Node>)

  // ----- writing -----

  /** Seven bits a byte, lowest first, the top bit set on all but the last. */
  function EncodeNumber(n: nat): (r: Bytes)
    ensures r != []
  {
    if n < 0x80 then [n] else [n % 0x80 + 0x80] + EncodeNumber(n / 0x80)
  }

  type Table = map<Text, nat>

  /** What a write leaves behind: the bytes, and the table of long strings; `ok` is false
      once the table has outgrown its 24-bit references. */
  datatype Written = Written(ok: bool, bytes: Bytes, table: Table)

  predicate IsLong(s: Text) {
    |s| > 4
  }

  const REFERENCE := 0xFF000000

  function WriteString(s: Text, table: Table): Written {
    if IsLong(s) && s in table then Written(true, EncodeNumber(table[s] + REFERENCE), table)
    else
      var grown := if IsLong(s) then table[s := |table|] else table;
      if IsLong(s) && |table| > 0xFFFFFF then Written(false, [], grown)
      else Written(true, EncodeNumber(|Encode(s)|) + Encode(s), grown)
  }

  function WriteBytes(bs: Bytes, table: Table): Written {
    Written(true, bs, table)
  }

  function ClassOf(p: Payload): nat {
    match p
    case Plain => 0
    case Compound(_, _) => 1
    case Valued(_) => 2
    case Comment(_) => 3
  }

  function WritePayload(p: Payload, table: Table): Written {
    match p
    case Plain => WriteBytes([], table)
    case Compound(c, l) => WriteBytes(EncodeNumber(c) + EncodeNumber(l), table)
    case Valued(v) => WriteString(v, table)
    case Comment(t) => WriteString(t, table)
  }

  function WriteAttributes(attrs: seq<(AttributeKey, Text)>, table: Table): Written {
    if attrs == [] then WriteBytes([], table)
    else
      var first := WriteString(attrs[0].1, table);
      if !first.ok then Written(false, EncodeNumber(attrs[0].0), first.table)
      else
        var rest := WriteAttributes(attrs[1..], first.table);
        Written(rest.ok, EncodeNumber(attrs[0].0) + first.bytes + rest.bytes, rest.table)
  }

  function WriteChildren(ns: seq<Node>, table: Table): Written
    decreases ns, 0
  {
    if ns == [] then WriteBytes([], table)
    else
      var first := WriteNode(ns[0], table);
      if !first.ok then first
      else
        var rest := WriteChildren(ns[1..], first.table);
        Written(rest.ok, first.bytes + rest.bytes, rest.table)
  }

  function Header(n: Node): Bytes {
    EncodeNumber(ClassOf(n.payload)) + EncodeNumber(n.typ) + EncodeNumber(n.col) + EncodeNumber(n.line)
  }

  function WriteNode(n: Node, table: Table): Written
    decreases n, 1
  {
    var payload := WritePayload(n.payload, table);
    if !payload.ok then Written(false, Header(n) + payload.bytes, payload.table)
    else
      var upToAttrs := Header(n) + payload.bytes + EncodeNumber(|n.attributes|);
      var attrs := WriteAttributes(n.attributes, payload.table);
      if !attrs.ok then Written(false, upToAttrs + attrs.bytes, attrs.table)
      else
        var children := WriteChildren(n.children, attrs.table);
        Written(children.ok, upToAttrs + attrs.bytes + EncodeNumber(|n.children|) + children.bytes, children.table)
  }

  const SIGNATURE: Bytes := [0x44, 0x41, 0x53, 0x54, 0x20, 0x62, 0x69, 0x6E, 0x61, 0x72, 0x79, 0x20, 0x66, 0x69, 0x6C, 0x65, 0x1A]
  const VERSION: Bytes := [0x00, 0x00, 0x00, 0x01]

  function Dump(root: Node): Written {
    var w := WriteNode(root, map[]);
    Written(w.ok, SIGNATURE + VERSION + w.bytes, w.table)
  }

  // ----- reading -----

  datatype ReadError = InvalidSignature | UnsupportedVersion | UnreadableNode | InvalidClassOrType | InvalidAttribute | InvalidUtf8

  /** A value with the bytes and the string list that remain; `Missing` where the reader
      gives up without an error of its own; `Raised` where it raises one. */
  datatype Read<+T> = Got(value: T, rest: Bytes, list: seq<Text>) | Missing | Raised(error: ReadError)

  function DecodeNumber(bs: Bytes): (r: Option<(nat, Bytes)>)
    ensures r.Some? ==> |r.value.1| < |bs|
  {
    if bs == [] then None
    else if bs[0] < 0x80 then Some((bs[0], bs[1..]))
    else
      var high := DecodeNumber(bs[1..]);
      if high.None? then None else Some((bs[0] - 0x80 + 0x80 * high.value.0, high.value.1))
  }

  function ReadString(bs: Bytes, list: seq<Text>): (r: Read<Text>)
    ensures r.Got? ==> |r.rest| < |bs|
  {
    var length := DecodeNumber(bs);
    if length.None? then Missing
    else
      var (n, rest) := length.value;
      if n / 0x1000000 == 0xFF then
        var id := n % 0x1000000;
        if id < |list| then Got(list[id], rest, list) else Missing
      else if n > |rest| then Missing
      else
        var value := Decode(rest[..n]);
        if value.None? then Raised(InvalidUtf8)
        else Got(value.value, rest[n..], if IsLong(value.value) then list + [value.value] else list)
  }

  function SetAttribute(attrs: seq<(AttributeKey, Text)>, key: AttributeKey, value: Text): seq<(AttributeKey, Text)> {
    if attrs == [] then [(key, value)]
    else if attrs[0].0 == key then [(key, value)] + attrs[1..]
    else [attrs[0]] + SetAttribute(attrs[1..], key, value)
  }

  function ReadPayload(class_: nat, bs: Bytes, list: seq<Text>): (r: Read<Payload>)
    ensures r.Got? ==> |r.rest| <= |bs|
  {
    if class_ == 1 then
      var endCol := DecodeNumber(bs);
      if endCol.None? then Missing
      else
        var endLine := DecodeNumber(endCol.value.1);
        if endLine.None? then Missing
        else Got(Compound(endCol.value.0, endLine.value.0), endLine.value.1, list)
    else if class_ == 2 || class_ == 3 then
      match ReadString(bs, list)
      case Got(s, rest, more) => Got(if class_ == 2 then Valued(s) else Comment(s), rest, more)
      case Missing => Missing
      case Raised(e) => Raised(e)
    else Got(Plain, bs, list)
  }

  /** Reads `count` attributes onto those already set. */
  function ReadAttributes(count: nat, attrs: seq<(AttributeKey, Text)>, bs: Bytes, list: seq<Text>): (r: Read<seq<(AttributeKey, Text)>>)
    ensures r.Got? ==> |r.rest| <= |bs|
    decreases |bs|
  {
    if count == 0 then Got(attrs, bs, list)
    else
      var key := DecodeNumber(bs);
      if key.None? then Missing
      else if key.value.0 >= 27 then Raised(InvalidAttribute)
      else
        match ReadString(key.value.1, list)
        case Got(s, rest, more) => ReadAttributes(count - 1, SetAttribute(attrs, key.value.0, s), rest, more)
        case Missing => Missing
        case Raised(e) => Raised(e)
  }

  function ReadChildren(count: nat, bs: Bytes, list: seq<Text>): (r: Read<seq<Node>>)
    ensures r.Got? ==> |r.rest| <= |bs| && |r.value| == count
    decreases |bs|, 1
  {
    if count == 0 then Got([], bs, list)
    else
      match ReadNode(bs, list)
      case Missing => Missing
      case Raised(e) => Raised(e)
      case Got(first, rest, more) =>
        match ReadChildren(count - 1, rest, more)
        case Missing => Missing
        case Raised(e) => Raised(e)
        case Got(others, rest', more') => Got([first] + others, rest', more')
  }

  function ReadNode(bs: Bytes, list: seq<Text>): (r: Read<Node>)
    ensures r.Got? ==> |r.rest| < |bs|
    decreases |bs|, 0
  {
    var class_ := DecodeNumber(bs);
    if class_.None? then Missing
    else
      var typ := DecodeNumber(class_.value.1);
      if typ.None? then Missing
      else if class_.value.0 >= 4 || typ.value.0 >= 137 then Raised(InvalidClassOrType)
      else
        var col := DecodeNumber(typ.value.1);
        if col.None? then Missing
        else
          var line := DecodeNumber(col.value.1);
          if line.None? then Missing
          else
            match ReadPayload(class_.value.0, line.value.1, list)
            case Missing => Missing
            case Raised(e) => Raised(e)
            case Got(payload, rest, more) => ReadLists(payload, typ.value.0, col.value.0, line.value.0, rest, more)
  }

  /** The attribute and the child list of a node. */
  function ReadLists(payload: Payload, typ: NodeType, col: nat, line: nat, bs: Bytes, list: seq<Text>): (r: Read<Node>)
    ensures r.Got? ==> |r.rest| <= |bs|
    decreases |bs|, 2
  {
    var attrCount := DecodeNumber(bs);
    if attrCount.None? then Missing
    else
      match ReadAttributes(attrCount.value.0, [], attrCount.value.1, list)
      case Missing => Missing
      case Raised(e) => Raised(e)
      case Got(attrs, rest, more) =>
        var childCount := DecodeNumber(rest);
        if childCount.None? then Missing
        else
          match ReadChildren(childCount.value.0, childCount.value.1, more)
          case Missing => Missing
          case Raised(e) => Raised(e)
          case Got(children, rest', more') => Got(Node(payload, typ, col, line, attrs, children), rest', more')
  }

  function Load(bs: Bytes): Read<Node> {
    if !(SIGNATURE <= bs) then Raised(InvalidSignature)
    else
      var rest := bs[|SIGNATURE|..];
      // The low half of the version number is not compared.
      if |rest| < 4 || rest[2..4] != VERSION[2..4] then Raised(UnsupportedVersion)
      else
        var r := ReadNode(rest[4..], []);
        if r.Missing? then Raised(UnreadableNode) else r
  }
}
