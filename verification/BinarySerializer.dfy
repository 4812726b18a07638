/** The serializer as the program runs it: methods that append to and consume a byte
    stream and keep the writer's string table and the reader's string list as they go. */
module BinarySerializer {
  import opened BinaryFormat
  import opened BinaryRoundTrip
  import opened Utf8
  import opened Wrappers

  class ByteStream {
    var data: Bytes
    var pos: nat

    constructor (bytes: Bytes)
      ensures data == bytes && pos == 0
    {
      data, pos := bytes, 0;
    }

    ghost predicate Valid()
      reads this
    {
      pos <= |data|
    }

    function Rest(): Bytes
      reads this
      requires Valid()
    {
      data[pos..]
    }

    method Write(bytes: Bytes)
      modifies this
      ensures data == old(data) + bytes && pos == old(pos)
    {
      data := data + bytes;
    }

    /** At most `n` bytes from the current position. */
    method ReadUpTo(n: nat) returns (bytes: Bytes)
      requires Valid()
      modifies this
      ensures Valid() && data == old(data)
      ensures bytes + Rest() == old(Rest())
      ensures |bytes| == if n <= |old(Rest())| then n else |old(Rest())|
    {
      var end := if n <= |data| - pos then pos + n else |data|;
      bytes := data[pos..end];
      pos := end;
    }
  }

  function Pow2(k: nat): nat {
    if k == 0 then 1 else 2 * Pow2(k - 1)
  }

  lemma {:induction false} Pow2Add7(k: nat)
    ensures Pow2(k + 7) == 0x80 * Pow2(k)
  {
    assert Pow2(k + 7) == 2 * Pow2(k + 6) && Pow2(k + 6) == 2 * Pow2(k + 5) && Pow2(k + 5) == 2 * Pow2(k + 4);
    assert Pow2(k + 4) == 2 * Pow2(k + 3) && Pow2(k + 3) == 2 * Pow2(k + 2) && Pow2(k + 2) == 2 * Pow2(k + 1);
  }

  /** A read as the caller sees it: a value, None, or an exception. */
  datatype Outcome<+T> = Present(value: T) | Absent | Error(error: ReadError)

  /** The outcome is what the format says, and on a value so are the rest of the stream
      and the string list. */
  ghost predicate Follows<T>(r: Outcome<T>, spec: BinaryFormat.Read<T>, rest: Bytes, list: seq<Text>) {
    match spec
    case Got(value, bs, more) => r == Present(value) && rest == bs && list == more
    case Missing => r == Absent
    case Raised(e) => r == Error(e)
  }

  /** The children read so far in front of what reading the remaining ones gives. */
  ghost predicate Prefixed(ns: seq<Node>, rest: BinaryFormat.Read<seq<Node>>, all: BinaryFormat.Read<seq<Node>>) {
    match rest
    case Got(others, bs, list) => all == Got(ns + others, bs, list)
    case Missing => all == Missing
    case Raised(e) => all == Raised(e)
  }

  lemma {:induction false} PrefixedStart(all: BinaryFormat.Read<seq<Node>>)
    ensures Prefixed([], all, all)
  {
    if all.Got? {
      assert [] + all.value == all.value;
    }
  }

  lemma {:induction false} PrefixedEnd(ns: seq<Node>, bs: Bytes, list: seq<Text>, all: BinaryFormat.Read<seq<Node>>)
    requires Prefixed(ns, ReadChildren(0, bs, list), all)
    ensures all == Got(ns, bs, list)
  {
    assert ns + [] == ns;
  }

  lemma {:induction false} PrefixedStep(ns: seq<Node>, count: nat, less: nat, bs: Bytes, list: seq<Text>, all: BinaryFormat.Read<seq<Node>>)
    requires count == less + 1 && Prefixed(ns, ReadChildren(count, bs, list), all)
    ensures var r := ReadNode(bs, list);
            && (r.Got? ==> Prefixed(ns + [r.value], ReadChildren(less, r.rest, r.list), all))
            && (r.Missing? ==> all == Missing)
            && (r.Raised? ==> all == Raised(r.error))
  {
    var first := ReadNode(bs, list);
    if first.Got? {
      var others := ReadChildren(less, first.rest, first.list);
      if others.Got? {
        assert ns + ([first.value] + others.value) == ns + [first.value] + others.value;
      }
    }
  }

  lemma {:induction false} ChildListAt(ns: seq<Node>, i: nat, table: Table)
    requires i < |ns|
    ensures var first := WriteNode(ns[i], table);
            WriteChildren(ns[i..], table) ==
            if !first.ok then first
            else
              var rest := WriteChildren(ns[i + 1..], first.table);
              Written(rest.ok, first.bytes + rest.bytes, rest.table)
  {
    assert ns[i..][1..] == ns[i + 1..];
  }

  /** The bytes of a node behind what the stream held before. */
  lemma {:induction false} TreeBytes(start: Bytes, n: Node, table: Table)
    requires WriteNode(n, table).ok
    ensures var payload := WritePayload(n.payload, table);
            var attrs := WriteAttributes(n.attributes, payload.table);
            var children := WriteChildren(n.children, attrs.table);
            start + WriteNode(n, table).bytes ==
            start + Header(n) + payload.bytes + EncodeNumber(|n.attributes|) + attrs.bytes + EncodeNumber(|n.children|) + children.bytes
  {
    var payload := WritePayload(n.payload, table);
    var attrs := WriteAttributes(n.attributes, payload.table);
    var children := WriteChildren(n.children, attrs.table);
    Regroup7Behind(start, Header(n), payload.bytes, EncodeNumber(|n.attributes|), attrs.bytes, EncodeNumber(|n.children|), children.bytes);
  }

  lemma {:induction false} Regroup7Behind(s: Bytes, a: Bytes, b: Bytes, c: Bytes, d: Bytes, e: Bytes, f: Bytes)
    ensures s + (a + b + c + d + e + f) == s + a + b + c + d + e + f
  {
  }

  lemma {:induction false} Regroup5(s: Bytes, a: Bytes, b: Bytes, c: Bytes, d: Bytes)
    ensures s + (a + b + c + d) == s + a + b + c + d
  {
  }

  lemma {:induction false} Regroup4(s: Bytes, a: Bytes, b: Bytes, c: Bytes)
    ensures s + (a + b + c) == s + a + b + c
  {
  }

  lemma {:induction false} Associative3(s: Bytes, a: Bytes, b: Bytes)
    ensures s + (a + b) == s + a + b
  {
  }

  class Serializer {
    var stringList: seq<Text>
    var stringTable: Table

    constructor ()
      ensures stringList == [] && stringTable == map[]
    {
      stringList, stringTable := [], map[];
    }

    method WriteNumber(stream: ByteStream, num: nat)
      modifies stream
      ensures stream.data == old(stream.data) + EncodeNumber(num)
    {
      var value := num;
      while true
        invariant stream.data + EncodeNumber(value) == old(stream.data) + EncodeNumber(num)
        decreases value
      {
        var low := value % 0x80;
        ghost var before, all := stream.data, EncodeNumber(value);
        value := value / 0x80;
        if value != 0 {
          assert all == [low + 0x80] + EncodeNumber(value);
          assert before + ([low + 0x80] + EncodeNumber(value)) == before + [low + 0x80] + EncodeNumber(value);
          low := low + 0x80;
        }
        stream.Write([low]);
        if value == 0 {
          return;
        }
      }
    }

    /** False where the program raises because the table has outgrown its references. */
    method WriteText(stream: ByteStream, value: Text) returns (ok: bool)
      modifies this, stream
      ensures stringList == old(stringList)
      ensures var w := WriteString(value, old(stringTable));
              ok == w.ok && stringTable == w.table && stream.data == old(stream.data) + w.bytes
    {
      if IsLong(value) && value in stringTable {
        WriteNumber(stream, stringTable[value] + REFERENCE);
        return true;
      }
      if IsLong(value) {
        stringTable := stringTable[value := |stringTable|];
        if stringTable[value] > 0xFFFFFF {
          assert stream.data + [] == stream.data;
          return false;
        }
      }
      var data := Encode(value);
      WriteNumber(stream, |data|);
      if data != [] {
        stream.Write(data);
      }
      return true;
    }

    /** None where the stream ends inside the number. */
    method ReadNumber(stream: ByteStream) returns (r: Option<nat>)
      requires stream.Valid()
      modifies stream
      ensures stream.Valid() && stream.data == old(stream.data)
      ensures var d := DecodeNumber(old(stream.Rest()));
              if d.Some? then r == Some(d.value.0) && stream.Rest() == d.value.1 else r == None
    {
      var shift, num := 0, 0;
      ghost var start := stream.Rest();
      while true
        invariant stream.Valid() && stream.data == old(stream.data)
        invariant var all, d := DecodeNumber(start), DecodeNumber(stream.Rest());
                  if d.Some? then all == Some((num + Pow2(shift) * d.value.0, d.value.1)) else all == None
        decreases |stream.Rest()|
      {
        ghost var before := stream.Rest();
        var data := stream.ReadUpTo(1);
        if |data| != 1 {
          return None;
        }
        assert before[0] == data[0] && before[1..] == stream.Rest();
        var low := data[0];
        Pow2Add7(shift);
        if low < 0x80 {
          assert DecodeNumber(before) == Some((low, stream.Rest()));
          return Some(num + Pow2(shift) * low);
        }
        ghost var d := DecodeNumber(stream.Rest());
        if d.Some? {
          var bits := low - 0x80;
          assert DecodeNumber(before) == Some((bits + 0x80 * d.value.0, d.value.1));
          Distribute(Pow2(shift), bits, d.value.0);
        }
        num := num + Pow2(shift) * (low - 0x80);
        shift := shift + 7;
      }
    }

    method ReadText(stream: ByteStream) returns (r: Outcome<Text>)
      requires stream.Valid()
      modifies this, stream
      ensures stream.Valid() && stream.data == old(stream.data) && stringTable == old(stringTable)
      ensures Follows(r, ReadString(old(stream.Rest()), old(stringList)), stream.Rest(), stringList)
    {
      var length := ReadNumber(stream);
      if length.None? {
        return Absent;
      }
      ghost var rest := stream.Rest();
      if length.value / 0x1000000 == 0xFF {
        var id := length.value % 0x1000000;
        if id >= |stringList| {
          return Absent;
        }
        return Present(stringList[id]);
      }
      var data := stream.ReadUpTo(length.value);
      if |data| != length.value {
        return Absent;
      }
      assert rest[..length.value] == data && rest[length.value..] == stream.Rest();
      var value := Decode(data);
      if value.None? {
        return Error(InvalidUtf8);
      }
      if IsLong(value.value) {
        stringList := stringList + [value.value];
      }
      return Present(value.value);
    }

    method WriteFields(stream: ByteStream, payload: Payload) returns (ok: bool)
      modifies this, stream
      ensures stringList == old(stringList)
      ensures var w := WritePayload(payload, old(stringTable));
              ok == w.ok && stringTable == w.table && stream.data == old(stream.data) + w.bytes
    {
      match payload {
        case Plain =>
          assert stream.data + [] == stream.data;
          ok := true;
        case Compound(endCol, endLine) =>
          WriteNumber(stream, endCol);
          WriteNumber(stream, endLine);
          assert old(stream.data) + EncodeNumber(endCol) + EncodeNumber(endLine)
              == old(stream.data) + (EncodeNumber(endCol) + EncodeNumber(endLine));
          ok := true;
        case Valued(value) =>
          ok := WriteText(stream, value);
        case Comment(text) =>
          ok := WriteText(stream, text);
      }
    }

    method WriteAttributeList(stream: ByteStream, attrs: seq<(AttributeKey, Text)>) returns (ok: bool)
      modifies this, stream
      ensures stringList == old(stringList)
      ensures var w := WriteAttributes(attrs, old(stringTable));
              ok == w.ok && (ok ==> stringTable == w.table && stream.data == old(stream.data) + w.bytes)
    {
      for i := 0 to |attrs|
        invariant stringList == old(stringList)
        invariant var w, rest := WriteAttributes(attrs, old(stringTable)), WriteAttributes(attrs[i..], stringTable);
                  w.ok == rest.ok && (w.ok ==> w.table == rest.table && old(stream.data) + w.bytes == stream.data + rest.bytes)
      {
        ghost var before, rest := stream.data, WriteAttributes(attrs[i..], stringTable);
        assert attrs[i..][1..] == attrs[i + 1..];
        WriteNumber(stream, attrs[i].0);
        ghost var first := WriteString(attrs[i].1, stringTable);
        ok := WriteText(stream, attrs[i].1);
        if !ok {
          return;
        }
        ghost var others := WriteAttributes(attrs[i + 1..], stringTable);
        Regroup4(before, EncodeNumber(attrs[i].0), first.bytes, others.bytes);
      }
      ok := true;
      assert stream.data + [] == stream.data;
    }

    method WriteChildList(stream: ByteStream, ns: seq<Node>) returns (ok: bool)
      modifies this, stream
      ensures stringList == old(stringList)
      ensures var w := WriteChildren(ns, old(stringTable));
              ok == w.ok && (ok ==> stringTable == w.table && stream.data == old(stream.data) + w.bytes)
      decreases ns, 0
    {
      for i := 0 to |ns|
        invariant stringList == old(stringList)
        invariant var w, rest := WriteChildren(ns, old(stringTable)), WriteChildren(ns[i..], stringTable);
                  w.ok == rest.ok && (w.ok ==> w.table == rest.table && old(stream.data) + w.bytes == stream.data + rest.bytes)
      {
        ghost var before, table := stream.data, stringTable;
        ChildListAt(ns, i, table);
        ok := WriteTree(stream, ns[i]);
        if !ok {
          return;
        }
        Associative3(before, WriteNode(ns[i], table).bytes, WriteChildren(ns[i + 1..], stringTable).bytes);
      }
      ok := true;
      assert stream.data + [] == stream.data;
    }

    /** Appends the node to the stream; false where the program raises. */
    method WriteTree(stream: ByteStream, n: Node) returns (ok: bool)
      modifies this, stream
      ensures stringList == old(stringList)
      ensures var w := WriteNode(n, old(stringTable));
              ok == w.ok && (ok ==> stringTable == w.table && stream.data == old(stream.data) + w.bytes)
      decreases n, 1
    {
      ghost var start, table := stream.data, stringTable;
      WriteNumber(stream, ClassOf(n.payload));
      WriteNumber(stream, n.typ);
      WriteNumber(stream, n.col);
      WriteNumber(stream, n.line);
      Regroup5(start, EncodeNumber(ClassOf(n.payload)), EncodeNumber(n.typ), EncodeNumber(n.col), EncodeNumber(n.line));
      assert stream.data == start + Header(n);
      ok := WriteFields(stream, n.payload);
      if !ok {
        return;
      }
      WriteNumber(stream, |n.attributes|);
      ok := WriteAttributeList(stream, n.attributes);
      if !ok {
        return;
      }
      WriteNumber(stream, |n.children|);
      ok := WriteChildList(stream, n.children);
      if ok {
        TreeBytes(start, n, table);
      }
    }

    method Write(stream: ByteStream, root: Node) returns (ok: bool)
      modifies this, stream
      ensures ok == Dump(root).ok
      ensures ok ==> stream.data == old(stream.data) + Dump(root).bytes && stringTable == Dump(root).table
    {
      stringTable := map[];
      stream.Write(SIGNATURE);
      stream.Write(VERSION);
      ok := WriteTree(stream, root);
      Regroup4(old(stream.data), SIGNATURE, VERSION, WriteNode(root, map[]).bytes);
    }

    method ReadFields(stream: ByteStream, class_: nat) returns (r: Outcome<Payload>)
      requires stream.Valid()
      modifies this, stream
      ensures stream.Valid() && stream.data == old(stream.data) && stringTable == old(stringTable)
      ensures Follows(r, ReadPayload(class_, old(stream.Rest()), old(stringList)), stream.Rest(), stringList)
    {
      if class_ == 1 {
        var endCol := ReadNumber(stream);
        if endCol.None? {
          return Absent;
        }
        var endLine := ReadNumber(stream);
        if endLine.None? {
          return Absent;
        }
        return Present(Compound(endCol.value, endLine.value));
      }
      if class_ == 2 || class_ == 3 {
        var s := ReadText(stream);
        match s {
          case Present(value) => return Present(if class_ == 2 then Valued(value) else Comment(value));
          case Absent => return Absent;
          case Error(e) => return Error(e);
        }
      }
      return Present(Plain);
    }

    method ReadAttributeList(stream: ByteStream, count: nat) returns (r: Outcome<seq<(AttributeKey, Text)>>)
      requires stream.Valid()
      modifies this, stream
      ensures stream.Valid() && stream.data == old(stream.data) && stringTable == old(stringTable)
      ensures Follows(r, ReadAttributes(count, [], old(stream.Rest()), old(stringList)), stream.Rest(), stringList)
      ensures r.Present? ==> |stream.Rest()| <= |old(stream.Rest())|
    {
      var attrs := [];
      for i := 0 to count
        invariant stream.Valid() && stream.data == old(stream.data) && stringTable == old(stringTable)
        invariant ReadAttributes(count - i, attrs, stream.Rest(), stringList) == ReadAttributes(count, [], old(stream.Rest()), old(stringList))
      {
        var key := ReadNumber(stream);
        if key.None? {
          return Absent;
        }
        if key.value >= 27 {
          return Error(InvalidAttribute);
        }
        var s := ReadText(stream);
        match s {
          case Present(value) => attrs := SetAttribute(attrs, key.value, value);
          case Absent => return Absent;
          case Error(e) => return Error(e);
        }
      }
      return Present(attrs);
    }

    /** The node at the current position; None where the program gives up without raising. */
    method ReadTree(stream: ByteStream) returns (r: Outcome<Node>)
      requires stream.Valid()
      modifies this, stream
      ensures stream.Valid() && stream.data == old(stream.data) && stringTable == old(stringTable)
      ensures Follows(r, ReadNode(old(stream.Rest()), old(stringList)), stream.Rest(), stringList)
      decreases |stream.Rest()|, 0
    {
      var class_ := ReadNumber(stream);
      if class_.None? {
        return Absent;
      }
      var typ := ReadNumber(stream);
      if typ.None? {
        return Absent;
      }
      if class_.value >= 4 || typ.value >= 137 {
        return Error(InvalidClassOrType);
      }
      var col := ReadNumber(stream);
      if col.None? {
        return Absent;
      }
      var line := ReadNumber(stream);
      if line.None? {
        return Absent;
      }
      var payload := ReadFields(stream, class_.value);
      match payload {
        case Absent => return Absent;
        case Error(e) => return Error(e);
        case Present(p) => r := ReadListsOf(stream, p, typ.value, col.value, line.value);
      }
    }

    method ReadListsOf(stream: ByteStream, payload: Payload, typ: NodeType, col: nat, line: nat) returns (r: Outcome<Node>)
      requires stream.Valid()
      modifies this, stream
      ensures stream.Valid() && stream.data == old(stream.data) && stringTable == old(stringTable)
      ensures Follows(r, ReadLists(payload, typ, col, line, old(stream.Rest()), old(stringList)), stream.Rest(), stringList)
      decreases |stream.Rest()|, 2
    {
      var attrCount := ReadNumber(stream);
      if attrCount.None? {
        return Absent;
      }
      var attrs := ReadAttributeList(stream, attrCount.value);
      match attrs {
        case Absent => return Absent;
        case Error(e) => return Error(e);
        case Present(list) =>
          var childCount := ReadNumber(stream);
          if childCount.None? {
            return Absent;
          }
          var children := ReadChildList(stream, childCount.value);
          match children {
            case Absent => return Absent;
            case Error(e) => return Error(e);
            case Present(ns) => return Present(Node(payload, typ, col, line, list, ns));
          }
      }
    }

    method ReadChildList(stream: ByteStream, count: nat) returns (r: Outcome<seq<Node>>)
      requires stream.Valid()
      modifies this, stream
      ensures stream.Valid() && stream.data == old(stream.data) && stringTable == old(stringTable)
      ensures Follows(r, ReadChildren(count, old(stream.Rest()), old(stringList)), stream.Rest(), stringList)
      decreases |stream.Rest()|, 1
    {
      var ns: seq<Node> := [];
      ghost var spec := ReadChildren(count, stream.Rest(), stringList);
      ghost var left := count;
      PrefixedStart(spec);
      for i := 0 to count
        invariant stream.Valid() && stream.data == old(stream.data) && stringTable == old(stringTable)
        invariant |stream.Rest()| <= |old(stream.Rest())|
        invariant left == count - i && Prefixed(ns, ReadChildren(left, stream.Rest(), stringList), spec)
      {
        ghost var less := left - 1;
        PrefixedStep(ns, left, less, stream.Rest(), stringList, spec);
        var child := ReadTree(stream);
        match child {
          case Absent => return Absent;
          case Error(e) => return Error(e);
          case Present(n) => ns := ns + [n];
        }
        left := less;
      }
      PrefixedEnd(ns, stream.Rest(), stringList, spec);
      return Present(ns);
    }

    method Read(stream: ByteStream) returns (r: Result<Node, ReadError>)
      requires stream.Valid()
      modifies this, stream
      ensures stream.Valid() && stream.data == old(stream.data)
      ensures match Load(old(stream.Rest()))
              case Got(n, rest, list) => r == Success(n) && stream.Rest() == rest && stringList == list
              case Raised(e) => r == Failure(e)
              case Missing => false
    {
      stringList := [];
      ghost var all := stream.Rest();
      var signature := stream.ReadUpTo(|SIGNATURE|);
      if signature != SIGNATURE {
        assert |SIGNATURE| <= |all| ==> all[..|SIGNATURE|] == signature;
        return Failure(InvalidSignature);
      }
      assert SIGNATURE <= all && all[|SIGNATURE|..] == stream.Rest();
      ghost var rest := stream.Rest();
      var version := stream.ReadUpTo(4);
      if |version| != 4 || version[2..4] != VERSION[2..4] {
        return Failure(UnsupportedVersion);
      }
      assert rest[4..] == stream.Rest();
      var node := ReadTree(stream);
      match node {
        case Absent => return Failure(UnreadableNode);
        case Error(e) => return Failure(e);
        case Present(n) => return Success(n);
      }
    }
  }

  lemma {:induction false} Distribute(p: nat, bits: nat, high: nat)
    ensures p * (bits + 0x80 * high) == p * bits + (0x80 * p) * high
  {
  }

  /** Writing a tree into a fresh buffer. */
  method Dumps(node: Node) returns (r: Option<Bytes>)
    ensures r == if Dump(node).ok then Some(Dump(node).bytes) else None
  {
    var stream := new ByteStream([]);
    var serializer := new Serializer();
    var ok := serializer.Write(stream, node);
    assert ok ==> stream.data == Dump(node).bytes;
    return if ok then Some(stream.data) else None;
  }

  method Loads(data: Bytes) returns (r: Result<Node, ReadError>)
    ensures match Load(data)
            case Got(n, _, _) => r == Success(n)
            case Raised(e) => r == Failure(e)
            case Missing => false
  {
    var stream := new ByteStream(data);
    var serializer := new Serializer();
    assert stream.Rest() == data;
    r := serializer.Read(stream);
  }

  /** A tree can be written exactly when its distinct long strings can be numbered, and read back
      it is the same tree exactly when it is clean. */
  method WriteThenRead(node: Node) returns (bytes: Option<Bytes>, back: Result<Node, ReadError>)
    ensures bytes.Some? <==> |LongStrings(node)| <= MAX_STRINGS
    ensures bytes.Some? ==> (back == Success(node) <==> Clean(node))
  {
    WritesUpToLimit(node);
    bytes := Dumps(node);
    back := Failure(UnreadableNode);
    if bytes.Some? {
      back := Loads(bytes.value);
      LoadSame(node);
    }
  }

  lemma {:induction false} LoadSame(node: Node)
    requires |LongStrings(node)| <= MAX_STRINGS
    ensures Load(Dump(node).bytes).Got? && Load(Dump(node).bytes).value == node <==> Clean(node)
  {
    RoundTrip(node);
    if Load(Dump(node).bytes).Got? {
      LoadIsClean(Dump(node).bytes);
    }
  }

  lemma {:induction false} LoadIsClean(bytes: Bytes)
    requires Load(bytes).Got?
    ensures Clean(Load(bytes).value)
  {
    ReadNodeIsClean(bytes[|SIGNATURE|..][4..], []);
  }
}
