/** The bytes of the format written out: what a number, a string, a node and a whole file look like. */
module BinaryLayout {
  import opened Utf8
  import opened BinaryFormat

  /** The lowest seven bits come first, and all bytes but the last have their top bit set. */
  lemma {:induction false} NumberBytes(n: nat)
    ensures var bs := EncodeNumber(n);
            && bs[0] % 0x80 == n % 0x80 && bs[|bs| - 1] < 0x80
            && forall i :: 0 <= i < |bs| - 1 ==> bs[i] >= 0x80
    ensures n < 0x80 ==> EncodeNumber(n) == [n]
    ensures 0x80 <= n < 0x4000 ==> EncodeNumber(n) == [n % 0x80 + 0x80, n / 0x80]
  {
    if n >= 0x80 {
      NumberBytes(n / 0x80);
    }
  }

  /** Up to four characters a string is its length and its bytes every time; a longer one is numbered when it
      is first written and a reference to its number from then on, up to 2^24 of them. */
  lemma {:induction false} StringBytes(s: Text, table: Table)
    ensures |s| <= 4 ==> WriteString(s, table) == Written(true, EncodeNumber(|Encode(s)|) + Encode(s), table)
    ensures |s| >= 5 && s in table ==> WriteString(s, table) == Written(true, EncodeNumber(0xFF000000 + table[s]), table)
    ensures |s| >= 5 && s !in table && |table| < 0x1000000 ==>
              WriteString(s, table) == Written(true, EncodeNumber(|Encode(s)|) + Encode(s), table[s := |table|])
    ensures |s| >= 5 && s !in table && |table| >= 0x1000000 ==> !WriteString(s, table).ok
  {
  }

  /** The number of the class, then what the class adds to a node. */
  lemma {:induction false} PayloadBytes(p: Payload, table: Table)
    ensures p.Plain? ==> ClassOf(p) == 0 && WritePayload(p, table).bytes == []
    ensures p.Compound? ==> ClassOf(p) == 1 && WritePayload(p, table).bytes == EncodeNumber(p.endCol) + EncodeNumber(p.endLine)
    ensures p.Valued? ==> ClassOf(p) == 2 && WritePayload(p, table) == WriteString(p.value, table)
    ensures p.Comment? ==> ClassOf(p) == 3 && WritePayload(p, table) == WriteString(p.text, table)
  {
  }

  /** Class, type, column and line, what the class adds, the attributes behind their count, the children behind
      theirs; each part is written with the table the parts before it have left. */
  lemma {:induction false} NodeBytes(n: Node, table: Table)
    requires WriteNode(n, table).ok
    ensures var payload := WritePayload(n.payload, table);
            var attrs := WriteAttributes(n.attributes, payload.table);
            var children := WriteChildren(n.children, attrs.table);
            && WriteNode(n, table).bytes
               == EncodeNumber(ClassOf(n.payload)) + EncodeNumber(n.typ) + EncodeNumber(n.col) + EncodeNumber(n.line) + payload.bytes
                  + EncodeNumber(|n.attributes|) + attrs.bytes + EncodeNumber(|n.children|) + children.bytes
            && WriteNode(n, table).table == children.table
  {
  }

  /** An attribute is its key and its value, a row of them is one behind the other. */
  lemma {:induction false} AttributeBytes(attrs: seq<(AttributeKey, Text)>, table: Table)
    requires attrs != [] && WriteAttributes(attrs, table).ok
    ensures var first := WriteString(attrs[0].1, table);
            WriteAttributes(attrs, table).bytes == EncodeNumber(attrs[0].0) + first.bytes + WriteAttributes(attrs[1..], first.table).bytes
  {
  }

  lemma {:induction false} LeafIs(typ: NodeType, col: nat, line: nat)
    requires typ < 0x80 && col < 0x80 && line < 0x80
    ensures WriteNode(Node(Plain, typ, col, line, [], []), map[]) == Written(true, [0, typ, col, line, 0, 0], map[])
  {
    var leaf := Node(Plain, typ, col, line, [], []);
    NumberBytes(typ);
    NumberBytes(col);
    NumberBytes(line);
    assert WriteAttributes([], map[]) == Written(true, [], map[]) && WriteChildren([], map[]) == Written(true, [], map[]);
    assert Header(leaf) == [0, typ, col, line];
  }

  /** A file with one node, byte by byte: the signature, the version with its lowest byte first, and the node. */
  lemma {:induction false} FileBytes(typ: NodeType, col: nat, line: nat)
    requires typ < 0x80 && col < 0x80 && line < 0x80
    ensures Dump(Node(Plain, typ, col, line, [], [])).ok
    ensures Dump(Node(Plain, typ, col, line, [], [])).bytes
            == [0x44, 0x41, 0x53, 0x54, 0x20, 0x62, 0x69, 0x6E, 0x61, 0x72, 0x79, 0x20, 0x66, 0x69, 0x6C, 0x65, 0x1A,
                0x00, 0x00, 0x00, 0x01, 0, typ, col, line, 0, 0]
  {
    LeafIs(typ, col, line);
  }

  /** The four lengths of an encoded character and the values they hold. */
  lemma {:induction false} ScalarBytes(c: Scalar)
    ensures c < 0x80 ==> EncodeScalar(c) == [c]
    ensures 0x80 <= c < 0x800 ==> EncodeScalar(c) == [0xC0 + c / 0x40, 0x80 + c % 0x40]
    ensures 0x800 <= c < 0x10000 ==> EncodeScalar(c) == [0xE0 + c / 0x1000, 0x80 + c / 0x40 % 0x40, 0x80 + c % 0x40]
    ensures 0x10000 <= c ==>
              EncodeScalar(c) == [0xF0 + c / 0x40000, 0x80 + c / 0x1000 % 0x40, 0x80 + c / 0x40 % 0x40, 0x80 + c % 0x40]
  {
    assert c / 0x40 / 0x40 == c / 0x1000 && c / 0x40 / 0x40 / 0x40 == c / 0x40000;
  }
}
