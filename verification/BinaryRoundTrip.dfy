/** Reading what was written gives the same tree back, exactly when the tree has no
    repeated attribute key and no string whose encoded length looks like a reference. */
module BinaryRoundTrip {
  import opened BinaryFormat
  import opened Utf8
  import opened Wrappers

  // ----- when a tree survives -----

  /** The encoded length is not mistaken for a string reference. */
  predicate PlainLength(s: Text) {
    |Encode(s)| / 0x1000000 != 0xFF
  }

  ghost predicate DistinctKeys(attrs: seq<(AttributeKey, Text)>) {
    forall i, j :: 0 <= i < j < |attrs| ==> attrs[i].0 != attrs[j].0
  }

  ghost predicate CleanPayload(p: Payload) {
    match p
    case Valued(v) => PlainLength(v)
    case Comment(t) => PlainLength(t)
    case _ => true
  }

  ghost predicate CleanAll(ns: seq<Node>) {
    forall i :: 0 <= i < |ns| ==> Clean(ns[i])
  }

  ghost predicate Clean(n: Node) {
    && CleanPayload(n.payload)
    && DistinctKeys(n.attributes)
    && (forall a :: a in n.attributes ==> PlainLength(a.1))
    && CleanAll(n.children)
  }

  // ----- the two string tables -----

  /** The writer's table and the reader's list hold the same strings, each at its number,
      and every number fits a reference. */
  ghost predicate Mirrors(table: Table, list: seq<Text>) {
    && |table| == |list| <= 0x1000000
    && (forall i :: 0 <= i < |list| ==> list[i] in table && table[list[i]] == i)
    && (forall s :: s in table ==> table[s] < |list| && list[table[s]] == s)
  }

  /** The reader's list after reading `s`. */
  function Listed(s: Text, table: Table, list: seq<Text>): seq<Text> {
    if IsLong(s) && s !in table then list + [s] else list
  }

  lemma {:induction false} MirrorsGrow(s: Text, table: Table, list: seq<Text>)
    requires Mirrors(table, list) && WriteString(s, table).ok
    ensures Mirrors(WriteString(s, table).table, Listed(s, table, list))
  {
    if IsLong(s) && s !in table {
      var grown, more := table[s := |table|], list + [s];
      assert grown.Keys == table.Keys + {s};
      assert |grown| == |table| + 1;
      forall i | 0 <= i < |more|
        ensures more[i] in grown && grown[more[i]] == i
      {
        if i < |list| {
          assert list[i] in table && list[i] != s;
        }
      }
    }
  }

  // ----- when a tree can be written -----

  /** The strings that get a number: those longer than a reference would be. */
  function LongString(s: Text): set<Text> {
    if IsLong(s) then {s} else {}
  }

  function PayloadStrings(p: Payload): set<Text> {
    match p
    case Valued(v) => LongString(v)
    case Comment(t) => LongString(t)
    case _ => {}
  }

  function AttributeStrings(attrs: seq<(AttributeKey, Text)>): set<Text> {
    if attrs == [] then {} else LongString(attrs[0].1) + AttributeStrings(attrs[1..])
  }

  function ChildrenStrings(ns: seq<Node>): set<Text>
    decreases ns, 0
  {
    if ns == [] then {} else LongStrings(ns[0]) + ChildrenStrings(ns[1..])
  }

  /** The distinct long strings of a tree. */
  function LongStrings(n: Node): set<Text>
    decreases n, 1
  {
    PayloadStrings(n.payload) + AttributeStrings(n.attributes) + ChildrenStrings(n.children)
  }

  const MAX_STRINGS := 0x1000000

  /** A write succeeds exactly when the table can hold the strings too, and then holds them. */
  ghost predicate Holds(w: Written, table: Table, strings: set<Text>) {
    && (w.ok <==> |table.Keys + strings| <= MAX_STRINGS)
    && (w.ok ==> w.table.Keys == table.Keys + strings)
  }

  lemma {:induction false} NoLarger(a: set<Text>, b: set<Text>)
    requires a <= b
    ensures |a| <= |b|
  {
    assert b == a + (b - a);
  }

  lemma {:induction false} StringHolds(s: Text, table: Table)
    requires |table.Keys| <= MAX_STRINGS
    ensures Holds(WriteString(s, table), table, LongString(s))
  {
    assert |table| == |table.Keys|;
    if IsLong(s) && s !in table {
      assert |table.Keys + {s}| == |table.Keys| + 1;
    } else {
      assert table.Keys + LongString(s) == table.Keys;
    }
  }

  /** Two writes one after the other. */
  lemma {:induction false} BothHold(table: Table, first: Written, a: set<Text>, second: Written, b: set<Text>, both: Written)
    requires Holds(first, table, a) && (first.ok ==> Holds(second, first.table, b))
    requires both.ok == (first.ok && second.ok) && (both.ok ==> both.table == second.table)
    ensures Holds(both, table, a + b)
  {
    assert table.Keys + (a + b) == table.Keys + a + b;
    NoLarger(table.Keys + a, table.Keys + (a + b));
  }

  lemma {:induction false} PayloadHolds(p: Payload, table: Table)
    requires |table.Keys| <= MAX_STRINGS
    ensures Holds(WritePayload(p, table), table, PayloadStrings(p))
  {
    match p
    case Valued(v) => StringHolds(v, table);
    case Comment(t) => StringHolds(t, table);
    case _ => assert table.Keys + {} == table.Keys;
  }

  lemma {:induction false} AttributesHold(attrs: seq<(AttributeKey, Text)>, table: Table)
    requires |table.Keys| <= MAX_STRINGS
    ensures Holds(WriteAttributes(attrs, table), table, AttributeStrings(attrs))
  {
    if attrs == [] {
      assert table.Keys + {} == table.Keys;
    } else {
      var first := WriteString(attrs[0].1, table);
      StringHolds(attrs[0].1, table);
      if first.ok {
        AttributesHold(attrs[1..], first.table);
      }
      BothHold(table, first, LongString(attrs[0].1), WriteAttributes(attrs[1..], first.table), AttributeStrings(attrs[1..]),
               WriteAttributes(attrs, table));
    }
  }

  lemma {:induction false} ChildrenHold(ns: seq<Node>, table: Table)
    requires |table.Keys| <= MAX_STRINGS
    ensures Holds(WriteChildren(ns, table), table, ChildrenStrings(ns))
    decreases ns, 0
  {
    if ns == [] {
      assert table.Keys + {} == table.Keys;
    } else {
      var first := WriteNode(ns[0], table);
      NodeHolds(ns[0], table);
      if first.ok {
        ChildrenHold(ns[1..], first.table);
      }
      BothHold(table, first, LongStrings(ns[0]), WriteChildren(ns[1..], first.table), ChildrenStrings(ns[1..]),
               WriteChildren(ns, table));
    }
  }

  /** Writing a node succeeds exactly when its distinct long strings, with those that the table
      holds already, can all be numbered. */
  lemma {:induction false} NodeHolds(n: Node, table: Table)
    requires |table.Keys| <= MAX_STRINGS
    ensures Holds(WriteNode(n, table), table, LongStrings(n))
    decreases n, 1
  {
    var payload := WritePayload(n.payload, table);
    var attrs := WriteAttributes(n.attributes, payload.table);
    PayloadHolds(n.payload, table);
    var lists := Written(payload.ok && attrs.ok, [], attrs.table);
    if payload.ok {
      AttributesHold(n.attributes, payload.table);
    }
    BothHold(table, payload, PayloadStrings(n.payload), attrs, AttributeStrings(n.attributes), lists);
    if lists.ok {
      ChildrenHold(n.children, attrs.table);
    }
    BothHold(table, lists, PayloadStrings(n.payload) + AttributeStrings(n.attributes),
             WriteChildren(n.children, attrs.table), ChildrenStrings(n.children), WriteNode(n, table));
  }

  /** A tree can be written exactly when it has at most 2^24 distinct long strings. */
  lemma {:induction false} WritesUpToLimit(root: Node)
    ensures Dump(root).ok <==> |LongStrings(root)| <= MAX_STRINGS
  {
    var none: Table := map[];
    NodeHolds(root, none);
    assert none.Keys + LongStrings(root) == LongStrings(root);
  }

  // ----- written bytes read back -----

  lemma {:induction false} NumberRoundTrip(n: nat, rest: Bytes)
    ensures DecodeNumber(EncodeNumber(n) + rest) == Some((n, rest))
  {
    if n < 0x80 {
      assert ([n] + rest)[1..] == rest;
    } else {
      NumberRoundTrip(n / 0x80, rest);
      var low: Byte := n % 0x80 + 0x80;
      assert (EncodeNumber(n) + rest) == [low] + (EncodeNumber(n / 0x80) + rest);
      assert ([low] + (EncodeNumber(n / 0x80) + rest))[1..] == EncodeNumber(n / 0x80) + rest;
    }
  }

  lemma {:induction false} StringRoundTrip(s: Text, table: Table, list: seq<Text>, rest: Bytes)
    requires Mirrors(table, list) && WriteString(s, table).ok && PlainLength(s)
    ensures ReadString(WriteString(s, table).bytes + rest, list) == Got(s, rest, Listed(s, table, list))
  {
    if IsLong(s) && s in table {
      NumberRoundTrip(table[s] + REFERENCE, rest);
      assert table[s] < 0x1000000;
    } else {
      var data := Encode(s);
      NumberRoundTrip(|data|, data + rest);
      assert EncodeNumber(|data|) + data + rest == EncodeNumber(|data|) + (data + rest);
      assert (data + rest)[..|data|] == data && (data + rest)[|data|..] == rest;
      DecodeEncode(s);
    }
  }

  /** What the writer promises about one piece of a tree and the reader's state before it. */
  ghost predicate Ready(w: Written, table: Table, list: seq<Text>) {
    w.ok && Mirrors(table, list)
  }

  lemma {:induction false} PayloadRoundTrip(p: Payload, table: Table, list: seq<Text>, rest: Bytes) returns (more: seq<Text>)
    requires Ready(WritePayload(p, table), table, list) && CleanPayload(p)
    ensures Mirrors(WritePayload(p, table).table, more)
    ensures ReadPayload(ClassOf(p), WritePayload(p, table).bytes + rest, list) == Got(p, rest, more)
  {
    more := list;
    match p
    case Plain =>
      assert [] + rest == rest;
    case Compound(c, l) =>
      NumberRoundTrip(c, EncodeNumber(l) + rest);
      NumberRoundTrip(l, rest);
      assert EncodeNumber(c) + EncodeNumber(l) + rest == EncodeNumber(c) + (EncodeNumber(l) + rest);
    case Valued(v) =>
      StringRoundTrip(v, table, list, rest);
      MirrorsGrow(v, table, list);
      more := Listed(v, table, list);
    case Comment(t) =>
      StringRoundTrip(t, table, list, rest);
      MirrorsGrow(t, table, list);
      more := Listed(t, table, list);
  }

  lemma {:induction false} SetAttributeAppends(attrs: seq<(AttributeKey, Text)>, key: AttributeKey, value: Text)
    requires forall a :: a in attrs ==> a.0 != key
    ensures SetAttribute(attrs, key, value) == attrs + [(key, value)]
  {
    if attrs != [] {
      assert attrs[0] in attrs;
      SetAttributeAppends(attrs[1..], key, value);
      assert attrs == [attrs[0]] + attrs[1..];
    }
  }

  lemma {:induction false} AttributeStep(count: nat, done: seq<(AttributeKey, Text)>, key: AttributeKey, value: Text,
                      bytes: Bytes, tail: Bytes, list: seq<Text>, more: seq<Text>)
    requires ReadString(bytes + tail, list) == Got(value, tail, more)
    requires forall a :: a in done ==> a.0 != key
    ensures ReadAttributes(count + 1, done, EncodeNumber(key) + (bytes + tail), list) ==
            ReadAttributes(count, done + [(key, value)], tail, more)
  {
    NumberRoundTrip(key, bytes + tail);
    SetAttributeAppends(done, key, value);
  }

  lemma {:induction false} NewKey(done: seq<(AttributeKey, Text)>, attrs: seq<(AttributeKey, Text)>)
    requires attrs != [] && DistinctKeys(done + attrs)
    ensures forall a :: a in done ==> a.0 != attrs[0].0
    ensures done + attrs == done + [attrs[0]] + attrs[1..]
  {
    forall a | a in done
      ensures a.0 != attrs[0].0
    {
      var i :| 0 <= i < |done| && done[i] == a;
      assert (done + attrs)[i] == a && (done + attrs)[|done|] == attrs[0];
    }
  }

  lemma {:induction false} AttributesRoundTrip(done: seq<(AttributeKey, Text)>, attrs: seq<(AttributeKey, Text)>,
                                               table: Table, list: seq<Text>, rest: Bytes) returns (more: seq<Text>)
    requires Ready(WriteAttributes(attrs, table), table, list)
    requires DistinctKeys(done + attrs) && forall a :: a in attrs ==> PlainLength(a.1)
    ensures Mirrors(WriteAttributes(attrs, table).table, more)
    ensures ReadAttributes(|attrs|, done, WriteAttributes(attrs, table).bytes + rest, list) == Got(done + attrs, rest, more)
    decreases |attrs|
  {
    more := list;
    if attrs == [] {
      assert [] + rest == rest && done + attrs == done;
    } else {
      var (key, value) := attrs[0];
      assert attrs[0] in attrs;
      var first := WriteString(value, table);
      var others := WriteAttributes(attrs[1..], first.table);
      var tail := others.bytes + rest;
      MirrorsGrow(value, table, list);
      StringRoundTrip(value, table, list, tail);
      NewKey(done, attrs);
      more := AttributesRoundTrip(done + [attrs[0]], attrs[1..], first.table, Listed(value, table, list), rest);
      AttributeStep(|attrs| - 1, done, key, value, first.bytes, tail, list, Listed(value, table, list));
      Regroup(EncodeNumber(key), first.bytes, others.bytes, rest);
    }
  }

  lemma {:induction false} Regroup(a: Bytes, b: Bytes, c: Bytes, d: Bytes)
    ensures a + b + c + d == a + (b + (c + d))
  {
  }

  lemma {:induction false} ChildStep(n: Node, ns: seq<Node>, bytes: Bytes, tail: Bytes, rest: Bytes, list: seq<Text>, mid: seq<Text>, more: seq<Text>)
    requires ReadNode(bytes + tail, list) == Got(n, tail, mid)
    requires ReadChildren(|ns|, tail, mid) == Got(ns, rest, more)
    ensures ReadChildren(|ns| + 1, bytes + tail, list) == Got([n] + ns, rest, more)
  {
  }

  lemma {:induction false} WriteChildrenCons(ns: seq<Node>, table: Table, rest: Bytes)
    requires ns != [] && WriteChildren(ns, table).ok
    ensures ns == [ns[0]] + ns[1..]
    ensures var first := WriteNode(ns[0], table);
            var others := WriteChildren(ns[1..], first.table);
            && first.ok && others.ok && WriteChildren(ns, table).table == others.table
            && WriteChildren(ns, table).bytes + rest == first.bytes + (others.bytes + rest)
  {
    HeadAndTail(ns);
    var first := WriteNode(ns[0], table);
    var others := WriteChildren(ns[1..], first.table);
    assert WriteChildren(ns, table) == if first.ok then Written(others.ok, first.bytes + others.bytes, others.table) else first;
    Regroup3(first.bytes, others.bytes, rest);
  }

  lemma {:induction false} HeadAndTail<T>(s: seq<T>)
    requires s != []
    ensures s == [s[0]] + s[1..]
  {
  }

  lemma {:induction false} Regroup3(a: Bytes, b: Bytes, c: Bytes)
    ensures a + b + c == a + (b + c)
  {
  }

  lemma {:induction false} ChildrenRoundTrip(ns: seq<Node>, table: Table, list: seq<Text>, rest: Bytes) returns (more: seq<Text>)
    requires Ready(WriteChildren(ns, table), table, list) && CleanAll(ns)
    ensures Mirrors(WriteChildren(ns, table).table, more)
    ensures ReadChildren(|ns|, WriteChildren(ns, table).bytes + rest, list) == Got(ns, rest, more)
    decreases ns, 0
  {
    more := list;
    if ns == [] {
      assert [] + rest == rest;
    } else {
      var n, tail := ns[0], ns[1..];
      assert Clean(ns[0]) && CleanAll(tail);
      WriteChildrenCons(ns, table, rest);
      var first := WriteNode(n, table);
      var others := WriteChildren(tail, first.table);
      var mid := NodeRoundTrip(n, table, list, others.bytes + rest);
      more := ChildrenRoundTrip(tail, first.table, mid, rest);
      ChildStep(n, tail, first.bytes, others.bytes + rest, rest, list, mid, more);
    }
  }

  lemma {:induction false} ListsStep(n: Node, attrs: Bytes, children: Bytes, rest: Bytes, list: seq<Text>, mid: seq<Text>, more: seq<Text>)
    requires ReadAttributes(|n.attributes|, [], attrs + (EncodeNumber(|n.children|) + (children + rest)), list)
             == Got(n.attributes, EncodeNumber(|n.children|) + (children + rest), mid)
    requires ReadChildren(|n.children|, children + rest, mid) == Got(n.children, rest, more)
    ensures ReadLists(n.payload, n.typ, n.col, n.line,
                      EncodeNumber(|n.attributes|) + (attrs + (EncodeNumber(|n.children|) + (children + rest))), list)
            == Got(n, rest, more)
  {
    NumberRoundTrip(|n.attributes|, attrs + (EncodeNumber(|n.children|) + (children + rest)));
    NumberRoundTrip(|n.children|, children + rest);
  }

  lemma {:induction false} NodeStep(n: Node, payload: Bytes, lists: Bytes, rest: Bytes, list: seq<Text>, mid: seq<Text>, more: seq<Text>)
    requires ReadPayload(ClassOf(n.payload), payload + lists, list) == Got(n.payload, lists, mid)
    requires ReadLists(n.payload, n.typ, n.col, n.line, lists, mid) == Got(n, rest, more)
    ensures ReadNode(Header(n) + (payload + lists), list) == Got(n, rest, more)
  {
    HeaderRoundTrip(n, payload + lists);
  }

  /** Reading a written node gives the node back and leaves exactly what followed it. */
  lemma {:induction false} NodeRoundTrip(n: Node, table: Table, list: seq<Text>, rest: Bytes) returns (more: seq<Text>)
    requires Ready(WriteNode(n, table), table, list) && Clean(n)
    ensures Mirrors(WriteNode(n, table).table, more)
    ensures ReadNode(WriteNode(n, table).bytes + rest, list) == Got(n, rest, more)
    decreases n, 1
  {
    var payload := WritePayload(n.payload, table);
    var attrs := WriteAttributes(n.attributes, payload.table);
    var children := WriteChildren(n.children, attrs.table);
    var afterAttrs := EncodeNumber(|n.children|) + (children.bytes + rest);
    var lists := EncodeNumber(|n.attributes|) + (attrs.bytes + afterAttrs);
    var list1 := PayloadRoundTrip(n.payload, table, list, lists);
    assert [] + n.attributes == n.attributes;
    var list2 := AttributesRoundTrip([], n.attributes, payload.table, list1, afterAttrs);
    more := ChildrenRoundTrip(n.children, attrs.table, list2, rest);
    ListsStep(n, attrs.bytes, children.bytes, rest, list1, list2, more);
    NodeStep(n, payload.bytes, lists, rest, list, list1, more);
    NodeBytes(n, table, rest);
  }

  lemma {:induction false} NodeBytes(n: Node, table: Table, rest: Bytes)
    requires WriteNode(n, table).ok
    ensures var payload := WritePayload(n.payload, table);
            var attrs := WriteAttributes(n.attributes, payload.table);
            var children := WriteChildren(n.children, attrs.table);
            WriteNode(n, table).bytes + rest ==
            Header(n) + (payload.bytes + (EncodeNumber(|n.attributes|) + (attrs.bytes + (EncodeNumber(|n.children|) + (children.bytes + rest)))))
  {
    var payload := WritePayload(n.payload, table);
    var attrs := WriteAttributes(n.attributes, payload.table);
    var children := WriteChildren(n.children, attrs.table);
    Regroup7(Header(n), payload.bytes, EncodeNumber(|n.attributes|), attrs.bytes, EncodeNumber(|n.children|), children.bytes, rest);
  }

  lemma {:induction false} Regroup7(a: Bytes, b: Bytes, c: Bytes, d: Bytes, e: Bytes, f: Bytes, g: Bytes)
    ensures a + b + c + d + e + f + g == a + (b + (c + (d + (e + (f + g)))))
  {
  }

  /** The four numbers in front of a node. */
  lemma {:induction false} HeaderRoundTrip(n: Node, rest: Bytes)
    ensures var class_ := DecodeNumber(Header(n) + rest);
            && class_.Some? && class_.value.0 == ClassOf(n.payload)
            && var typ := DecodeNumber(class_.value.1);
               && typ.Some? && typ.value.0 == n.typ
               && var col := DecodeNumber(typ.value.1);
                  && col.Some? && col.value.0 == n.col
                  && DecodeNumber(col.value.1) == Some((n.line, rest))
  {
    var a, b, c, d := EncodeNumber(ClassOf(n.payload)), EncodeNumber(n.typ), EncodeNumber(n.col), EncodeNumber(n.line);
    assert Header(n) + rest == a + (b + (c + (d + rest)));
    NumberRoundTrip(ClassOf(n.payload), b + (c + (d + rest)));
    NumberRoundTrip(n.typ, c + (d + rest));
    NumberRoundTrip(n.col, d + rest);
    NumberRoundTrip(n.line, rest);
  }

  // ----- and nothing else comes back -----

  ghost predicate PlainList(list: seq<Text>) {
    forall s :: s in list ==> PlainLength(s)
  }

  /** The reader never hands out a string whose length looks like a reference. */
  lemma {:induction false} ReadStringIsPlain(bs: Bytes, list: seq<Text>)
    requires PlainList(list) && ReadString(bs, list).Got?
    ensures PlainLength(ReadString(bs, list).value) && PlainList(ReadString(bs, list).list)
  {
    var (n, rest) := DecodeNumber(bs).value;
    if n / 0x1000000 != 0xFF {
      EncodeDecode(rest[..n]);
    }
  }

  lemma {:induction false} SetAttributeKeeps(attrs: seq<(AttributeKey, Text)>, key: AttributeKey, value: Text)
    requires DistinctKeys(attrs)
    ensures DistinctKeys(SetAttribute(attrs, key, value))
    ensures forall a :: a in SetAttribute(attrs, key, value) ==> a in attrs || a == (key, value)
  {
    if attrs != [] && attrs[0].0 != key {
      SetAttributeKeeps(attrs[1..], key, value);
      var tail := SetAttribute(attrs[1..], key, value);
      forall i | 0 <= i < |tail|
        ensures tail[i].0 != attrs[0].0
      {
        assert tail[i] in tail;
      }
    }
  }

  lemma {:induction false} ReadAttributesAreClean(count: nat, attrs: seq<(AttributeKey, Text)>, bs: Bytes, list: seq<Text>)
    requires PlainList(list) && DistinctKeys(attrs) && forall a :: a in attrs ==> PlainLength(a.1)
    requires ReadAttributes(count, attrs, bs, list).Got?
    ensures var r := ReadAttributes(count, attrs, bs, list);
            DistinctKeys(r.value) && (forall a :: a in r.value ==> PlainLength(a.1)) && PlainList(r.list)
    decreases count
  {
    if count > 0 {
      var key := DecodeNumber(bs).value;
      var value := ReadString(key.1, list);
      ReadStringIsPlain(key.1, list);
      SetAttributeKeeps(attrs, key.0, value.value);
      ReadAttributesAreClean(count - 1, SetAttribute(attrs, key.0, value.value), value.rest, value.list);
    }
  }

  lemma {:induction false} ReadPayloadIsClean(class_: nat, bs: Bytes, list: seq<Text>)
    requires PlainList(list) && ReadPayload(class_, bs, list).Got?
    ensures CleanPayload(ReadPayload(class_, bs, list).value) && PlainList(ReadPayload(class_, bs, list).list)
  {
    if class_ == 2 || class_ == 3 {
      ReadStringIsPlain(bs, list);
    }
  }

  lemma {:induction false} ReadChildrenAreClean(count: nat, bs: Bytes, list: seq<Text>)
    requires PlainList(list) && ReadChildren(count, bs, list).Got?
    ensures var r := ReadChildren(count, bs, list); CleanAll(r.value) && PlainList(r.list)
    decreases |bs|, 1
  {
    if count > 0 {
      var less := count - 1;
      var first, others := ReadChildrenCons(count, less, bs, list);
      ReadNodeIsClean(bs, list);
      ReadChildrenAreClean(less, first.rest, first.list);
      CleanCons(first.value, others.value, ReadChildren(count, bs, list).value);
    }
  }

  lemma {:induction false} CleanCons(n: Node, ns: seq<Node>, all: seq<Node>)
    requires Clean(n) && CleanAll(ns) && all == [n] + ns
    ensures CleanAll(all)
  {
    forall i | 0 <= i < |all|
      ensures Clean(all[i])
    {
      if i > 0 {
        assert all[i] == ns[i - 1];
      }
    }
  }

  lemma {:induction false} ReadChildrenCons(count: nat, less: nat, bs: Bytes, list: seq<Text>) returns (first: Read<Node>, others: Read<seq<Node>>)
    requires count == less + 1 && ReadChildren(count, bs, list).Got?
    ensures first == ReadNode(bs, list) && first.Got? && |first.rest| < |bs|
    ensures others == ReadChildren(less, first.rest, first.list) && others.Got?
    ensures ReadChildren(count, bs, list) == Got([first.value] + others.value, others.rest, others.list)
  {
    first := ReadNode(bs, list);
    others := ReadChildren(less, first.rest, first.list);
  }

  lemma {:induction false} ReadListsAreClean(payload: Payload, typ: NodeType, col: nat, line: nat, bs: Bytes, list: seq<Text>)
    requires PlainList(list) && CleanPayload(payload) && ReadLists(payload, typ, col, line, bs, list).Got?
    ensures var r := ReadLists(payload, typ, col, line, bs, list); Clean(r.value) && PlainList(r.list)
    decreases |bs|, 2
  {
    var attrCount := DecodeNumber(bs).value;
    ReadAttributesAreClean(attrCount.0, [], attrCount.1, list);
    var attrs := ReadAttributes(attrCount.0, [], attrCount.1, list);
    var childCount := DecodeNumber(attrs.rest).value;
    ReadChildrenAreClean(childCount.0, childCount.1, attrs.list);
  }

  /** Whatever the bytes, a node that is read has distinct attribute keys and plain lengths. */
  lemma {:induction false} ReadNodeIsClean(bs: Bytes, list: seq<Text>)
    requires PlainList(list) && ReadNode(bs, list).Got?
    ensures Clean(ReadNode(bs, list).value) && PlainList(ReadNode(bs, list).list)
    decreases |bs|, 0
  {
    var class_ := DecodeNumber(bs).value;
    var typ := DecodeNumber(class_.1).value;
    var col := DecodeNumber(typ.1).value;
    var line := DecodeNumber(col.1).value;
    ReadPayloadIsClean(class_.0, line.1, list);
    var payload := ReadPayload(class_.0, line.1, list);
    ReadListsAreClean(payload.value, typ.0, col.0, line.0, payload.rest, payload.list);
  }

  /** What loading makes of the bytes of a tree. */
  lemma {:induction false} LoadOfDump(root: Node)
    ensures var body := WriteNode(root, map[]).bytes;
            Load(Dump(root).bytes) == if ReadNode(body, []).Missing? then Raised(UnreadableNode) else ReadNode(body, [])
  {
    var bytes, body := Dump(root).bytes, WriteNode(root, map[]).bytes;
    assert bytes[..|SIGNATURE|] == SIGNATURE;
    assert bytes[|SIGNATURE|..] == VERSION + body;
    assert (VERSION + body)[2..4] == VERSION[2..4] && (VERSION + body)[4..] == body;
  }

  /** A tree is written exactly when it has at most 2^24 distinct long strings; it then reads back
      as itself, with nothing left over, exactly when its attribute keys are distinct and its
      string lengths are plain. */
  lemma {:induction false} RoundTrip(root: Node)
    ensures Dump(root).ok <==> |LongStrings(root)| <= MAX_STRINGS
    ensures |LongStrings(root)| <= MAX_STRINGS ==> ((exists list :: Load(Dump(root).bytes) == Got(root, [], list)) <==> Clean(root))
  {
    WritesUpToLimit(root);
    LoadOfDump(root);
    var body := WriteNode(root, map[]).bytes;
    if Dump(root).ok && Clean(root) {
      var list := NodeRoundTrip(root, map[], [], []);
      assert body + [] == body;
    }
    if ReadNode(body, []).Got? {
      ReadNodeIsClean(body, []);
    }
  }

  /** After the round trip the reader's list and the writer's table hold the same strings. */
  lemma {:induction false} TablesAgree(root: Node)
    requires |LongStrings(root)| <= MAX_STRINGS && Clean(root)
    ensures Load(Dump(root).bytes).Got? && Mirrors(Dump(root).table, Load(Dump(root).bytes).list)
  {
    RoundTrip(root);
    var body := WriteNode(root, map[]).bytes;
    var list := NodeRoundTrip(root, map[], [], []);
    assert body + [] == body;
    LoadOfDump(root);
  }
}
