/** Compact JSON text: keys in order, no spaces, characters beyond ASCII as they are. */
module Json {

  /** A JSON value; the fields of a record are in the order of their keys. */
  datatype Value = Null | Flag(on: bool) | Number(n: int) | Text(s: string) | List(items: Items) | Record(fields: Fields)

  datatype Items = End | Cons(head: Value, tail: Items)

  datatype Fields = Done | More(key: string, value: Value, rest: Fields)

  // ----- text -----

  function Hex(n: nat): char
    requires n < 16
  {
    "0123456789abcdef"[n]
  }

  function Escaped(c: char): string {
    if c == '"' then "\\\""
    else if c == '\\' then "\\\\"
    else if c == '\n' then "\\n"
    else if c == '\r' then "\\r"
    else if c == '\t' then "\\t"
    else if c == '\U{8}' then "\\b"
    else if c == '\U{C}' then "\\f"
    else if c < ' ' then "\\u00" + [Hex(c as int / 16), Hex(c as int % 16)]
    else [c]
  }

  function Escape(s: string): string {
    if s == [] then [] else Escape(s[..|s| - 1]) + Escaped(s[|s| - 1])
  }

  function Quoted(s: string): string {
    "\"" + Escape(s) + "\""
  }

  function Digits(n: nat): string {
    if n < 10 then ["0123456789"[n]] else Digits(n / 10) + ["0123456789"[n % 10]]
  }

  function Decimal(n: int): string {
    if n < 0 then "-" + Digits(-n) else Digits(n)
  }

  function Dumps(v: Value): string {
    match v
    case Null => "null"
    case Flag(on) => if on then "true" else "false"
    case Number(n) => Decimal(n)
    case Text(s) => Quoted(s)
    case List(items) => "[" + DumpsItems(items) + "]"
    case Record(fields) => "{" + DumpsFields(fields) + "}"
  }

  function DumpsItems(items: Items): string {
    match items
    case End => ""
    case Cons(head, tail) => Dumps(head) + (if tail.End? then "" else "," + DumpsItems(tail))
  }

  function DumpsFields(fields: Fields): string {
    match fields
    case Done => ""
    case More(key, value, rest) => Quoted(key) + ":" + Dumps(value) + (if rest.Done? then "" else "," + DumpsFields(rest))
  }

  // ----- reading back -----

  function HexValue(c: char): int {
    if '0' <= c <= '9' then c as int - '0' as int
    else if 'a' <= c <= 'f' then c as int - 'a' as int + 10
    else 0
  }

  /** The character at the head of a quoted text and the number of characters it takes (RFC 8259, section 7). */
  function Unescaped(t: string): (char, nat)
    requires t != []
  {
    if t[0] != '\\' || |t| < 2 then (t[0], 1)
    else if t[1] == 'n' then ('\n', 2)
    else if t[1] == 'r' then ('\r', 2)
    else if t[1] == 't' then ('\t', 2)
    else if t[1] == 'b' then ('\U{8}', 2)
    else if t[1] == 'f' then ('\U{C}', 2)
    else if t[1] == 'u' && |t| >= 6 then ((16 * HexValue(t[4]) + HexValue(t[5])) as char, 6)
    else (t[1], 2)
  }

  function Unescape(t: string): string {
    if t == [] then []
    else
      var (c, n) := Unescaped(t);
      [c] + Unescape(t[if n <= |t| then n else |t|..])
  }

  lemma {:induction false} UnescapedHolds(c: char, rest: string)
    ensures Unescaped(Escaped(c) + rest) == (c, |Escaped(c)|)
  {
    if c < ' ' && c != '\n' && c != '\r' && c != '\t' && c != '\U{8}' && c != '\U{C}' {
      var n := c as int;
      assert n / 16 < 2 && n == 16 * (n / 16) + n % 16;
      HexHolds(n / 16);
      HexHolds(n % 16);
    }
  }

  lemma {:induction false} HexHolds(n: nat)
    requires n < 16
    ensures HexValue(Hex(n)) == n
  {
    assert forall k :: 0 <= k < 10 ==> "0123456789abcdef"[k] as int == '0' as int + k;
    assert forall k :: 10 <= k < 16 ==> "0123456789abcdef"[k] as int == 'a' as int + k - 10;
  }

  /** The texts of the characters one behind the other. */
  function Spread(s: string, f: char -> string): string {
    if s == [] then [] else Spread(s[..|s| - 1], f) + f(s[|s| - 1])
  }

  lemma {:induction false} SpreadCons(c: char, t: string, f: char -> string)
    ensures Spread([c] + t, f) == f(c) + Spread(t, f)
  {
    if t == [] {
      assert [c] + t == [c] && [c][..0] == [];
    } else {
      var rest, last := t[..|t| - 1], t[|t| - 1];
      SpreadCons(c, rest, f);
      assert ([c] + t)[..|t|] == [c] + rest && ([c] + t)[|t|] == last;
    }
  }

  lemma {:induction false} EscapeIsSpread(s: string)
    ensures Escape(s) == Spread(s, Escaped)
  {
    if s != [] {
      EscapeIsSpread(s[..|s| - 1]);
    }
  }

  lemma {:induction false} EscapeCons(c: char, t: string)
    ensures Escape([c] + t) == Escaped(c) + Escape(t)
  {
    EscapeIsSpread([c] + t);
    EscapeIsSpread(t);
    SpreadCons(c, t, Escaped);
  }

  /** An escaped text reads back as the text. */
  lemma {:induction false} UnescapeEscape(s: string)
    ensures Unescape(Escape(s)) == s
  {
    if s != [] {
      var c, t := s[0], s[1..];
      assert s == [c] + t;
      EscapeCons(c, t);
      UnescapedHolds(c, Escape(t));
      assert (Escaped(c) + Escape(t))[|Escaped(c)|..] == Escape(t);
      UnescapeEscape(t);
    }
  }

  function DecimalValue(s: string): int {
    if s == [] then 0 else 10 * DecimalValue(s[..|s| - 1]) + HexValue(s[|s| - 1])
  }

  /** The digits of a number have its value. */
  lemma {:induction false} DigitsHold(n: nat)
    ensures DecimalValue(Digits(n)) == n
  {
    assert forall k :: 0 <= k < 10 ==> "0123456789"[k] as int == '0' as int + k;
    if n >= 10 {
      DigitsHold(n / 10);
      assert Digits(n)[..|Digits(n)| - 1] == Digits(n / 10);
    } else {
      assert Digits(n)[..0] == [];
    }
  }

  // ----- sizes -----

  /** No character needs a long escape. */
  ghost predicate Printable(s: string) {
    forall i :: 0 <= i < |s| ==> s[i] >= ' '
  }

  /** No character needs an escape. */
  ghost predicate Plain(s: string) {
    forall i :: 0 <= i < |s| ==> s[i] >= ' ' && s[i] != '"' && s[i] != '\\'
  }

  lemma {:induction false} PlainEscape(s: string)
    requires Plain(s)
    ensures Escape(s) == s
  {
    if s != [] {
      var rest, c := s[..|s| - 1], s[|s| - 1];
      assert Plain(rest) by {
        assert forall i :: 0 <= i < |rest| ==> rest[i] == s[i];
      }
      PlainEscape(rest);
      assert Escaped(c) == [c];
      assert s == rest + [c];
    }
  }

  lemma {:induction false} EscapeSize(s: string)
    ensures |s| <= |Escape(s)| <= 6 * |s|
    ensures Printable(s) ==> |Escape(s)| <= 2 * |s|
    ensures Printable(Escape(s))
  {
    if s != [] {
      EscapeSize(s[..|s| - 1]);
      EscapedPrintable(s[|s| - 1]);
    }
  }

  lemma {:induction false} EscapedPrintable(c: char)
    ensures Printable(Escaped(c)) && 1 <= |Escaped(c)| <= 6 && (c >= ' ' ==> |Escaped(c)| <= 2)
  {
    if c < ' ' {
      assert forall n :: 0 <= n < 16 ==> Hex(n) >= ' ';
    }
  }

  /** A longer piece never has a shorter escape. */
  lemma {:induction false} EscapeGrows(s: string, i: nat, j: nat)
    requires i <= j <= |s|
    ensures |Escape(s[..i])| <= |Escape(s[..j])|
  {
    if i < j {
      EscapeGrows(s, i, j - 1);
      assert s[..j][..j - 1] == s[..j - 1];
    }
  }

  lemma {:induction false} DigitsGrow(a: nat, b: nat)
    requires a <= b
    ensures 1 <= |Digits(a)| <= |Digits(b)|
  {
    if a >= 10 {
      DigitsGrow(a / 10, b / 10);
    } else if b >= 10 {
      DigitsGrow(0, b / 10);
    }
  }

  lemma {:induction false} SixDigits(n: nat)
    requires n <= 999_999
    ensures |Digits(n)| <= 6
  {
    DigitsGrow(n, 999_999);
    assert |Digits(999_999)| == 6 by {
      assert |Digits(9)| == 1;
      assert |Digits(99)| == 2;
      assert |Digits(999)| == 3;
      assert |Digits(9999)| == 4;
      assert |Digits(99999)| == 5;
    }
  }

  lemma {:induction false} DigitsPrintable(n: nat)
    ensures Plain(Digits(n))
  {
    assert forall d :: 0 <= d < 10 ==> "0123456789"[d] >= ' ' && "0123456789"[d] != '"' && "0123456789"[d] != '\\';
    if n >= 10 {
      DigitsPrintable(n / 10);
    }
  }

  lemma {:induction false} Wrapped(a: string, s: string, b: string)
    requires Printable(a) && Printable(s) && Printable(b) && |a| == |b| == 1
    ensures Printable(a + s + b) && a + s + b != []
  {
  }

  lemma {:induction false} Joined(a: string, b: string)
    requires Printable(a) && Printable(b)
    ensures Printable(a + b)
  {
  }

  lemma {:induction false} QuotedPrintable(s: string)
    ensures Printable(Quoted(s)) && Quoted(s) != []
  {
    EscapeSize(s);
    Wrapped("\"", Escape(s), "\"");
  }

  lemma {:induction false} WordsPrintable()
    ensures Printable("null") && Printable("true") && Printable("false")
  {
  }

  /** JSON text has no control characters, so escaping it again at most doubles it. */
  lemma {:induction false} DumpsPrintable(v: Value)
    ensures Printable(Dumps(v)) && Dumps(v) != []
    decreases v
  {
    match v
    case Null => WordsPrintable();
    case Flag(on) => WordsPrintable();
    case Number(n) => DigitsPrintable(if n < 0 then -n else n); DigitsGrow(0, if n < 0 then -n else n);
    case Text(s) => QuotedPrintable(s);
    case List(items) => ItemsPrintable(items); Wrapped("[", DumpsItems(items), "]");
    case Record(fields) => FieldsPrintable(fields); Wrapped("{", DumpsFields(fields), "}");
  }

  lemma {:induction false} ItemsPrintable(items: Items)
    ensures Printable(DumpsItems(items))
    decreases items
  {
    if items.Cons? {
      DumpsPrintable(items.head);
      ItemsPrintable(items.tail);
      Joined(",", DumpsItems(items.tail));
    }
  }

  lemma {:induction false} FieldsPrintable(fields: Fields)
    ensures Printable(DumpsFields(fields))
    decreases fields
  {
    if fields.More? {
      QuotedPrintable(fields.key);
      DumpsPrintable(fields.value);
      FieldsPrintable(fields.rest);
      Joined(Quoted(fields.key), ":");
      Joined(Quoted(fields.key) + ":", Dumps(fields.value));
      Joined(",", DumpsFields(fields.rest));
    }
  }

  // ----- chunk records -----

  datatype ChunkType = SourceChunk | CardChunk | JsonChunk

  function TypeName(t: ChunkType): string {
    match t
    case SourceChunk => "source_chunk"
    case CardChunk => "card_chunk"
    case JsonChunk => "json_chunk"
  }

  /** A piece of the JSON text of an item. */
  function Chunk(t: ChunkType, index: nat, count: nat, text: string): Value {
    Record(More("chunk_count", Number(count), More("chunk_index", Number(index),
           More("item_type", Text(TypeName(t)), More("json", Text(text), Done)))))
  }

  lemma {:induction false} CountKeyPlain()
    ensures Escape("chunk_count") == "chunk_count"
  {
    PlainEscape("chunk_count");
  }

  lemma {:induction false} IndexKeyPlain()
    ensures Escape("chunk_index") == "chunk_index"
  {
    PlainEscape("chunk_index");
  }

  lemma {:induction false} TypeKeyPlain()
    ensures Escape("item_type") == "item_type"
  {
    PlainEscape("item_type");
  }

  lemma {:induction false} JsonKeyPlain()
    ensures Escape("json") == "json"
  {
    PlainEscape("json");
  }

  lemma {:induction false} SourceTypePlain()
    ensures Escape("source_chunk") == "source_chunk"
  {
    PlainEscape("source_chunk");
  }

  lemma {:induction false} CardTypePlain()
    ensures Escape("card_chunk") == "card_chunk"
  {
    PlainEscape("card_chunk");
  }

  lemma {:induction false} JsonTypePlain()
    ensures Escape("json_chunk") == "json_chunk"
  {
    PlainEscape("json_chunk");
  }

  /** The size of a chunk record, all of it. */
  lemma {:induction false} ChunkSize(t: ChunkType, index: nat, count: nat, text: string)
    ensures |Dumps(Chunk(t, index, count, text))| == 56 + |TypeName(t)| + |Digits(count)| + |Digits(index)| + |Escape(text)|
  {
    CountKeyPlain();
    IndexKeyPlain();
    TypeKeyPlain();
    JsonKeyPlain();
    SourceTypePlain();
    CardTypePlain();
    JsonTypePlain();
    var f3 := More("json", Text(text), Done);
    var f2 := More("item_type", Text(TypeName(t)), f3);
    var f1 := More("chunk_index", Number(index), f2);
    var f0 := More("chunk_count", Number(count), f1);
    assert |DumpsFields(f3)| == 9 + |Escape(text)|;
    assert |DumpsFields(f2)| == 15 + |TypeName(t)| + |DumpsFields(f3)|;
    assert |DumpsFields(f1)| == 15 + |Digits(index)| + |DumpsFields(f2)|;
    assert |DumpsFields(f0)| == 15 + |Digits(count)| + |DumpsFields(f1)|;
  }
}
