/** The cards of a search result as a list that is never built: its length and every item are
    computed from the measured sizes of the cards. */
module CardSequence {
  import opened Wrappers
  import opened Sequences
  import opened Json
  import opened JsonChunks

  datatype Symbol = Symbol(
    targetId: string, unitId: string, name: string, qualifiedName: string, kind: string, path: string, line: int, column: int,
    visibility: string, owner: string, typeName: string)

  function Card(e: Symbol): Value {
    Record(More("column", Number(e.column), More("kind", Text(e.kind), More("line", Number(e.line), More("name", Text(e.name),
           More("owner", Text(e.owner), More("path", Text(e.path), More("qualified_name", Text(e.qualifiedName),
           More("target_id", Text(e.targetId), More("type", Text(e.typeName), More("unit_id", Text(e.unitId),
           More("visibility", Text(e.visibility), Done))))))))))))
  }

  /** 512 characters, six for each character of the texts, and the digits of the numbers. */
  function UpperBound(e: Symbol): int {
    512 + 6 * (|e.targetId| + |e.unitId| + |e.name| + |e.qualifiedName| + |e.kind| + |e.path| + |e.visibility| + |e.owner| + |e.typeName|)
    + |Decimal(e.line)| + |Decimal(e.column)|
  }

  /** A card with the size of its JSON text, and a bound on it. */
  datatype Entry = Entry(card: Value, cardChars: int, cardUpperBound: int)

  ghost predicate Measured(e: Entry) {
    e.cardChars == |Dumps(e.card)| <= e.cardUpperBound
  }

  /** An entry as it is created. */
  function EntryOf(e: Symbol): Entry {
    Entry(Card(e), |Dumps(Card(e))|, UpperBound(e))
  }

  lemma {:induction false} FieldBound(key: string, value: Value, rest: Fields)
    ensures |DumpsFields(More(key, value, rest))| <= 6 * |key| + 4 + |Dumps(value)| + |DumpsFields(rest)|
    ensures value.Text? ==> |Dumps(value)| <= 6 * |value.s| + 2
  {
    EscapeSize(key);
    if value.Text? {
      EscapeSize(value.s);
    }
  }

  /** The cheap bound really is one. */
  lemma {:induction false} UpperBoundHolds(e: Symbol)
    ensures Measured(EntryOf(e))
  {
    var f := Card(e).fields;
    LaterFields(e);
    FieldBound("column", Number(e.column), f.rest);
    FieldBound("kind", Text(e.kind), f.rest.rest);
    FieldBound("line", Number(e.line), f.rest.rest.rest);
    FieldBound("name", Text(e.name), f.rest.rest.rest.rest);
    FieldBound("owner", Text(e.owner), f.rest.rest.rest.rest.rest);
  }

  lemma {:induction false} LaterFields(e: Symbol)
    ensures |DumpsFields(Card(e).fields.rest.rest.rest.rest.rest)|
            <= 324 + 6 * (|e.path| + |e.qualifiedName| + |e.targetId| + |e.typeName| + |e.unitId| + |e.visibility|)
  {
    var f := Card(e).fields.rest.rest.rest.rest.rest;
    FieldBound("path", Text(e.path), f.rest);
    FieldBound("qualified_name", Text(e.qualifiedName), f.rest.rest);
    FieldBound("target_id", Text(e.targetId), f.rest.rest.rest);
    FieldBound("type", Text(e.typeName), f.rest.rest.rest.rest);
    FieldBound("unit_id", Text(e.unitId), f.rest.rest.rest.rest.rest);
    FieldBound("visibility", Text(e.visibility), Done);
  }

  // ----- the eager list -----

  /** The characters of JSON text per chunk: half of what the wrapper leaves. */
  function PayloadChars(maxChars: int): Result<nat, Error> {
    var wrapper := |Dumps(Chunk(CardChunk, PROBE, PROBE, ""))| + 2;
    var payload := (maxChars - wrapper) / 2;
    if payload < 1 then Failure(ItemTooLarge) else Success(payload)
  }

  /** `k * payload`, one step at a time. */
  function Times(k: nat, payload: nat): nat {
    if k == 0 then 0 else Times(k - 1, payload) + payload
  }

  lemma {:induction false} TimesIsProduct(k: nat, payload: nat)
    ensures Times(k, payload) == k * payload
  {
    if k > 0 {
      TimesIsProduct(k - 1, payload);
    }
  }

  lemma {:induction false} TimesGrows(k: nat, m: nat, payload: nat)
    requires k <= m
    ensures Times(k, payload) <= Times(m, payload)
  {
    if k < m {
      TimesGrows(k, m - 1, payload);
    }
  }

  /** The number of slices of `payload` characters that hold `chars` characters. */
  function ChunkCount(chars: nat, payload: nat): nat
    requires payload >= 1
  {
    if chars == 0 then 0 else if chars <= payload then 1 else 1 + ChunkCount(chars - payload, payload)
  }

  lemma {:induction false} CountIsQuotient(chars: nat, payload: nat)
    requires payload >= 1
    ensures (chars + payload - 1) / payload == ChunkCount(chars, payload)
  {
    if chars > payload {
      CountIsQuotient(chars - payload, payload);
      OneLess(chars - 1, payload);
    } else if chars > 0 {
      OneLess(chars - 1, payload);
    }
  }

  lemma {:induction false} OneLess(n: nat, d: nat)
    requires d >= 1
    ensures (n + d) / d == n / d + 1
    ensures n < d ==> n / d == 0
  {
    TimesIsProduct(n / d, d);
    Quotient(n + d, n / d + 1, n % d, d);
    if n < d {
      Quotient(n, 0, n, d);
    }
  }

  lemma {:induction false} Quotient(n: nat, q: nat, r: nat, d: nat)
    requires d >= 1 && r < d && n == Times(q, d) + r
    ensures n / d == q
  {
    var p := n / d;
    TimesIsProduct(p, d);
    assert n == Times(p, d) + n % d;
    if p < q {
      TimesGrows(p + 1, q, d);
    } else if p > q {
      TimesGrows(q + 1, p, d);
    }
  }

  /** The `k`-th slice of `payload` characters. */
  function Slice(s: string, k: nat, payload: nat): string {
    var from := Times(k, payload);
    if from >= |s| then [] else if from + payload >= |s| then s[from..] else s[from..from + payload]
  }

  /** The card whole, or all its chunks. */
  function Pieces(e: Entry, maxChars: int, payload: nat): (r: seq<Value>)
    requires payload >= 1
  {
    var s := Dumps(e.card);
    var count := ChunkCount(|s|, payload);
    if Fits(e.card, maxChars) then [e.card] else Sliced(s, count, payload)
  }

  function Sliced(s: string, count: nat, payload: nat): (r: seq<Value>)
    ensures |r| == count && forall k :: 0 <= k < count ==> r[k] == Chunk(CardChunk, k, count, Slice(s, k, payload))
  {
    seq(count, k requires 0 <= k < count => Chunk(CardChunk, k, count, Slice(s, k, payload)))
  }

  function Groups(entries: seq<Entry>, maxChars: int, payload: nat): (r: seq<seq<Value>>)
    requires payload >= 1
    ensures |r| == |entries| && forall i :: 0 <= i < |r| ==> r[i] == Pieces(entries[i], maxChars, payload)
  {
    seq(|entries|, i requires 0 <= i < |entries| => Pieces(entries[i], maxChars, payload))
  }

  /** The whole list: every card, or its chunks, in turn. */
  function Eager(entries: seq<Entry>, maxChars: int, payload: nat): seq<Value>
    requires payload >= 1
  {
    Flatten(Groups(entries, maxChars, payload))
  }

  // ----- the lazy list -----

  /** Where the pieces of each entry end in the list. */
  datatype Cards = Cards(entries: seq<Entry>, maxChars: int, payload: nat, ends: seq<nat>)

  ghost predicate AllMeasured(entries: seq<Entry>) {
    forall i :: 0 <= i < |entries| ==> Measured(entries[i])
  }

  ghost predicate Valid(c: Cards) {
    && c.payload >= 1
    && AllMeasured(c.entries)
    && IsEnds(c.ends, Groups(c.entries, c.maxChars, c.payload))
  }

  /** The prefix sums of the sizes of the groups. */
  ghost predicate IsEnds<T>(ends: seq<nat>, groups: seq<seq<T>>) {
    |ends| == |groups| && forall i :: 0 <= i < |ends| ==> EndsAt(ends, groups, i)
  }

  ghost predicate EndsAt<T>(ends: seq<nat>, groups: seq<seq<T>>, i: nat)
    requires i < |ends| == |groups|
  {
    ends[i] == (if i == 0 then 0 else ends[i - 1]) + |groups[i]|
  }

  lemma {:induction false} EndsPrefix<T>(ends: seq<nat>, groups: seq<seq<T>>, n: nat)
    requires IsEnds(ends, groups) && n <= |ends|
    ensures IsEnds(ends[..n], groups[..n])
  {
    forall i | 0 <= i < n
      ensures EndsAt(ends[..n], groups[..n], i)
    {
      assert EndsAt(ends, groups, i);
    }
  }

  lemma {:induction false} EndsMore<T>(ends: seq<nat>, groups: seq<seq<T>>, end: nat, group: seq<T>)
    requires IsEnds(ends, groups) && end == Last(ends) + |group|
    ensures IsEnds(ends + [end], groups + [group])
  {
    forall i | 0 <= i <= |ends|
      ensures EndsAt(ends + [end], groups + [group], i)
    {
      assert i < |ends| ==> EndsAt(ends, groups, i);
    }
  }

  function Last(ends: seq<nat>): nat {
    if ends == [] then 0 else ends[|ends| - 1]
  }

  lemma {:induction false} EndsSum<T>(ends: seq<nat>, groups: seq<seq<T>>)
    requires IsEnds(ends, groups)
    ensures Last(ends) == |Flatten(groups)|
  {
    if ends != [] {
      var before := groups[..|groups| - 1];
      EndsPrefix(ends, groups, |groups| - 1);
      assert EndsAt(ends, groups, |groups| - 1);
      EndsSum(ends[..|ends| - 1], before);
      FlattenAppend(before, groups[|groups| - 1]);
      assert groups == before + [groups[|groups| - 1]];
    }
  }

  /** An index below the `k`-th end and not below the one before lies in the `k`-th group. */
  lemma {:induction false} Located<T>(ends: seq<nat>, groups: seq<seq<T>>, index: nat, k: nat)
    requires IsEnds(ends, groups) && k < |ends| && ends[k] > index && (k > 0 ==> ends[k - 1] <= index)
    ensures var previous := if k > 0 then ends[k - 1] else 0;
            && previous <= index < previous + |groups[k]| == ends[k]
            && index < |Flatten(groups)| && Flatten(groups)[index] == groups[k][index - previous]
    decreases |ends|
  {
    var n := |groups| - 1;
    var before := groups[..n];
    FlattenAppend(before, groups[n]);
    assert groups == before + [groups[n]];
    EndsPrefix(ends, groups, n);
    EndsSum(ends[..n], before);
    assert EndsAt(ends, groups, n) && EndsAt(ends, groups, k);
    if k < n {
      Located(ends[..n], before, index, k);
    }
  }

  predicate IsWhole(e: Entry, maxChars: int) {
    e.cardUpperBound + 2 <= maxChars || e.cardChars + 2 <= maxChars
  }

  /** The cheap bound never changes the decision. */
  lemma {:induction false} WholeIfFits(e: Entry, maxChars: int)
    requires Measured(e)
    ensures IsWhole(e, maxChars) <==> Fits(e.card, maxChars)
  {
    assert e.cardUpperBound + 2 <= maxChars ==> e.cardChars + 2 <= maxChars;
  }

  method PieceCount(entry: Entry, maxChars: int, payload: nat, ghost pieces: seq<Value>) returns (count: nat)
    requires Measured(entry) && payload >= 1 && pieces == Pieces(entry, maxChars, payload)
    ensures count == |pieces|
  {
    WholeIfFits(entry, maxChars);
    CountIsQuotient(entry.cardChars, payload);
    if IsWhole(entry, maxChars) {
      count := 1;
    } else {
      count := (entry.cardChars + payload - 1) / payload;
    }
  }

  method Build(entries: seq<Entry>, maxChars: int) returns (r: Result<Cards, Error>)
    requires AllMeasured(entries)
    ensures r.Success? <==> PayloadChars(maxChars).Success?
    ensures r.Success? ==> PayloadChars(maxChars) == Success(r.value.payload)
    ensures r.Success? ==> Valid(r.value) && r.value.entries == entries && r.value.maxChars == maxChars
  {
    var payload := PayloadChars(maxChars);
    if payload.Failure? {
      return Failure(payload.error);
    }
    var ends := EndsOf(entries, maxChars, payload.value);
    r := Success(Cards(entries, maxChars, payload.value, ends));
  }

  method EndsOf(entries: seq<Entry>, maxChars: int, payload: nat) returns (ends: seq<nat>)
    requires AllMeasured(entries) && payload >= 1
    ensures IsEnds(ends, Groups(entries, maxChars, payload))
  {
    ends := [];
    var total: nat := 0;
    ghost var groups := Groups(entries, maxChars, payload);
    for i := 0 to |entries|
      invariant total == Last(ends)
      invariant IsEnds(ends, groups[..i])
    {
      var count := PieceCount(entries[i], maxChars, payload, groups[i]);
      total := total + count;
      MoreEnds(ends, groups, i, total);
      ends := ends + [total];
    }
    assert groups[..|entries|] == groups;
  }

  lemma {:induction false} MoreEnds<T>(ends: seq<nat>, groups: seq<seq<T>>, i: nat, total: nat)
    requires i < |groups| && IsEnds(ends, groups[..i]) && total == Last(ends) + |groups[i]|
    ensures IsEnds(ends + [total], groups[..i + 1]) && Last(ends + [total]) == total
  {
    assert groups[..i + 1] == groups[..i] + [groups[i]];
    EndsMore(ends, groups[..i], total, groups[i]);
  }

  datatype IndexError = IndexError(index: int)

  /** The group that an index belongs to, and where that group starts. */
  method Locate<T>(ends: seq<nat>, ghost groups: seq<seq<T>>, index: nat) returns (k: nat, previous: nat)
    requires IsEnds(ends, groups) && index < Last(ends)
    ensures k < |ends| == |groups| && previous <= index < previous + |groups[k]| == ends[k]
    ensures index < |Flatten(groups)| && Flatten(groups)[index] == groups[k][index - previous]
  {
    k := BisectRight(ends, index);
    previous := if k > 0 then ends[k - 1] else 0;
    Located(ends, groups, index, k);
  }

  /** Indexing a list, from the end for a negative index. */
  function ListItem(all: seq<Value>, at: int): Result<Value, IndexError> {
    var index := if at < 0 then at + |all| else at;
    if 0 <= index < |all| then Success(all[index]) else Failure(IndexError(index))
  }

  /** The list as the sequence stands for it. */
  ghost function ListOf(c: Cards): seq<Value>
    requires Valid(c)
  {
    Eager(c.entries, c.maxChars, c.payload)
  }

  lemma {:induction false} LengthHolds(c: Cards)
    requires Valid(c)
    ensures Last(c.ends) == |ListOf(c)|
  {
    EndsSum(c.ends, Groups(c.entries, c.maxChars, c.payload));
  }

  /** The item at any index is the one that the eager list has there. */
  method ItemAt(c: Cards, at: int) returns (r: Result<Value, IndexError>)
    requires Valid(c)
    ensures r == ListItem(ListOf(c), at)
  {
    LengthHolds(c);
    var index := at;
    if index < 0 {
      index := index + Last(c.ends);
    }
    if index < 0 || index >= Last(c.ends) {
      return Failure(IndexError(index));
    }
    var item := ItemIn(c, index);
    r := Success(item);
  }

  method ItemIn(c: Cards, index: nat) returns (r: Value)
    requires Valid(c) && index < Last(c.ends)
    ensures index < |ListOf(c)| && r == ListOf(c)[index]
  {
    ghost var groups := Groups(c.entries, c.maxChars, c.payload);
    var k, previousEnd := Locate(c.ends, groups, index);
    r := PieceAt(c.entries[k], c.maxChars, c.payload, index - previousEnd, c.ends[k] - previousEnd, groups[k]);
  }

  method PieceAt(entry: Entry, maxChars: int, payload: nat, chunkIndex: nat, chunkCount: nat, ghost pieces: seq<Value>) returns (r: Value)
    requires Measured(entry) && payload >= 1
    requires pieces == Pieces(entry, maxChars, payload) && chunkIndex < chunkCount == |pieces|
    ensures r == pieces[chunkIndex]
  {
    WholeIfFits(entry, maxChars);
    if IsWhole(entry, maxChars) {
      return entry.card;
    }
    r := Chunk(CardChunk, chunkIndex, chunkCount, Slice(Dumps(entry.card), chunkIndex, payload));
  }

  // ----- what the chunks hold -----

  lemma {:induction false} SlicesJoin(s: string, count: nat, k: nat, payload: nat, chunks: seq<Value>)
    requires payload >= 1 && |chunks| == k && forall i :: 0 <= i < k ==> chunks[i] == Chunk(CardChunk, i, count, Slice(s, i, payload))
    ensures Rejoined(chunks) == if Times(k, payload) >= |s| then s else s[..Times(k, payload)]
  {
    if k > 0 {
      SlicesJoin(s, count, k - 1, payload, chunks[..k - 1]);
      TextInChunk(CardChunk, k - 1, count, Slice(s, k - 1, payload));
      if Times(k - 1, payload) < |s| {
        SliceExtends(s, Times(k - 1, payload), payload);
      }
    }
  }

  lemma {:induction false} SliceExtends(s: string, from: nat, payload: nat)
    requires from < |s|
    ensures from + payload < |s| ==> s[..from] + s[from..from + payload] == s[..from + payload]
    ensures s[..from] + s[from..] == s
  {
  }

  /** There are just enough chunks. */
  lemma {:induction false} CountCovers(chars: nat, payload: nat)
    requires payload >= 1
    ensures Times(ChunkCount(chars, payload), payload) >= chars
    ensures chars > 0 ==> ChunkCount(chars, payload) >= 1 && Times(ChunkCount(chars, payload) - 1, payload) < chars
  {
    if chars > payload {
      CountCovers(chars - payload, payload);
      var q := ChunkCount(chars - payload, payload);
      assert Times(q + 1, payload) == Times(q, payload) + payload;
      assert Times(q, payload) == Times(q - 1, payload) + payload;
    } else if chars > 0 {
      assert Times(1, payload) == Times(0, payload) + payload;
    }
  }

  /** What the wrapper leaves is twice the payload at least. */
  lemma {:induction false} PayloadLeaves(maxChars: int, payload: nat)
    requires PayloadChars(maxChars) == Success(payload)
    ensures payload >= 1 && 80 + 2 * payload <= maxChars
  {
    ChunkSize(CardChunk, PROBE, PROBE, "");
    ProbeDigits();
  }

  lemma {:induction false} ProbeDigits()
    ensures |Digits(PROBE)| == 6
  {
    SixDigits(PROBE);
    DigitsGrow(100_000, PROBE);
    assert |Digits(100_000)| == 6 by {
      assert |Digits(10)| == 2;
      assert |Digits(100)| == 3;
      assert |Digits(1000)| == 4;
      assert |Digits(10000)| == 5;
    }
  }

  /** From 256 characters on the list can always be built. */
  lemma {:induction false} AlwaysBuilt(maxChars: int)
    requires maxChars >= 256
    ensures PayloadChars(maxChars).Success?
  {
    ChunkSize(CardChunk, PROBE, PROBE, "");
    SixDigits(PROBE);
  }

  lemma {:induction false} SliceHolds(s: string, k: nat, count: nat, payload: nat)
    requires payload >= 1 && k < count && Times(count - 1, payload) < |s|
    ensures 1 <= |Slice(s, k, payload)| <= payload
    ensures Printable(s) ==> Printable(Slice(s, k, payload))
  {
    TimesGrows(k, count - 1, payload);
  }

  lemma {:induction false} SliceFits(s: string, k: nat, count: nat, payload: nat, maxChars: int)
    requires payload >= 1 && 80 + 2 * payload <= maxChars && Printable(s)
    requires k < count <= PROBE && Times(count - 1, payload) < |s|
    ensures Fits(Chunk(CardChunk, k, count, Slice(s, k, payload)), maxChars)
  {
    SliceHolds(s, k, count, payload);
    EscapeSize(Slice(s, k, payload));
    SixDigits(k);
    SixDigits(count);
    ChunkSize(CardChunk, k, count, Slice(s, k, payload));
  }

  /** The chunks of a card that is too large rejoin to its JSON text; none is empty; and with
      fewer than a million of them each fits, since escaping the text again at most doubles it. */
  lemma {:induction false} PiecesHold(e: Entry, maxChars: int, payload: nat)
    requires payload >= 1 && PayloadChars(maxChars) == Success(payload) && !Fits(e.card, maxChars)
    ensures Rejoined(Pieces(e, maxChars, payload)) == Dumps(e.card)
    ensures forall v :: v in Pieces(e, maxChars, payload) ==> TextIn(v) != []
    ensures |Pieces(e, maxChars, payload)| <= PROBE ==> forall v :: v in Pieces(e, maxChars, payload) ==> Fits(v, maxChars)
  {
    PayloadLeaves(maxChars, payload);
    DumpsPrintable(e.card);
    SlicedHolds(Dumps(e.card), maxChars, payload);
  }

  lemma {:induction false} SlicedHolds(s: string, maxChars: int, payload: nat)
    requires payload >= 1 && 80 + 2 * payload <= maxChars && Printable(s) && s != []
    ensures Rejoined(Sliced(s, ChunkCount(|s|, payload), payload)) == s
    ensures forall v :: v in Sliced(s, ChunkCount(|s|, payload), payload) ==> TextIn(v) != []
    ensures ChunkCount(|s|, payload) <= PROBE ==> forall v :: v in Sliced(s, ChunkCount(|s|, payload), payload) ==> Fits(v, maxChars)
  {
    var count := ChunkCount(|s|, payload);
    var pieces := Sliced(s, count, payload);
    CountCovers(|s|, payload);
    SlicesJoin(s, count, count, payload, pieces);
    forall v | v in pieces
      ensures TextIn(v) != [] && (count <= PROBE ==> Fits(v, maxChars))
    {
      var k :| 0 <= k < count && pieces[k] == v;
      OneSliceHolds(s, k, count, payload, maxChars, v);
    }
  }

  lemma {:induction false} OneSliceHolds(s: string, k: nat, count: nat, payload: nat, maxChars: int, v: Value)
    requires payload >= 1 && 80 + 2 * payload <= maxChars && Printable(s) && s != []
    requires count == ChunkCount(|s|, payload) && k < count && v == Sliced(s, count, payload)[k]
    ensures TextIn(v) != [] && (count <= PROBE ==> Fits(v, maxChars))
  {
    CountCovers(|s|, payload);
    SliceHolds(s, k, count, payload);
    TextInChunk(CardChunk, k, count, Slice(s, k, payload));
    if count <= PROBE {
      SliceFits(s, k, count, payload, maxChars);
    }
  }
}
