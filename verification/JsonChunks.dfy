/** Items that are too large for a response, cut into pieces of their JSON text. */
module JsonChunks {
  import opened Wrappers
  import opened Sequences
  import opened Json

  datatype Error = ItemTooLarge

  /** The largest counters that a piece is measured with. */
  const PROBE := 999_999

  function Get(fields: Fields, key: string): Option<Value> {
    if fields.Done? then None else if fields.key == key then Some(fields.value) else Get(fields.rest, key)
  }

  predicate HasKey(v: Value, key: string) {
    v.Record? && Get(v.fields, key).Some?
  }

  function TypeOf(item: Value): ChunkType {
    if HasKey(item, "item_type") && Get(item.fields, "item_type").value in [Text("source"), Text("source_chunk")] then SourceChunk
    else if HasKey(item, "target_id") then CardChunk
    else JsonChunk
  }

  /** The chunk of an item written out: source items, cards and all others are told apart by their fields. */
  lemma {:induction false} ChunkFields(item: Value, index: nat, count: nat, text: string)
    ensures var typed := HasKey(item, "item_type")
                         && (Get(item.fields, "item_type") == Some(Text("source")) || Get(item.fields, "item_type") == Some(Text("source_chunk")));
            Chunk(TypeOf(item), index, count, text) ==
            Record(More("chunk_count", Number(count), More("chunk_index", Number(index),
            More("item_type", Text(if typed then "source_chunk" else if HasKey(item, "target_id") then "card_chunk" else "json_chunk"),
            More("json", Text(text), Done)))))
  {
  }

  /** The item fits into a list of its own. */
  predicate Fits(v: Value, maxChars: int) {
    |Dumps(v)| + 2 <= maxChars
  }

  predicate PieceFits(t: ChunkType, index: nat, piece: string, maxChars: int) {
    Fits(Chunk(t, index, PROBE, piece), maxChars)
  }

  /** The piece of `size` characters of `s` from `offset` fits. */
  predicate SizeFits(t: ChunkType, index: nat, s: string, offset: nat, size: nat, maxChars: int) {
    offset + size <= |s| && PieceFits(t, index, s[offset..offset + size], maxChars)
  }

  // ----- what a chunking is -----

  function Concat(pieces: seq<string>): string {
    if pieces == [] then [] else Concat(pieces[..|pieces| - 1]) + pieces[|pieces| - 1]
  }

  function Numbered(t: ChunkType, pieces: seq<string>): (r: seq<Value>)
    ensures |r| == |pieces| && forall i :: 0 <= i < |r| ==> r[i] == Chunk(t, i, |pieces|, pieces[i])
  {
    seq(|pieces|, i requires 0 <= i < |pieces| => Chunk(t, i, |pieces|, pieces[i]))
  }

  /** Every piece fits when measured, and none could take one more character of `s`. */
  ghost predicate Greedy(t: ChunkType, s: string, pieces: seq<string>, maxChars: int) {
    forall i :: 0 <= i < |pieces| ==> GreedyAt(t, s, pieces, i, maxChars)
  }

  ghost predicate GreedyAt(t: ChunkType, s: string, pieces: seq<string>, i: nat, maxChars: int)
    requires i < |pieces|
  {
    var from := |Concat(pieces[..i])|;
    var to := from + |pieces[i]|;
    && pieces[i] != [] && to <= |s| && pieces[i] == s[from..to]
    && SizeFits(t, i, s, from, |pieces[i]|, maxChars)
    && !SizeFits(t, i, s, from, |pieces[i]| + 1, maxChars)
  }

  /** The chunks of an item: its JSON text in greedy pieces, numbered and counted. */
  ghost predicate IsChunking(item: Value, chunks: seq<Value>, maxChars: int) {
    exists pieces :: chunks == Numbered(TypeOf(item), pieces) && Concat(pieces) == Dumps(item)
                     && Greedy(TypeOf(item), Dumps(item), pieces, maxChars)
  }

  // ----- sizes -----

  lemma {:induction false} LongerFitsLess(t: ChunkType, index: nat, s: string, from: nat, a: nat, b: nat, maxChars: int)
    requires a <= b && SizeFits(t, index, s, from, b, maxChars)
    ensures SizeFits(t, index, s, from, a, maxChars)
  {
    var u := s[from..from + b];
    assert u[..a] == s[from..from + a] && u[..b] == u;
    EscapeGrows(u, a, b);
    ChunkSize(t, index, PROBE, u);
    ChunkSize(t, index, PROBE, s[from..from + a]);
  }

  /** So many characters of JSON text always fit: 87 of them from 256 characters on. */
  function Room(maxChars: int): (n: nat)
    requires maxChars >= 256
    ensures n >= 87
  {
    (maxChars - 82) / 2
  }

  /** With six digits to number it, a piece that short fits. */
  lemma {:induction false} ShortFits(t: ChunkType, index: nat, piece: string, maxChars: int)
    requires Printable(piece) && index <= PROBE && maxChars >= 256 && |piece| <= Room(maxChars)
    ensures PieceFits(t, index, piece, maxChars)
  {
    EscapeSize(piece);
    SixDigits(index);
    SixDigits(PROBE);
    ChunkSize(t, index, PROBE, piece);
  }

  /** A piece that fits when measured fits as the chunk it becomes. */
  lemma {:induction false} CountedFits(t: ChunkType, index: nat, count: nat, piece: string, maxChars: int)
    requires PieceFits(t, index, piece, maxChars) && count <= PROBE
    ensures Fits(Chunk(t, index, count, piece), maxChars)
  {
    DigitsGrow(count, PROBE);
    ChunkSize(t, index, PROBE, piece);
    ChunkSize(t, index, count, piece);
  }

  // ----- cutting -----

  /** Binary search for the longest piece that fits; 0 if none does. */
  method LongestPiece(t: ChunkType, index: nat, s: string, offset: nat, maxChars: int) returns (accepted: nat)
    requires offset <= |s|
    ensures accepted <= |s| - offset
    ensures forall size: nat :: size >= 1 ==> (SizeFits(t, index, s, offset, size, maxChars) <==> size <= accepted)
  {
    var low, high := 1, |s| - offset;
    accepted := 0;
    while low <= high
      invariant 1 <= low <= high + 1 <= |s| - offset + 1 && accepted == low - 1
      invariant forall size: nat :: 1 <= size < low ==> SizeFits(t, index, s, offset, size, maxChars)
      invariant forall size: nat :: high < size ==> !SizeFits(t, index, s, offset, size, maxChars)
      decreases high - low
    {
      var size: nat := (low + high) / 2;
      if PieceFits(t, index, s[offset..offset + size], maxChars) {
        forall a: nat | low <= a <= size
          ensures SizeFits(t, index, s, offset, a, maxChars)
        {
          LongerFitsLess(t, index, s, offset, a, size, maxChars);
        }
        accepted := size;
        low := size + 1;
      } else {
        forall b: nat | size <= b <= high
          ensures !SizeFits(t, index, s, offset, b, maxChars)
        {
          if SizeFits(t, index, s, offset, b, maxChars) {
            LongerFitsLess(t, index, s, offset, size, b, maxChars);
          }
        }
        high := size - 1;
      }
    }
  }

  /** The pieces so far are greedy and make up the text so far. */
  ghost predicate Cut(t: ChunkType, s: string, pieces: seq<string>, offset: nat, maxChars: int) {
    offset <= |s| && Concat(pieces) == s[..offset] && Greedy(t, s, pieces, maxChars)
  }

  lemma {:induction false} CutMore(t: ChunkType, s: string, pieces: seq<string>, offset: nat, size: nat, maxChars: int)
    requires Cut(t, s, pieces, offset, maxChars) && size >= 1
    requires SizeFits(t, |pieces|, s, offset, size, maxChars) && !SizeFits(t, |pieces|, s, offset, size + 1, maxChars)
    ensures Cut(t, s, pieces + [s[offset..offset + size]], offset + size, maxChars)
  {
    var piece := s[offset..offset + size];
    var after := pieces + [piece];
    assert after[..|pieces|] == pieces;
    assert s[..offset] + piece == s[..offset + size];
    forall i | 0 <= i < |after|
      ensures GreedyAt(t, s, after, i, maxChars)
    {
      if i < |pieces| {
        assert after[..i] == pieces[..i];
        assert GreedyAt(t, s, pieces, i, maxChars);
      } else {
        assert after[..i] == pieces && |Concat(pieces)| == offset;
      }
    }
  }

  lemma {:induction false} PieceIsLong(t: ChunkType, s: string, pieces: seq<string>, i: nat, maxChars: int)
    requires Greedy(t, s, pieces, maxChars) && maxChars >= 256 && i < |pieces| && i <= PROBE && Printable(s)
    ensures |Concat(pieces[..i])| + |pieces[i]| < |s| ==> |pieces[i]| >= Room(maxChars)
  {
    assert GreedyAt(t, s, pieces, i, maxChars);
    var from, more := |Concat(pieces[..i])|, |pieces[i]| + 1;
    if more <= Room(maxChars) && from + more <= |s| {
      ShortFits(t, i, s[from..from + more], maxChars);
    }
  }

  /** As long as six digits number them, greedy pieces have the room's length each. */
  lemma {:induction false} PiecesAreLong(t: ChunkType, s: string, pieces: seq<string>, k: nat, maxChars: int)
    requires Greedy(t, s, pieces, maxChars) && maxChars >= 256 && k <= |pieces| && k <= PROBE + 1 && Printable(s)
    ensures |Concat(pieces[..k])| < |s| ==> |Concat(pieces[..k])| >= Room(maxChars) * k
  {
    if k > 0 {
      var less, room := k - 1, Room(maxChars);
      PiecesAreLong(t, s, pieces, less, maxChars);
      PieceIsLong(t, s, pieces, less, maxChars);
      assert pieces[..k][..less] == pieces[..less];
      assert room * k == room * less + room;
    }
  }

  /** Fewer than a million greedy pieces can be cut from the text. */
  ghost predicate FewPieces(item: Value, maxChars: int) {
    forall pieces, offset :: Cut(TypeOf(item), Dumps(item), pieces, offset, maxChars) ==> |pieces| <= PROBE
  }

  /** From 256 characters on, a text of up to 999,999 times the room takes few pieces. */
  lemma {:induction false} ShortIsFew(item: Value, maxChars: int)
    requires maxChars >= 256 && |Dumps(item)| <= Room(maxChars) * PROBE
    ensures FewPieces(item, maxChars)
  {
    DumpsPrintable(item);
    var t, s := TypeOf(item), Dumps(item);
    forall pieces, offset | Cut(t, s, pieces, offset, maxChars)
      ensures |pieces| <= PROBE
    {
      if |pieces| > PROBE {
        assert GreedyAt(t, s, pieces, PROBE, maxChars);
        PiecesAreLong(t, s, pieces, PROBE, maxChars);
      }
    }
  }

  /** Greedy pieces are determined by the text. */
  lemma {:induction false} CutsAgree(t: ChunkType, s: string, a: seq<string>, b: seq<string>, k: nat, maxChars: int)
    requires Greedy(t, s, a, maxChars) && Greedy(t, s, b, maxChars) && k <= |a| && k <= |b|
    ensures a[..k] == b[..k]
  {
    if k > 0 {
      var less := k - 1;
      CutsAgree(t, s, a, b, less, maxChars);
      assert GreedyAt(t, s, a, less, maxChars) && GreedyAt(t, s, b, less, maxChars);
      var from, m, n := |Concat(a[..less])|, |a[less]|, |b[less]|;
      if m < n {
        LongerFitsLess(t, less, s, from, m + 1, n, maxChars);
      } else if n < m {
        LongerFitsLess(t, less, s, from, n + 1, m, maxChars);
      }
      assert a[..k] == a[..less] + [a[less]] && b[..k] == b[..less] + [b[less]];
    }
  }

  /** No other cutting has more pieces than the complete one. */
  lemma {:induction false} CompleteIsLongest(t: ChunkType, s: string, all: seq<string>, pieces: seq<string>, offset: nat, maxChars: int)
    requires Cut(t, s, all, |s|, maxChars) && Cut(t, s, pieces, offset, maxChars)
    ensures |pieces| <= |all|
  {
    if |all| < |pieces| {
      assert all[..|all|] == all && GreedyAt(t, s, pieces, |all|, maxChars);
      CutsAgree(t, s, all, pieces, |all|, maxChars);
    }
  }

  /** From 256 characters on, cutting comes to a halt only behind 999,999 pieces. */
  lemma {:induction false} CutFails(t: ChunkType, s: string, pieces: seq<string>, offset: nat, maxChars: int)
    requires Cut(t, s, pieces, offset, maxChars) && offset < |s| && Printable(s)
    requires !SizeFits(t, |pieces|, s, offset, 1, maxChars)
    ensures maxChars < 256 || |pieces| > PROBE
  {
    if maxChars >= 256 && |pieces| <= PROBE {
      ShortFits(t, |pieces|, s[offset..offset + 1], maxChars);
    }
  }

  /** The chunks of an item. From 256 characters on, fewer than a million chunks come out exactly
      when fewer than a million greedy pieces can be cut; each of those chunks fits. */
  method ChunkItem(item: Value, maxChars: int) returns (r: Result<seq<Value>, Error>)
    ensures r.Success? ==> IsChunking(item, r.value, maxChars)
    ensures r.Success? && |r.value| <= PROBE ==> forall i :: 0 <= i < |r.value| ==> Fits(r.value[i], maxChars)
    ensures maxChars >= 256 ==> (r.Success? && |r.value| <= PROBE <==> FewPieces(item, maxChars))
  {
    var serialized := Dumps(item);
    DumpsPrintable(item);
    var t := TypeOf(item);
    var pieces: seq<string> := [];
    var offset: nat := 0;
    while offset < |serialized|
      invariant Cut(t, serialized, pieces, offset, maxChars)
    {
      var accepted := LongestPiece(t, |pieces|, serialized, offset, maxChars);
      if accepted == 0 {
        CutFails(t, serialized, pieces, offset, maxChars);
        return Failure(ItemTooLarge);
      }
      CutMore(t, serialized, pieces, offset, accepted, maxChars);
      pieces := pieces + [serialized[offset..offset + accepted]];
      offset := offset + accepted;
    }
    assert serialized[..offset] == serialized;
    Counted(item, pieces, maxChars);
    r := Success(Numbered(t, pieces));
  }

  lemma {:induction false} Counted(item: Value, pieces: seq<string>, maxChars: int)
    requires Cut(TypeOf(item), Dumps(item), pieces, |Dumps(item)|, maxChars)
    ensures |pieces| <= PROBE ==> forall i :: 0 <= i < |pieces| ==> Fits(Numbered(TypeOf(item), pieces)[i], maxChars)
    ensures |pieces| <= PROBE <==> FewPieces(item, maxChars)
  {
    var t, s := TypeOf(item), Dumps(item);
    forall i | 0 <= i < |pieces| <= PROBE
      ensures Fits(Numbered(t, pieces)[i], maxChars)
    {
      assert GreedyAt(t, s, pieces, i, maxChars);
      assert s[|Concat(pieces[..i])|..|Concat(pieces[..i])| + |pieces[i]|] == pieces[i];
      CountedFits(t, i, |pieces|, pieces[i], maxChars);
    }
    forall others, offset | Cut(t, s, others, offset, maxChars)
      ensures |others| <= |pieces|
    {
      CompleteIsLongest(t, s, pieces, others, offset, maxChars);
    }
  }

  // ----- rejoining -----

  /** The text that a chunk carries. */
  function TextIn(v: Value): string {
    if HasKey(v, "json") && Get(v.fields, "json").value.Text? then Get(v.fields, "json").value.s else ""
  }

  function Rejoined(chunks: seq<Value>): string {
    if chunks == [] then [] else Rejoined(chunks[..|chunks| - 1]) + TextIn(chunks[|chunks| - 1])
  }

  lemma {:induction false} RejoinNumbered(t: ChunkType, pieces: seq<string>, chunks: seq<Value>, count: nat)
    requires |chunks| == |pieces| && forall i :: 0 <= i < |chunks| ==> chunks[i] == Chunk(t, i, count, pieces[i])
    ensures Rejoined(chunks) == Concat(pieces)
  {
    if pieces != [] {
      RejoinNumbered(t, pieces[..|pieces| - 1], chunks[..|chunks| - 1], count);
      TextInChunk(t, |chunks| - 1, count, pieces[|pieces| - 1]);
    }
  }

  lemma {:induction false} TextInChunk(t: ChunkType, index: nat, count: nat, text: string)
    ensures TextIn(Chunk(t, index, count, text)) == text
  {
    var fields := Chunk(t, index, count, text).fields;
    assert Get(fields.rest.rest.rest, "json") == Some(Text(text));
    assert Get(fields.rest.rest, "json") == Some(Text(text));
    assert Get(fields.rest, "json") == Some(Text(text));
    assert "chunk_count" != "json";
    assert Get(fields, "json") == Some(Text(text));
  }

  /** Joining the texts of the chunks gives back the JSON text of the item. */
  lemma {:induction false} ChunkingRejoins(item: Value, chunks: seq<Value>, maxChars: int)
    requires IsChunking(item, chunks, maxChars)
    ensures Rejoined(chunks) == Dumps(item)
  {
    var pieces :| chunks == Numbered(TypeOf(item), pieces) && Concat(pieces) == Dumps(item)
                  && Greedy(TypeOf(item), Dumps(item), pieces, maxChars);
    RejoinNumbered(TypeOf(item), pieces, chunks, |pieces|);
  }

  // ----- preparation -----

  /** What an item becomes: itself if it fits, its chunks otherwise. */
  ghost predicate Represents(item: Value, group: seq<Value>, maxChars: int) {
    if Fits(item, maxChars) then group == [item] else IsChunking(item, group, maxChars)
  }

  /** The item fits as it is or takes fewer than a million pieces. */
  ghost predicate Manageable(item: Value, maxChars: int) {
    Fits(item, maxChars) || FewPieces(item, maxChars)
  }

  ghost predicate AllManageable(items: seq<Value>, maxChars: int) {
    maxChars >= 256 && forall i :: 0 <= i < |items| ==> Manageable(items[i], maxChars)
  }

  ghost predicate AllFit(items: seq<Value>, maxChars: int) {
    forall v :: v in items ==> Fits(v, maxChars)
  }

  /** Every item in turn; with room for 256 characters nothing fails that takes fewer than a million
      pieces, and then everything prepared fits. */
  method PrepareItems(items: seq<Value>, maxChars: int) returns (r: Result<seq<Value>, Error>, ghost groups: seq<seq<Value>>)
    ensures r.Success? ==> r.value == Flatten(groups) && |groups| == |items|
    ensures r.Success? ==> forall i :: 0 <= i < |items| ==> Represents(items[i], groups[i], maxChars)
    ensures AllManageable(items, maxChars) ==> r.Success? && AllFit(r.value, maxChars)
  {
    var prepared: seq<Value> := [];
    groups := [];
    for k := 0 to |items|
      invariant prepared == Flatten(groups) && |groups| == k
      invariant forall i :: 0 <= i < k ==> Represents(items[i], groups[i], maxChars)
      invariant AllManageable(items, maxChars) ==> AllFit(prepared, maxChars)
    {
      if Fits(items[k], maxChars) {
        FlattenAppend(groups, [items[k]]);
        groups := groups + [[items[k]]];
        prepared := prepared + [items[k]];
        continue;
      }
      var chunks := ChunkItem(items[k], maxChars);
      assert AllManageable(items, maxChars) ==> AllFit(chunks.value, maxChars);
      if chunks.Failure? {
        return Failure(ItemTooLarge), groups;
      }
      FlattenAppend(groups, chunks.value);
      groups := groups + [chunks.value];
      prepared := prepared + chunks.value;
    }
    r := Success(prepared);
  }
}
