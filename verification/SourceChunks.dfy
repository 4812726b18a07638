/** Source text in chunks that fit a response, found by binary search over a measure that is
    not monotone. */
module SourceChunks {
  import opened Wrappers
  import opened Sequences
  import opened Json
  import opened JsonChunks
  import opened TextPositions

  const CHUNK_CHARS := 6000

  datatype Document = Document(text: string, path: string)

  // ----- lines and columns -----

  /** Where each line starts. */
  function LineStarts(text: string): (r: seq<nat>)
    ensures r != [] && r[0] == 0
  {
    if text == [] then [0]
    else LineStarts(text[..|text| - 1]) + if text[|text| - 1] == '\n' then [|text|] else []
  }

  function Clamp(x: int, low: int, high: int): int {
    if x < low then low else if x > high then high else x
  }

  function LineCol(text: string, offset: int): (r: (nat, nat))
  {
    var clamped := Clamp(offset, 0, |text|);
    var starts := LineStarts(text);
    var index := if BisectRight(starts, clamped) >= 1 then BisectRight(starts, clamped) - 1 else 0;
    (index + 1, clamped - starts[index] + 1)
  }

  ghost predicate Increasing(s: seq<nat>) {
    forall i, j :: 0 <= i < j < |s| ==> s[i] < s[j]
  }

  lemma {:induction false} StartsIncrease(text: string)
    ensures Increasing(LineStarts(text))
    ensures forall i :: 0 <= i < |LineStarts(text)| ==> LineStarts(text)[i] <= |text|
  {
    if text != [] {
      StartsIncrease(text[..|text| - 1]);
    }
  }

  lemma {:induction false} StartsCount(text: string)
    ensures |LineStarts(text)| == Newlines(text) + 1
  {
    if text != [] {
      StartsCount(text[..|text| - 1]);
    }
  }

  lemma {:induction false} StartsBehindNewlines(text: string, i: nat)
    requires 0 < i < |LineStarts(text)|
    ensures 0 < LineStarts(text)[i] <= |text| && text[LineStarts(text)[i] - 1] == '\n'
  {
    var before := LineStarts(text[..|text| - 1]);
    if i < |before| {
      StartsBehindNewlines(text[..|text| - 1], i);
    }
  }

  /** The starts of the lines of a prefix are the starts within it. */
  lemma {:induction false} StartsOfPrefix(text: string, k: nat)
    requires k <= |text|
    ensures LineStarts(text[..k]) <= LineStarts(text)
    ensures forall i :: |LineStarts(text[..k])| <= i < |LineStarts(text)| ==> LineStarts(text)[i] > k
  {
    if k == |text| {
      assert text[..k] == text;
    } else {
      var rest := text[..|text| - 1];
      StartsOfPrefix(rest, k);
      assert rest[..k] == text[..k];
    }
  }

  lemma {:induction false} BisectIs(s: seq<nat>, x: int, k: nat)
    requires Increasing(s) && k <= |s| && (k > 0 ==> s[k - 1] <= x) && (k < |s| ==> s[k] > x)
    ensures BisectRight(s, x) == k
  {
  }

  /** The line is one more than the newlines before the offset, and the column counts from the
      last of them. */
  lemma {:induction false} LineColCounts(text: string, k: nat)
    requires k <= |text|
    ensures LineCol(text, k) == (LineOf(text[..k]), ColumnOf(text[..k]))
  {
    var starts := LineStarts(text);
    var prefix := LineStarts(text[..k]);
    var last := prefix[|prefix| - 1];
    StartsIncrease(text);
    StartsCount(text[..k]);
    StartsIncrease(text[..k]);
    StartsOfPrefix(text, k);
    if |prefix| > 1 {
      StartsBehindNewlines(text[..k], |prefix| - 1);
    }
    assert last == starts[|prefix| - 1];
    BisectIs(starts, k, |prefix|);
    LastLine(text[..k]);
    ColumnSince(text[..k], last);
    assert text[..k][..last] == text[..last];
  }

  lemma {:induction false} LastLine(text: string)
    ensures var starts := LineStarts(text); starts[|starts| - 1] <= |text| && Newlines(text[starts[|starts| - 1]..]) == 0
  {
    StartsIncrease(text);
    if text != [] {
      var rest := text[..|text| - 1];
      LastLine(rest);
      StartsIncrease(rest);
      var starts := LineStarts(text);
      var last := starts[|starts| - 1];
      if text[|text| - 1] != '\n' {
        assert text[last..][..|text[last..]| - 1] == rest[last..];
      }
    }
  }

  // ----- items -----

  function Tail(compact: bool, role: string, target: string, startCol: nat, startLine: nat, text: string): Fields {
    if compact then More("start_col", Number(startCol), More("start_line", Number(startLine), More("text", Text(text), Done)))
    else More("role", Text(role), More("start_col", Number(startCol), More("start_line", Number(startLine),
         More("target_id", Text(target), More("text", Text(text), Done)))))
  }

  function Head(path: string, compact: bool, endCol: nat, endLine: nat, tail: Fields): Fields {
    More("end_col", Number(endCol), More("end_line", Number(endLine),
    More("item_type", Text(if compact then "source_chunk" else "source"), More("path", Text(path), tail))))
  }

  /** What stays the same in all items of one answer. */
  datatype Frame = Frame(doc: Document, role: string, target: string, compact: bool)

  function SourceItem(f: Frame, start: nat, end: nat, index: nat, count: nat): Value
    requires start <= end <= |f.doc.text|
  {
    var from, to := LineCol(f.doc.text, start), LineCol(f.doc.text, end);
    Record(More("chunk_count", Number(count), More("chunk_index", Number(index),
           Head(f.doc.path, f.compact, to.1, to.0, Tail(f.compact, f.role, f.target, from.1, from.0, f.doc.text[start..end])))))
  }

  /** The fields of an item written out: the places are one more than the newlines before its ends, and columns
      count from the last of them; the long form adds the role and the target. */
  lemma {:induction false} ItemFields(f: Frame, start: nat, end: nat, index: nat, count: nat)
    requires start <= end <= |f.doc.text|
    ensures var from, to := f.doc.text[..start], f.doc.text[..end];
            SourceItem(f, start, end, index, count) ==
            Record(More("chunk_count", Number(count), More("chunk_index", Number(index),
            More("end_col", Number(ColumnOf(to)), More("end_line", Number(LineOf(to)),
            More("item_type", Text(if f.compact then "source_chunk" else "source"), More("path", Text(f.doc.path),
            if f.compact then
              More("start_col", Number(ColumnOf(from)), More("start_line", Number(LineOf(from)),
              More("text", Text(f.doc.text[start..end]), Done)))
            else
              More("role", Text(f.role), More("start_col", Number(ColumnOf(from)), More("start_line", Number(LineOf(from)),
              More("target_id", Text(f.target), More("text", Text(f.doc.text[start..end]), Done)))))))))))
            )
  {
    LineColCounts(f.doc.text, start);
    LineColCounts(f.doc.text, end);
  }

  /** What a numeric field adds apart from its digits depends on its key alone. */
  lemma {:induction false} NumberField(key: string, n: nat, rest: Fields, m: nat, other: Fields)
    requires rest.More? && other.More?
    ensures |DumpsFields(More(key, Number(n), rest))| - |Digits(n)| - |DumpsFields(rest)|
            == |DumpsFields(More(key, Number(m), other))| - |Digits(m)| - |DumpsFields(other)|
  {
  }

  lemma {:induction false} SameField(key: string, value: Value, rest: Fields, other: Fields)
    requires rest.More? && other.More?
    ensures |DumpsFields(More(key, value, rest))| - |DumpsFields(rest)| == |DumpsFields(More(key, value, other))| - |DumpsFields(other)|
  {
  }

  lemma {:induction false} TextField(key: string, text: string, other: string)
    ensures |DumpsFields(More(key, Text(text), Done))| - |Escape(text)| == |DumpsFields(More(key, Text(other), Done))| - |Escape(other)|
  {
  }

  lemma {:induction false} TailSize(compact: bool, role: string, target: string, startCol: nat, startLine: nat, text: string, other: string)
    ensures |DumpsFields(Tail(compact, role, target, startCol, startLine, text))| - |Escape(text)|
            == |DumpsFields(Tail(compact, role, target, startCol, startLine, other))| - |Escape(other)|
  {
    var a := More("text", Text(text), Done);
    var b := More("text", Text(other), Done);
    TextField("text", text, other);
    if !compact {
      SameField("target_id", Text(target), a, b);
      a, b := More("target_id", Text(target), a), More("target_id", Text(target), b);
    }
    SameField("start_line", Number(startLine), a, b);
    a, b := More("start_line", Number(startLine), a), More("start_line", Number(startLine), b);
    SameField("start_col", Number(startCol), a, b);
    a, b := More("start_col", Number(startCol), a), More("start_col", Number(startCol), b);
    if !compact {
      SameField("role", Text(role), a, b);
    }
  }

  /** The size of the fields up to the tail, apart from its numbers. */
  lemma {:induction false} HeadSize(path: string, compact: bool, endCol: nat, endLine: nat, tail: Fields, otherCol: nat, otherLine: nat, other: Fields)
    requires tail.More? && other.More?
    ensures |DumpsFields(Head(path, compact, endCol, endLine, tail))| - |Digits(endCol)| - |Digits(endLine)| - |DumpsFields(tail)|
            == |DumpsFields(Head(path, compact, otherCol, otherLine, other))| - |Digits(otherCol)| - |Digits(otherLine)| - |DumpsFields(other)|
  {
    SameField("path", Text(path), tail, other);
    var a, b := More("path", Text(path), tail), More("path", Text(path), other);
    var kind := Text(if compact then "source_chunk" else "source");
    SameField("item_type", kind, a, b);
    a, b := More("item_type", kind, a), More("item_type", kind, b);
    NumberField("end_line", endLine, a, otherLine, b);
    a, b := More("end_line", Number(endLine), a), More("end_line", Number(otherLine), b);
    NumberField("end_col", endCol, a, otherCol, b);
  }

  lemma {:induction false} CountersSize(index: nat, count: nat, otherIndex: nat, otherCount: nat, rest: Fields, other: Fields)
    requires rest.More? && other.More?
    ensures |Dumps(Record(More("chunk_count", Number(count), More("chunk_index", Number(index), rest))))|
              - |Digits(count)| - |Digits(index)| - |DumpsFields(rest)|
            == |Dumps(Record(More("chunk_count", Number(otherCount), More("chunk_index", Number(otherIndex), other))))|
              - |Digits(otherCount)| - |Digits(otherIndex)| - |DumpsFields(other)|
  {
    NumberField("chunk_index", index, rest, otherIndex, other);
    var a, b := More("chunk_index", Number(index), rest), More("chunk_index", Number(otherIndex), other);
    NumberField("chunk_count", count, a, otherCount, b);
  }

  /** An item never grows when its counters lose digits. */
  lemma {:induction false} CountersFit(f: Frame, start: nat, end: nat, index: nat, count: nat, maxChars: int)
    requires start <= end <= |f.doc.text| && index <= PROBE && count <= PROBE
    requires Fits(SourceItem(f, start, end, PROBE, PROBE), maxChars)
    ensures Fits(SourceItem(f, start, end, index, count), maxChars)
  {
    DigitsGrow(index, PROBE);
    DigitsGrow(count, PROBE);
    var rest := SourceItem(f, start, end, index, count).fields.rest.rest;
    CountersSize(index, count, PROBE, PROBE, rest, rest);
  }

  /** How the size of an item depends on its end. */
  lemma {:induction false} EndSize(f: Frame, start: nat, end: nat, next: nat, index: nat, count: nat)
    requires start <= end <= |f.doc.text| && start <= next <= |f.doc.text|
    ensures var text := f.doc.text;
            var to, to2 := LineCol(text, end), LineCol(text, next);
            |Dumps(SourceItem(f, start, next, index, count))| - |Digits(to2.0)| - |Digits(to2.1)| - |Escape(text[start..next])|
            == |Dumps(SourceItem(f, start, end, index, count))| - |Digits(to.0)| - |Digits(to.1)| - |Escape(text[start..end])|
  {
    var text := f.doc.text;
    var from, to, to2 := LineCol(text, start), LineCol(text, end), LineCol(text, next);
    var s := Tail(f.compact, f.role, f.target, from.1, from.0, text[start..end]);
    var t := Tail(f.compact, f.role, f.target, from.1, from.0, text[start..next]);
    TailSize(f.compact, f.role, f.target, from.1, from.0, text[start..end], text[start..next]);
    HeadSize(f.doc.path, f.compact, to.1, to.0, s, to2.1, to2.0, t);
    CountersSize(index, count, index, count, Head(f.doc.path, f.compact, to.1, to.0, s), Head(f.doc.path, f.compact, to2.1, to2.0, t));
  }

  lemma {:induction false} NextLine(text: string, end: nat)
    requires end < |text| && text[end] == '\n'
    ensures LineCol(text, end + 1) == (LineCol(text, end).0 + 1, 1)
  {
    LineColCounts(text, end);
    LineColCounts(text, end + 1);
    assert text[..end + 1][..end] == text[..end];
  }

  /** The measure is not monotone: behind a newline that ends a line of a thousand columns an item
      gets shorter, as the column loses three digits and the newline costs two characters. */
  lemma {:induction false} ShrinksAtNewline(f: Frame, start: nat, end: nat, index: nat, count: nat)
    requires start <= end < |f.doc.text| && f.doc.text[end] == '\n'
    requires LineCol(f.doc.text, end).1 >= 1000
    requires |Digits(LineCol(f.doc.text, end).0 + 1)| == |Digits(LineCol(f.doc.text, end).0)|
    ensures |Dumps(SourceItem(f, start, end + 1, index, count))| < |Dumps(SourceItem(f, start, end, index, count))|
  {
    var text := f.doc.text;
    NextLine(text, end);
    EndSize(f, start, end, end + 1, index, count);
    FourDigits(LineCol(text, end).1);
    EscapeNewline(text, start, end);
  }

  lemma {:induction false} EscapeNewline(text: string, start: nat, end: nat)
    requires start <= end < |text| && text[end] == '\n'
    ensures |Escape(text[start..end + 1])| == |Escape(text[start..end])| + 2
  {
    assert text[start..end + 1][..end - start] == text[start..end];
  }

  lemma {:induction false} FourDigits(n: nat)
    requires n >= 1000
    ensures |Digits(n)| >= 4 && |Digits(1)| == 1
  {
    DigitsGrow(1000, n);
    assert |Digits(10)| == 2;
    assert |Digits(100)| == 3;
    assert |Digits(1000)| == 4;
  }

  // ----- the search -----

  predicate EndFits(f: Frame, start: nat, end: nat, maxChars: int)
    requires start <= end <= |f.doc.text|
  {
    Fits(SourceItem(f, start, end, PROBE, PROBE), maxChars)
  }

  /** Finds an end that fits and that one more character would spoil, unless it is the upper end. It finds none
      only if not even one character fits. */
  method FitSourceEnd(f: Frame, start: nat, upper: nat, maxChars: int) returns (accepted: nat, ghost over: nat)
    requires start < upper <= |f.doc.text|
    ensures start <= accepted <= upper
    ensures accepted > start ==> EndFits(f, start, accepted, maxChars)
    ensures over == accepted + 1 && (over <= upper ==> !EndFits(f, start, over, maxChars))
  {
    over := upper + 1;
    var low, high := start + 1, upper;
    accepted := start;
    while low <= high
      invariant low == accepted + 1 && start <= accepted <= high <= upper
      invariant accepted > start ==> EndFits(f, start, accepted, maxChars)
      invariant over == high + 1 && (over <= upper ==> !EndFits(f, start, over, maxChars))
      decreases high - low + 1
    {
      var candidateEnd := (low + high) / 2;
      if EndFits(f, start, candidateEnd, maxChars) {
        accepted := candidateEnd;
        low := candidateEnd + 1;
      } else {
        high, over := candidateEnd - 1, candidateEnd;
      }
    }
  }

  // ----- the chunks -----

  /** The span reaches the end, or is of full length, or one more character would not fit. */
  predicate CannotGrow(f: Frame, s: Span, end: nat, maxChars: int) {
    s.end == end || s.end == s.start + 6000 || (s.start <= s.end < |f.doc.text| && !EndFits(f, s.start, s.end + 1, maxChars))
  }

  ghost predicate AreLong(f: Frame, spans: seq<Span>, end: nat, maxChars: int) {
    forall s :: s in spans ==> CannotGrow(f, s, end, maxChars)
  }

  datatype Span = Span(start: nat, end: nat)

  /** Spans that follow each other from `start` to `end`, none empty, none over the limit. */
  ghost predicate Tiles(spans: seq<Span>, start: nat, end: nat) {
    if spans == [] then start == end
    else
      var last := spans[|spans| - 1];
      last.start < last.end == end && last.end - last.start <= CHUNK_CHARS && Tiles(spans[..|spans| - 1], start, last.start)
  }

  function TextOf(text: string, spans: seq<Span>): string
    requires forall s :: s in spans ==> s.start <= s.end <= |text|
  {
    if spans == [] then [] else TextOf(text, spans[..|spans| - 1]) + text[spans[|spans| - 1].start..spans[|spans| - 1].end]
  }

  /** Tiling spans hold the text between their ends, each character once and in order. */
  lemma {:induction false} TilesHold(text: string, spans: seq<Span>, start: nat, end: nat)
    requires Tiles(spans, start, end) && end <= |text|
    ensures start <= end
    ensures forall s :: s in spans ==> start <= s.start < s.end <= end
    ensures TextOf(text, spans) == text[start..end]
  {
    if spans != [] {
      var last := spans[|spans| - 1];
      TilesHold(text, spans[..|spans| - 1], start, last.start);
      assert spans == spans[..|spans| - 1] + [last];
      assert text[start..last.start] + text[last.start..end] == text[start..end];
    }
  }

  /** The short form is taken when the long form of one character leaves no room to spare. */
  function IsCompact(doc: Document, start: nat, end: nat, maxChars: int, role: string, target: string): bool
    requires start <= end <= |doc.text|
  {
    var probeEnd := if end < start + 1 then end else start + 1;
    maxChars <= 256 || |Dumps(SourceItem(Frame(doc, role, target, false), start, probeEnd, PROBE, PROBE))| + 2 >= maxChars
  }

  /** The items of tiling spans from `start` to `end`, or of the one empty span. */
  ghost predicate IsChunked(f: Frame, start: nat, end: nat, spans: seq<Span>, items: seq<Value>)
    requires start <= end <= |f.doc.text|
  {
    && (if start == end then spans == [Span(start, end)] else Tiles(spans, start, end))
    && |items| == |spans|
    && forall i :: 0 <= i < |spans| ==>
         spans[i].start <= spans[i].end <= |f.doc.text| && items[i] == SourceItem(f, spans[i].start, spans[i].end, i, |spans|)
  }

  /** Not even the one character at the offset fits. */
  predicate TooLargeAt(f: Frame, offset: nat, maxChars: int) {
    offset < |f.doc.text| && !EndFits(f, offset, offset + 1, maxChars)
  }

  ghost predicate TooLargeWithin(f: Frame, start: nat, end: nat, maxChars: int) {
    exists o :: start <= o < end && TooLargeAt(f, o, maxChars)
  }

  /** Spans that fit lead from the start to an offset at which not even one character does. */
  ghost predicate StuckBehind(f: Frame, spans: seq<Span>, start: nat, end: nat, maxChars: int) {
    exists o: nat :: start <= o < end && Tiles(spans, start, o) && SpansFit(f, spans, maxChars) && TooLargeAt(f, o, maxChars)
  }

  /** The chunks of the clamped span: they tile it, and fewer than a million of them each fit.
      It fails only behind spans that fit, where a single character does not. */
  method SourceItems(doc: Document, from: int, to: int, maxChars: int, role: string, target: string)
    returns (r: Result<seq<Value>, Error>, ghost spans: seq<Span>)
    ensures var start := Clamp(from, 0, |doc.text|);
            var end := Clamp(to, start, |doc.text|);
            var f := Frame(doc, role, target, IsCompact(doc, start, end, maxChars, role, target));
            && (r.Success? ==> IsChunked(f, start, end, spans, r.value))
            && (r.Failure? ==> StuckBehind(f, spans, start, end, maxChars))
    ensures var start := Clamp(from, 0, |doc.text|);
            var end := Clamp(to, start, |doc.text|);
            var f := Frame(doc, role, target, IsCompact(doc, start, end, maxChars, role, target));
            && (r.Success? && start < end && |r.value| <= PROBE ==> forall v :: v in r.value ==> Fits(v, maxChars))
            && (r.Success? ==> AreLong(f, spans, end, maxChars))
            && (r.Failure? ==> TooLargeWithin(f, start, end, maxChars))
  {
    var start := Clamp(from, 0, |doc.text|);
    var end := Clamp(to, start, |doc.text|);
    var f := Frame(doc, role, target, IsCompact(doc, start, end, maxChars, role, target));
    r, spans := Chunked(f, start, end, maxChars);
  }

  method Chunked(f: Frame, start: nat, end: nat, maxChars: int) returns (r: Result<seq<Value>, Error>, ghost spans: seq<Span>)
    requires start <= end <= |f.doc.text|
    ensures r.Success? ==> IsChunked(f, start, end, spans, r.value)
    ensures r.Success? && start < end && |r.value| <= PROBE ==> forall v :: v in r.value ==> Fits(v, maxChars)
    ensures r.Success? ==> AreLong(f, spans, end, maxChars)
    ensures r.Failure? ==> StuckBehind(f, spans, start, end, maxChars)
  {
    var found;
    found, spans := SourceSpans(f, start, end, maxChars);
    if found.Failure? {
      return Failure(found.error), spans;
    }
    var all := if |found.value| == 0 then [Span(start, end)] else found.value;
    NumberedHolds(f, found.value, all, start, end);
    AllFit(f, found.value, maxChars);
    spans := all;
    r := Success(Numbered(f, all));
  }

  lemma {:induction false} NumberedHolds(f: Frame, found: seq<Span>, all: seq<Span>, start: nat, end: nat)
    requires start <= end <= |f.doc.text| && Tiles(found, start, end)
    requires all == if found == [] then [Span(start, end)] else found
    ensures forall s :: s in all ==> s.start <= s.end <= |f.doc.text|
    ensures IsChunked(f, start, end, all, Numbered(f, all))
    ensures start < end ==> all == found
  {
    TilesHold(f.doc.text, found, start, end);
    if found != [] {
      assert found[0] in found;
    }
    var items := Numbered(f, all);
    assert IsChunked(f, start, end, all, items);
  }

  method SourceSpans(f: Frame, start: nat, end: nat, maxChars: int) returns (r: Result<seq<Span>, Error>, ghost reached: seq<Span>)
    requires start <= end <= |f.doc.text|
    ensures r.Success? ==> Tiles(r.value, start, end) && SpansFit(f, r.value, maxChars) && AreLong(f, r.value, end, maxChars)
    ensures r.Failure? ==> StuckBehind(f, reached, start, end, maxChars)
  {
    var spans: seq<Span> := [];
    var offset: nat := start;
    while offset < end
      invariant start <= offset <= end && Tiles(spans, start, offset) && SpansFit(f, spans, maxChars)
      invariant AreLong(f, spans, end, maxChars)
    {
      var upper := if end < offset + CHUNK_CHARS then end else offset + CHUNK_CHARS;
      var accepted, over := FitSourceEnd(f, offset, upper, maxChars);
      if accepted <= offset {
        OneIsTooLarge(f, offset, over, maxChars);
        return Failure(ItemTooLarge), spans;
      }
      TilesMore(f, spans, start, Span(offset, accepted), maxChars);
      LongMore(f, spans, Span(offset, accepted), upper, over, end, maxChars);
      spans := spans + [Span(offset, accepted)];
      offset := accepted;
    }
    r, reached := Success(spans), spans;
  }

  ghost predicate SpansFit(f: Frame, spans: seq<Span>, maxChars: int) {
    forall s :: s in spans ==> s.start <= s.end <= |f.doc.text| && EndFits(f, s.start, s.end, maxChars)
  }

  lemma {:induction false} OneIsTooLarge(f: Frame, offset: nat, over: nat, maxChars: int)
    requires over == offset + 1 <= |f.doc.text| && !EndFits(f, offset, over, maxChars)
    ensures TooLargeAt(f, offset, maxChars)
  {
  }

  lemma {:induction false} LongMore(f: Frame, spans: seq<Span>, s: Span, upper: nat, over: nat, end: nat, maxChars: int)
    requires AreLong(f, spans, end, maxChars) && s.start < s.end <= upper <= |f.doc.text| && (upper == end || upper == s.start + CHUNK_CHARS)
    requires over == s.end + 1 && (over <= upper ==> !EndFits(f, s.start, over, maxChars))
    ensures AreLong(f, spans + [s], end, maxChars)
  {
  }

  lemma {:induction false} TilesMore(f: Frame, spans: seq<Span>, start: nat, s: Span, maxChars: int)
    requires Tiles(spans, start, s.start) && SpansFit(f, spans, maxChars)
    requires s.start < s.end <= |f.doc.text| && s.end - s.start <= CHUNK_CHARS && EndFits(f, s.start, s.end, maxChars)
    ensures Tiles(spans + [s], start, s.end) && SpansFit(f, spans + [s], maxChars)
  {
    assert (spans + [s])[..|spans|] == spans;
  }

  function Numbered(f: Frame, spans: seq<Span>): (r: seq<Value>)
    requires forall s :: s in spans ==> s.start <= s.end <= |f.doc.text|
    ensures |r| == |spans| && forall i :: 0 <= i < |r| ==> r[i] == SourceItem(f, spans[i].start, spans[i].end, i, |spans|)
  {
    seq(|spans|, i requires 0 <= i < |spans| => SourceItem(f, spans[i].start, spans[i].end, i, |spans|))
  }

  lemma {:induction false} AllFit(f: Frame, spans: seq<Span>, maxChars: int)
    requires SpansFit(f, spans, maxChars)
    ensures |spans| <= PROBE ==> forall v :: v in Numbered(f, spans) ==> Fits(v, maxChars)
  {
    forall i | 0 <= i < |spans| <= PROBE
      ensures Fits(Numbered(f, spans)[i], maxChars)
    {
      assert spans[i] in spans;
      CountersFit(f, spans[i].start, spans[i].end, i, |spans|, maxChars);
    }
  }
}
