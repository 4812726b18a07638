/** The index-driven compaction of outline text, against the suffix functions of LexicalChunks. */
module OutlineCompactor {
  import opened LexicalChunks

  /** The parts joined. */
  ghost function Joined(parts: seq<string>): string {
    if parts == [] then [] else Joined(parts[..|parts| - 1]) + parts[|parts| - 1]
  }

  lemma {:induction false} FindShift(text: string, start: nat, pat: string, from: nat)
    requires start <= |text| && pat != []
    ensures Find(text, pat, start + from) == if Find(text[start..], pat, from) < 0 then -1 else start + Find(text[start..], pat, from)
    decreases |text| - from
  {
    if start + from + |pat| <= |text| {
      assert text[start..][from..from + |pat|] == text[start + from..start + from + |pat|];
      FindShift(text, start, pat, from + 1);
    }
  }

  lemma {:induction false} OpeningQuotes(text: string, start: nat, count: nat)
    requires start + count <= |text|
    ensures text[start..start + count] == Quotes(count) <==> OpensWithQuotes(text[start..], count)
  {
    assert forall i :: 0 <= i < count ==> text[start..][i] == text[start..start + count][i];
    assert forall i :: 0 <= i < count ==> Quotes(count)[i] == '\'';
  }

  /** Where the content of a block of `count` quotes starts, or -1. */
  method ContentOf(text: string, start: nat, count: nat) returns (r: int)
    requires start <= |text|
    ensures r == if ContentStart(text[start..], count) < 0 then -1 else start + ContentStart(text[start..], count)
  {
    if start + count > |text| {
      return -1;
    }
    OpeningQuotes(text, start, count);
    if text[start..start + count] != Quotes(count) {
      return -1;
    }
    var content := start + count;
    if content + 1 < |text| && text[content] == '\r' && text[content + 1] == '\n' {
      r := content + 2;
    } else if content < |text| && text[content] == '\n' {
      r := content + 1;
    } else {
      r := -1;
    }
  }

  /** The end of a block that starts at `start`, if one does. */
  method MultilineStringBlockEnd(text: string, start: nat) returns (r: int)
    requires start <= |text|
    ensures r == if BlockLength(text[start..]) < 0 then -1 else start + BlockLength(text[start..])
  {
    ghost var rest := text[start..];
    var counts := [5, 3];
    for k := 0 to 2
      invariant k >= 1 ==> ContentStart(rest, 5) < 0
      invariant k >= 2 ==> ContentStart(rest, 3) < 0
    {
      var count := counts[k];
      var content := ContentOf(text, start, count);
      if content >= 0 {
        FindShift(text, start, Quotes(count), content - start);
        var close := Find(text, Quotes(count), content);
        return if close < 0 then |text| else close + count;
      }
    }
    r := -1;
  }

  method QuotedStringEnd(text: string, start: nat) returns (r: nat)
    requires start < |text|
    ensures r == start + QuotedFrom(text[start..], 1)
  {
    var i := start + 1;
    while i < |text|
      invariant start < i <= |text|
      invariant QuotedFrom(text[start..], 1) == QuotedFrom(text[start..], i - start)
    {
      if text[i] != '\'' {
        i := i + 1;
        continue;
      }
      if i + 1 < |text| && text[i + 1] == '\'' {
        i := i + 2;
        continue;
      }
      return i + 1;
    }
    return |text|;
  }

  method LineCommentEnd(text: string, start: nat) returns (r: nat)
    requires start + 2 <= |text|
    ensures r == start + LineFrom(text[start..], 2)
  {
    var i := start + 2;
    while i < |text| && !IsBreak(text[i])
      invariant start + 2 <= i <= |text|
      invariant LineFrom(text[start..], 2) == LineFrom(text[start..], i - start)
    {
      i := i + 1;
    }
    if i < |text| && text[i] == '\r' && i + 1 < |text| && text[i + 1] == '\n' {
      return i + 2;
    }
    if i < |text| {
      return i + 1;
    }
    return i;
  }

  method CollapsedWhitespace(text: string, start: nat, end: nat) returns (r: string)
    requires start <= end <= |text|
    ensures r == Collapsed(text[start..end])
  {
    for index := start to end
      invariant Collapsed(text[start..end]) == Collapsed(text[index..end])
    {
      if text[index] == '\r' {
        if index + 1 < end && text[index + 1] == '\n' {
          return "\r\n";
        }
        return "\r";
      }
      if text[index] == '\n' {
        return "\n";
      }
      assert text[index..end][1..] == text[index + 1..end];
    }
    r := " ";
  }

  method ChunkEnd(text: string, start: nat) returns (i: nat)
    requires start < |text| && !IsSpace(text[start])
    ensures i == start + ChunkLength(text[start..])
  {
    if text[start] == '\'' {
      var blockEnd := MultilineStringBlockEnd(text, start);
      if blockEnd >= 0 {
        return blockEnd;
      }
      i := QuotedStringEnd(text, start);
    } else if OpensAt(text, start, '/', '/') {
      i := LineCommentEnd(text, start);
    } else if text[start] == '{' {
      FindShift(text, start, "}", 1);
      var close := Find(text, "}", start + 1);
      i := if close < 0 then |text| else close + 1;
    } else if OpensAt(text, start, '(', '*') {
      FindShift(text, start, "*)", 2);
      var close := Find(text, "*)", start + 2);
      i := if close < 0 then |text| else close + 2;
    } else {
      i := CodeEnd(text, start);
    }
  }

  method CodeEnd(text: string, start: nat) returns (i: nat)
    requires start < |text|
    ensures i == start + CodeFrom(text[start..], 1)
  {
    ghost var rest := text[start..];
    i := start + 1;
    while i < |text|
      invariant start < i <= |text|
      invariant CodeFrom(rest, 1) == CodeFrom(rest, i - start)
    {
      assert rest[i - start..] == text[i..];
      if IsSpace(text[i]) || text[i] == '\'' || text[i] == '{' {
        break;
      }
      if OpensAt(text, i, '/', '/') || OpensAt(text, i, '(', '*') {
        break;
      }
      i := i + 1;
    }
  }

  predicate OpensAt(text: string, i: nat, a: char, b: char)
    ensures i <= |text| ==> (OpensAt(text, i, a, b) <==> Opens(text[i..], a, b))
  {
    i + 1 < |text| && text[i] == a && text[i + 1] == b
  }

  predicate LastIsSpace(part: string) {
    part != [] && IsSpace(part[|part| - 1])
  }

  ghost predicate EndsInSpace(parts: seq<string>) {
    parts != [] && LastIsSpace(parts[|parts| - 1])
  }

  /** What is written so far, and what compaction makes of the rest. */
  ghost predicate Progress(text: string, parts: seq<string>, i: nat) {
    && i <= |text|
    && (forall p :: p in parts ==> p != [])
    && Compact(text) == Joined(parts) + Compacted(text[i..], parts != [], EndsInSpace(parts))
  }

  lemma {:induction false} Regroup(whole: string, done: string, part: string, rest: string)
    requires whole == done + (part + rest)
    ensures whole == (done + part) + rest
  {
  }

  lemma {:induction false} Wrote(text: string, parts: seq<string>, i: nat, part: string, j: nat, from: string, rest: string)
    requires Progress(text, parts, i) && part != [] && i <= j <= |text|
    requires from == Compacted(text[i..], parts != [], EndsInSpace(parts)) == part + rest
    requires rest == Compacted(text[j..], true, IsSpace(part[|part| - 1]))
    ensures Progress(text, parts + [part], j)
  {
    var after := parts + [part];
    assert after[..|after| - 1] == parts && after[|after| - 1] == part;
    assert Joined(after) == Joined(parts) + part;
    Regroup(Compact(text), Joined(parts), part, rest);
    assert EndsInSpace(after) == IsSpace(part[|part| - 1]);
    assert forall p :: p in after ==> p in parts || p == part;
  }

  lemma {:induction false} AfterBlank(text: string, parts: seq<string>, start: nat, i: nat)
    requires Progress(text, parts, start) && start < |text| && IsSpace(text[start]) && i == start + Blank(text[start..])
    ensures !(parts != [] && i < |text| && !EndsInSpace(parts)) ==> Progress(text, parts, i)
    ensures parts != [] && i < |text| && !EndsInSpace(parts) ==> Progress(text, parts + [Collapsed(text[start..i])], i)
  {
    var s := text[start..];
    assert s[Blank(s)..] == text[i..] && s[..Blank(s)] == text[start..i];
    if parts != [] && i < |text| && !EndsInSpace(parts) {
      CollapsedShape(text[start..i]);
      var white := Collapsed(text[start..i]);
      Wrote(text, parts, start, white, i, white + Compacted(text[i..], true, true), Compacted(text[i..], true, true));
    }
  }

  lemma {:induction false} AfterChunk(text: string, parts: seq<string>, start: nat, i: nat)
    requires Progress(text, parts, start) && start < |text| && !IsSpace(text[start]) && i == start + ChunkLength(text[start..])
    ensures Progress(text, parts + [text[start..i]], i)
  {
    var s := text[start..];
    var n := ChunkLength(s);
    assert s[n..] == text[i..] && s[..n] == text[start..i] && s[n - 1] == text[start..i][n - 1];
    var rest := Compacted(text[i..], true, IsSpace(s[n - 1]));
    Wrote(text, parts, start, s[..n], i, s[..n] + rest, rest);
  }

  lemma {:induction false} BlankStep(text: string, start: nat, i: nat)
    requires start <= i <= |text| && forall k :: start <= k < i ==> IsSpace(text[k])
    ensures Blank(text[start..]) == i - start + Blank(text[i..])
    decreases i - start
  {
    if start < i {
      assert text[start..][1..] == text[start + 1..];
      BlankStep(text, start + 1, i);
    }
  }

  lemma {:induction false} Unstarted(text: string)
    ensures Progress(text, [], 0)
  {
    assert text[0..] == text;
  }

  lemma {:induction false} Finished(text: string, parts: seq<string>, i: nat)
    requires Progress(text, parts, i) && i >= |text|
    ensures Compact(text) == Joined(parts)
  {
    assert Compacted(text[i..], parts != [], EndsInSpace(parts)) == "";
  }

  method CompactOutlineWhitespace(text: string) returns (compact: string)
    ensures compact == Compact(text)
    ensures Chunks(compact, false, false) == Chunks(text, false, false)
    ensures IsTight(compact, false, false)
  {
    var parts: seq<string> := [];
    var i := 0;
    Unstarted(text);
    while i < |text|
      invariant Progress(text, parts, i)
    {
      var start := i;
      if IsSpace(text[i]) {
        while i < |text| && IsSpace(text[i])
          invariant start <= i <= |text|
          invariant forall k :: start <= k < i ==> IsSpace(text[k])
        {
          i := i + 1;
        }
        BlankStep(text, start, i);
        AfterBlank(text, parts, start, i);
        if |parts| > 0 && i < |text| && !LastIsSpace(parts[|parts| - 1]) {
          var white := CollapsedWhitespace(text, start, i);
          parts := parts + [white];
        }
        continue;
      }
      i := ChunkEnd(text, i);
      AfterChunk(text, parts, start, i);
      parts := parts + [text[start..i]];
    }
    Finished(text, parts, i);
    compact := Join(parts);
    CompactKeepsChunks(text);
    CompactIsTight(text);
  }

  method Join(parts: seq<string>) returns (r: string)
    ensures r == Joined(parts)
  {
    r := "";
    for k := 0 to |parts|
      invariant r == Joined(parts[..k])
    {
      assert parts[..k + 1][..k] == parts[..k];
      r := r + parts[k];
    }
    assert parts[..|parts|] == parts;
  }
}
