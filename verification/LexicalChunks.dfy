/** The lexical chunks of outline text - string literals, multiline blocks, comments and
    code runs - and the whitespace compaction between them. Lengths are counted from the
    head of a suffix: nothing here looks back. */
module LexicalChunks {

  /** The characters that count as white space. */
  predicate IsSpace(c: char) {
    || '\t' <= c <= '\r' || '\U{1C}' <= c <= ' ' || c == '\U{85}' || c == '\U{A0}' || c == '\U{1680}'
    || '\U{2000}' <= c <= '\U{200A}' || c == '\U{2028}' || c == '\U{2029}' || c == '\U{202F}'
    || c == '\U{205F}' || c == '\U{3000}'
  }

  predicate IsBreak(c: char) {
    c == '\r' || c == '\n'
  }

  predicate StartsWith(s: string, pat: string) {
    |pat| <= |s| && s[..|pat|] == pat
  }

  /** The first place at or after `from` where `pat` stands. */
  function Find(s: string, pat: string, from: nat): (r: int)
    ensures r == -1 || from <= r <= |s| - |pat|
    ensures r >= 0 ==> s[r..r + |pat|] == pat
    decreases |s| - from
  {
    if from + |pat| > |s| then -1
    else if s[from..from + |pat|] == pat then from
    else if from < |s| then Find(s, pat, from + 1)
    else -1
  }

  /** The length up to and including the first `pat` at or after `from`, or all of `s`. */
  function Through(s: string, pat: string, from: nat): (r: nat)
    ensures r <= |s|
    ensures Find(s, pat, from) >= 0 ==> from + |pat| <= r
  {
    var at := Find(s, pat, from);
    if at < 0 then |s| else at + |pat|
  }

  predicate OpensWithQuotes(s: string, n: nat) {
    n <= |s| && forall i :: 0 <= i < n ==> s[i] == '\''
  }

  /** Where the content of a multiline block begins: behind the quotes and a line break. */
  function ContentStart(s: string, quotes: nat): (r: int)
    ensures r == -1 || (quotes < r <= |s| && r <= quotes + 2)
  {
    if !OpensWithQuotes(s, quotes) then -1
    else if quotes + 1 < |s| && s[quotes] == '\r' && s[quotes + 1] == '\n' then quotes + 2
    else if quotes < |s| && s[quotes] == '\n' then quotes + 1
    else -1
  }

  function Quotes(n: nat): (r: string)
    ensures |r| == n
  {
    seq(n, _ => '\'')
  }

  /** The length of a multiline string block of five or of three quotes, or -1. */
  function BlockLength(s: string): (r: int)
    ensures r == -1 || 3 < r <= |s|
  {
    var five, three := ContentStart(s, 5), ContentStart(s, 3);
    if five >= 0 then Through(s, Quotes(5), five)
    else if three >= 0 then Through(s, Quotes(3), three)
    else -1
  }

  /** The length of a quoted string, from the character behind the opening quote. */
  function QuotedFrom(s: string, i: nat): (r: nat)
    requires i <= |s|
    ensures i <= r <= |s|
    decreases |s| - i
  {
    if i >= |s| then |s|
    else if s[i] != '\'' then QuotedFrom(s, i + 1)
    else if i + 1 < |s| && s[i + 1] == '\'' then QuotedFrom(s, i + 2)
    else i + 1
  }

  /** The length of a line comment with its line break, from inside it. */
  function LineFrom(s: string, i: nat): (r: nat)
    requires i <= |s|
    ensures i <= r <= |s|
    decreases |s| - i
  {
    if i >= |s| then |s|
    else if !IsBreak(s[i]) then LineFrom(s, i + 1)
    else if s[i] == '\r' && i + 1 < |s| && s[i + 1] == '\n' then i + 2
    else i + 1
  }

  /** Code stops before white space, a quote, and the openings of comments. */
  predicate StopsCode(s: string)
    requires s != []
  {
    IsSpace(s[0]) || s[0] == '\'' || s[0] == '{' || Opens(s, '/', '/') || Opens(s, '(', '*')
  }

  predicate Opens(s: string, a: char, b: char) {
    |s| >= 2 && s[0] == a && s[1] == b
  }

  function CodeFrom(s: string, i: nat): (r: nat)
    requires i <= |s|
    ensures i <= r <= |s|
    decreases |s| - i
  {
    if i >= |s| || StopsCode(s[i..]) then i else CodeFrom(s, i + 1)
  }

  datatype Kind = Literal | Block | LineComment | BraceComment | StarComment | Code

  function KindOf(s: string): Kind
    requires s != []
  {
    if s[0] == '\'' then if BlockLength(s) >= 0 then Block else Literal
    else if Opens(s, '/', '/') then LineComment
    else if s[0] == '{' then BraceComment
    else if Opens(s, '(', '*') then StarComment
    else Code
  }

  /** The length of the chunk at the head of the text. */
  function ChunkLength(s: string): (r: nat)
    requires s != []
    ensures 1 <= r <= |s|
  {
    match KindOf(s)
    case Block => BlockLength(s)
    case Literal => QuotedFrom(s, 1)
    case LineComment => LineFrom(s, 2)
    case BraceComment => Through(s, "}", 1)
    case StarComment => Through(s, "*)", 2)
    case Code => CodeFrom(s, 1)
  }

  /** The number of white-space characters at the head. */
  function Blank(s: string): (r: nat)
    ensures r <= |s|
    ensures forall i :: 0 <= i < r ==> IsSpace(s[i])
    ensures r < |s| ==> !IsSpace(s[r])
  {
    if s != [] && IsSpace(s[0]) then 1 + Blank(s[1..]) else 0
  }

  // ----- what the chunks are -----

  /** The text of a literal between its quotes: a quote within it is doubled. */
  predicate IsPaired(t: string) {
    if t == [] then true
    else if t[0] != '\'' then IsPaired(t[1..])
    else |t| >= 2 && t[1] == '\'' && IsPaired(t[2..])
  }

  lemma {:induction false} QuotedIs(s: string, i: nat)
    requires i <= |s|
    ensures var n := QuotedFrom(s, i);
            || (i < n && s[n - 1] == '\'' && IsPaired(s[i..n - 1]) && (n < |s| ==> s[n] != '\''))
            || (n == |s| && IsPaired(s[i..]))
    decreases |s| - i
  {
    if i < |s| {
      var n := QuotedFrom(s, i);
      if s[i] != '\'' {
        QuotedIs(s, i + 1);
        assert s[i..][1..] == s[i + 1..] && (i + 1 < n ==> s[i..n - 1][1..] == s[i + 1..n - 1]);
      } else if i + 1 < |s| && s[i + 1] == '\'' {
        QuotedIs(s, i + 2);
        assert s[i..][2..] == s[i + 2..] && (i + 2 < n ==> s[i..n - 1][2..] == s[i + 2..n - 1]);
      }
    }
  }

  /** A literal ends at its first quote that is not doubled, or with the text. */
  lemma {:induction false} LiteralShape(s: string)
    requires s != [] && KindOf(s) == Literal
    ensures var n := ChunkLength(s);
            || (n >= 2 && s[0] == '\'' && s[n - 1] == '\'' && IsPaired(s[1..n - 1]) && (n < |s| ==> s[n] != '\''))
            || (n == |s| && s[0] == '\'' && IsPaired(s[1..]))
  {
    QuotedIs(s, 1);
  }

  lemma {:induction false} LineIs(s: string, i: nat)
    requires i <= |s|
    ensures var n := LineFrom(s, i);
            || (n == |s| && forall k :: i <= k < n ==> s[k] != '\r' && s[k] != '\n')
            || (exists e :: i <= e < n && (forall k :: i <= k < e ==> s[k] != '\r' && s[k] != '\n') && IsBreakTo(s, e, n))
    decreases |s| - i
  {
    if i < |s| && !IsBreak(s[i]) {
      LineIs(s, i + 1);
    } else if i < |s| {
      assert IsBreakTo(s, i, LineFrom(s, i));
    }
  }

  /** A line break from `e` to `n`: one character, or a carriage return with its line feed. */
  predicate IsBreakTo(s: string, e: int, n: int) {
    && 0 <= e < |s|
    && if s[e] == '\r' && e + 1 < |s| && s[e + 1] == '\n' then n == e + 2 else (s[e] == '\r' || s[e] == '\n') && n == e + 1
  }

  /** A line comment ends behind its first line break, or with the text. */
  lemma {:induction false} LineCommentShape(s: string)
    requires s != [] && KindOf(s) == LineComment
    ensures s[..2] == "//"
    ensures var n := ChunkLength(s);
            || (n == |s| && forall k :: 2 <= k < n ==> s[k] != '\r' && s[k] != '\n')
            || (exists e :: 2 <= e < n && (forall k :: 2 <= k < e ==> s[k] != '\r' && s[k] != '\n') && IsBreakTo(s, e, n))
  {
    LineIs(s, 2);
  }

  /** The pattern stands at `k`. */
  predicate StandsAt(s: string, pat: string, k: int) {
    0 <= k && k + |pat| <= |s| && s[k..k + |pat|] == pat
  }

  lemma {:induction false} FindIsFirst(s: string, pat: string, from: nat)
    ensures var r := Find(s, pat, from);
            if r < 0 then forall k :: from <= k ==> !StandsAt(s, pat, k)
            else from <= r && StandsAt(s, pat, r) && forall k :: from <= k < r ==> !StandsAt(s, pat, k)
    decreases |s| - from
  {
    if from + |pat| <= |s| && s[from..from + |pat|] != pat && from < |s| {
      FindIsFirst(s, pat, from + 1);
    }
  }

  /** The chunk ends with the first such pattern from `from` on, or with the text. */
  ghost predicate EndsWithFirst(s: string, n: nat, pat: string, from: nat) {
    || (n == |s| && forall k :: from <= k ==> !StandsAt(s, pat, k))
    || (from <= n - |pat| && StandsAt(s, pat, n - |pat|) && forall k :: from <= k < n - |pat| ==> !StandsAt(s, pat, k))
  }

  lemma {:induction false} ThroughIsFirst(s: string, pat: string, from: nat)
    ensures EndsWithFirst(s, Through(s, pat, from), pat, from)
  {
    FindIsFirst(s, pat, from);
  }

  /** The other comments end with the first closing bracket behind the opening one. */
  lemma {:induction false} BraceCommentShape(s: string)
    requires s != [] && KindOf(s) == BraceComment
    ensures s[0] == '{' && EndsWithFirst(s, ChunkLength(s), "}", 1)
  {
    ThroughIsFirst(s, "}", 1);
  }

  lemma {:induction false} StarCommentShape(s: string)
    requires s != [] && KindOf(s) == StarComment
    ensures s[..2] == "(*" && EndsWithFirst(s, ChunkLength(s), "*)", 2)
  {
    ThroughIsFirst(s, "*)", 2);
  }

  /** So many quotes and a line break stand at the head. */
  predicate OpensQuoted(s: string, quotes: nat) {
    && quotes < |s| && (forall i :: 0 <= i < quotes ==> s[i] == '\'')
    && (s[quotes] == '\n' || (s[quotes] == '\r' && quotes + 1 < |s| && s[quotes + 1] == '\n'))
  }

  /** A block opens with five quotes, or else three, and a line break. What opens with a quote otherwise is a
      literal. */
  lemma {:induction false} BlockOpens(s: string)
    requires s != []
    ensures KindOf(s) == Block <==> OpensQuoted(s, 5) || OpensQuoted(s, 3)
    ensures KindOf(s) == Literal <==> s[0] == '\'' && !OpensQuoted(s, 5) && !OpensQuoted(s, 3)
  {
  }

  /** A block ends with the first quotes like those it opens with, or with the text. */
  lemma {:induction false} BlockShape(s: string)
    requires s != []
    ensures KindOf(s) == Block && OpensQuoted(s, 5) ==> EndsWithFirst(s, ChunkLength(s), "'''''", if s[5] == '\r' then 7 else 6)
    ensures KindOf(s) == Block && !OpensQuoted(s, 5) ==> EndsWithFirst(s, ChunkLength(s), "'''", if s[3] == '\r' then 5 else 4)
  {
    QuotesAre();
    if KindOf(s) == Block {
      if OpensQuoted(s, 5) {
        ThroughIsFirst(s, "'''''", if s[5] == '\r' then 7 else 6);
      } else {
        BlockOpens(s);
        ThroughIsFirst(s, "'''", if s[3] == '\r' then 5 else 4);
      }
    }
  }

  lemma {:induction false} QuotesAre()
    ensures Quotes(5) == "'''''" && Quotes(3) == "'''"
  {
  }

  /** Code goes on up to white space, a quote or a comment, and takes at least one character. */
  lemma {:induction false} CodeShape(s: string)
    requires s != [] && KindOf(s) == Code
    ensures forall k :: 1 <= k < ChunkLength(s) ==> !EndsCode(s, k)
    ensures ChunkLength(s) < |s| ==> EndsCode(s, ChunkLength(s))
  {
    CodeIs(s, 1);
  }

  predicate EndsCode(s: string, k: nat) {
    && k < |s|
    && (IsSpace(s[k]) || s[k] == '\'' || s[k] == '{' || StandsAt(s, "//", k) || StandsAt(s, "(*", k))
  }

  lemma {:induction false} CodeIs(s: string, i: nat)
    requires i <= |s|
    ensures forall k :: i <= k < CodeFrom(s, i) ==> !EndsCode(s, k)
    ensures CodeFrom(s, i) < |s| ==> EndsCode(s, CodeFrom(s, i))
    decreases |s| - i
  {
    if i < |s| {
      StopsAre(s, i);
      if !StopsCode(s[i..]) {
        CodeIs(s, i + 1);
      }
    }
  }

  lemma {:induction false} StopsAre(s: string, i: nat)
    requires i < |s|
    ensures StopsCode(s[i..]) <==> EndsCode(s, i)
  {
    var t := s[i..];
    assert t[0] == s[i] && (|t| >= 2 ==> t[1] == s[i + 1] && s[i..i + 2] == [s[i], s[i + 1]]);
  }

  predicate HasBreak(s: string) {
    exists c :: c in s && IsBreak(c)
  }

  /** A chunk, and whether a line break separates it from the chunk before. */
  datatype Chunk = Chunk(kind: Kind, text: string, newLine: bool)

  /** The chunks of `s`; `started` says that a chunk came before, `broken` that a line break
      has been seen since. */
  function Chunks(s: string, started: bool, broken: bool): seq<Chunk>
    decreases |s|
  {
    if s == [] then []
    else if IsSpace(s[0]) then Chunks(s[Blank(s)..], started, broken || HasBreak(s[..Blank(s)]))
    else
      var n := ChunkLength(s);
      [Chunk(KindOf(s), s[..n], started && broken)] + Chunks(s[n..], true, IsSpace(s[n - 1]))
  }

  // ----- compaction -----

  /** A run of white space becomes its first line break, or one space. */
  function Collapsed(w: string): string {
    if w == [] then " "
    else if w[0] == '\r' then if |w| > 1 && w[1] == '\n' then "\r\n" else "\r"
    else if w[0] == '\n' then "\n"
    else Collapsed(w[1..])
  }

  /** What compaction makes of `s`; `spaced` says that the output so far ends in white space. */
  function Compacted(s: string, started: bool, spaced: bool): string
    decreases |s|
  {
    if s == [] then []
    else if IsSpace(s[0]) then
      var n := Blank(s);
      if started && n < |s| && !spaced then Collapsed(s[..n]) + Compacted(s[n..], true, true)
      else Compacted(s[n..], started, spaced)
    else
      var n := ChunkLength(s);
      s[..n] + Compacted(s[n..], true, IsSpace(s[n - 1]))
  }

  function Compact(s: string): string {
    Compacted(s, false, false)
  }

  // ----- a chunk does not depend on what follows it, as far as it matters -----

  /** `g` may stand for `f` behind a chunk that ends in white space or not. */
  predicate MayFollow(spaced: bool, f: string, g: string) {
    if f == [] then g == []
    else if spaced then g == [] || !IsSpace(g[0])
    else if IsSpace(f[0]) then g == [] || IsSpace(g[0])
    else g != [] && g[0] == f[0] && (Opens(f, '/', '/') <==> Opens(g, '/', '/')) && (Opens(f, '(', '*') <==> Opens(g, '(', '*'))
  }

  lemma {:induction false} FindLocal(c: string, f: string, g: string, pat: string, from: nat)
    requires Find(c + f, pat, from) >= 0
    requires Find(c + f, pat, from) + |pat| <= |c|
    ensures Find(c + g, pat, from) == Find(c + f, pat, from)
    decreases |c| - from
  {
    assert (c + f)[from..from + |pat|] == c[from..from + |pat|] == (c + g)[from..from + |pat|];
    if c[from..from + |pat|] != pat {
      FindLocal(c, f, g, pat, from + 1);
    }
  }

  lemma {:induction false} ThroughLocal(c: string, f: string, g: string, pat: string, from: nat)
    requires Through(c + f, pat, from) == |c| && f != []
    ensures from + |pat| <= |c| && Through(c + g, pat, from) == |c|
  {
    FindLocal(c, f, g, pat, from);
  }

  lemma {:induction false} LineLocal(c: string, f: string, g: string, i: nat)
    requires i <= |c| && f != [] && LineFrom(c + f, i) == |c|
    requires g != [] ==> g[0] != '\n'
    ensures c != [] && IsBreak(c[|c| - 1]) && LineFrom(c + g, i) == |c|
    decreases |c| - i
  {
    assert (c + f)[|c|] == f[0];
    if i < |c| && !IsBreak(c[i]) {
      LineLocal(c, f, g, i + 1);
    }
  }

  /** A closed literal ends in a quote, and its quotes pair up. */
  lemma {:induction false} QuotedLocal(c: string, f: string, g: string, i: nat)
    requires 1 <= i <= |c| && f != [] && QuotedFrom(c + f, i) == |c|
    requires g == [] || g[0] == f[0] || IsSpace(g[0])
    ensures c[|c| - 1] == '\'' && f[0] != '\'' && QuotedFrom(c + g, i) == |c| && i < |c|
    ensures (forall j :: i <= j < |c| ==> c[j] == '\'') ==> (|c| - i) % 2 == 1
    decreases |c| - i
  {
    assert (c + f)[|c|] == f[0];
    if i < |c| && c[i] != '\'' {
      QuotedLocal(c, f, g, i + 1);
    } else if i < |c| && i + 1 < |c| && c[i + 1] == '\'' {
      QuotedLocal(c, f, g, i + 2);
    }
  }

  lemma {:induction false} CodeLocal(c: string, f: string, g: string, i: nat)
    requires i <= |c| && f != [] && CodeFrom(c + f, i) == |c|
    requires MayFollow(false, f, g)
    ensures CodeFrom(c + g, i) == |c|
    decreases |c| - i
  {
    assert (c + f)[|c|..] == f && (c + g)[|c|..] == g;
    if i < |c| {
      assert c + f != [];
      NoStopLocal(c, f, g, i);
      CodeLocal(c, f, g, i + 1);
    }
  }

  lemma {:induction false} NoStopLocal(c: string, f: string, g: string, i: nat)
    requires i < |c| && MayFollow(false, f, g) && !StopsCode((c + f)[i..])
    ensures !StopsCode((c + g)[i..])
  {
    var x, y := (c + f)[i..], (c + g)[i..];
    assert x[0] == c[i] == y[0];
    if i + 1 < |c| {
      assert x[1] == c[i + 1] == y[1];
    } else {
      assert x[1..] == f && y[1..] == g;
    }
  }

  lemma {:induction false} ContentStartLocal(c: string, f: string, g: string, quotes: nat)
    requires quotes + 2 <= |c|
    ensures ContentStart(c + f, quotes) == ContentStart(c + g, quotes)
  {
    assert forall i :: 0 <= i < |c| ==> (c + f)[i] == c[i] == (c + g)[i];
  }

  lemma {:induction false} BlockLocal(c: string, f: string, g: string)
    requires BlockLength(c + f) == |c| && f != []
    ensures BlockLength(c + g) == |c|
  {
    var five, three := ContentStart(c + f, 5), ContentStart(c + f, 3);
    if five >= 0 {
      ThroughLocal(c, f, g, Quotes(5), five);
    } else {
      ThroughLocal(c, f, g, Quotes(3), three);
    }
    ContentStartLocal(c, f, g, 5);
    ContentStartLocal(c, f, g, 3);
  }

  /** A closed literal does not turn into a multiline block when other text follows it. */
  lemma {:induction false} StaysLiteral(c: string, f: string, g: string, quotes: nat)
    requires quotes == 3 || quotes == 5
    requires f != [] && c != [] && c[0] == '\'' && ContentStart(c + f, quotes) < 0 && QuotedFrom(c + f, 1) == |c|
    requires g == [] || g[0] == f[0] || IsSpace(g[0])
    ensures ContentStart(c + g, quotes) < 0
  {
    QuotedLocal(c, f, g, 1);
    assert forall i :: 0 <= i < |c| ==> (c + f)[i] == c[i] == (c + g)[i];
    assert g != [] ==> (c + g)[|c|] == g[0];
    if (forall j :: 0 <= j < |c| ==> c[j] == '\'') && |c| == quotes {
      assert forall j :: 1 <= j < |c| ==> c[j] == '\'';
    }
  }

  /** The chunk at the head stays what it is when the text behind it is exchanged. */
  lemma {:induction false} ChunkLocal(c: string, f: string, g: string)
    requires c != [] && !IsSpace(c[0]) && ChunkLength(c + f) == |c|
    requires MayFollow(IsSpace(c[|c| - 1]), f, g)
    ensures ChunkLength(c + g) == |c| && KindOf(c + g) == KindOf(c + f)
    ensures f != [] && IsSpace(c[|c| - 1]) ==> KindOf(c + f) == LineComment && IsBreak(c[|c| - 1])
  {
    if f == [] {
      assert g == [];
    } else {
      assert (c + f)[0] == c[0] == (c + g)[0];
      if |c| >= 2 {
        assert (c + f)[1] == c[1] == (c + g)[1];
      } else {
        assert (c + f)[1..] == f && (c + g)[1..] == g;
      }
      match KindOf(c + f)
      case Block => ClosedBlock(c, f); BlockLocal(c, f, g);
      case Literal => ClosedLiteral(c, f); LiteralLocal(c, f, g);
      case LineComment => LineLocal(c, f, if g != [] && g[0] == '\n' then [] else g, 2);
      case BraceComment => ClosedBy(c, f, "}", 1); ThroughLocal(c, f, g, "}", 1);
      case StarComment => ClosedBy(c, f, "*)", 2); ThroughLocal(c, f, g, "*)", 2);
      case Code => ClosedCode(c, f); CodeKindLocal(c, f, g);
    }
  }

  lemma {:induction false} ClosedBy(c: string, f: string, pat: string, from: nat)
    requires Through(c + f, pat, from) == |c| && f != [] && pat != []
    ensures |pat| <= |c| && c[|c| - 1] == pat[|pat| - 1]
  {
    var at := Find(c + f, pat, from);
    assert (c + f)[at..at + |pat|][|pat| - 1] == (c + f)[at + |pat| - 1] == c[|c| - 1];
  }

  lemma {:induction false} ClosedBlock(c: string, f: string)
    requires f != [] && BlockLength(c + f) == |c|
    ensures c[|c| - 1] == '\''
  {
    if ContentStart(c + f, 5) >= 0 {
      ClosedBy(c, f, Quotes(5), ContentStart(c + f, 5));
    } else {
      ClosedBy(c, f, Quotes(3), ContentStart(c + f, 3));
    }
  }

  lemma {:induction false} ClosedLiteral(c: string, f: string)
    requires f != [] && |c| >= 1 && QuotedFrom(c + f, 1) == |c|
    ensures c[|c| - 1] == '\'' && f[0] != '\''
  {
    QuotedLocal(c, f, [], 1);
  }

  lemma {:induction false} LiteralLocal(c: string, f: string, g: string)
    requires f != [] && c != [] && c[0] == '\'' && BlockLength(c + f) < 0 && QuotedFrom(c + f, 1) == |c|
    requires g == [] || g[0] == f[0] || IsSpace(g[0])
    ensures BlockLength(c + g) < 0 && QuotedFrom(c + g, 1) == |c|
  {
    StaysLiteral(c, f, g, 3);
    StaysLiteral(c, f, g, 5);
    QuotedLocal(c, f, g, 1);
  }

  lemma {:induction false} ClosedCode(c: string, f: string)
    requires c != [] && !IsSpace(c[0]) && CodeFrom(c + f, 1) == |c|
    ensures !IsSpace(c[|c| - 1])
  {
    CodeHasNoSpace(c + f, 1, |c| - 1);
  }

  lemma {:induction false} CodeHasNoSpace(s: string, i: nat, k: nat)
    requires i <= |s| && k < CodeFrom(s, i)
    ensures k < i || !IsSpace(s[k])
    decreases |s| - i
  {
    if i < |s| && !StopsCode(s[i..]) {
      CodeHasNoSpace(s, i + 1, k);
    }
  }

  lemma {:induction false} CodeKindLocal(c: string, f: string, g: string)
    requires f != [] && c != [] && !IsSpace(c[0]) && KindOf(c + f) == Code && CodeFrom(c + f, 1) == |c|
    requires MayFollow(false, f, g)
    ensures KindOf(c + g) == Code && CodeFrom(c + g, 1) == |c|
  {
    assert (c + f)[0..] == c + f && (c + g)[0..] == c + g;
    NoStopLocal(c, f, g, 0);
    CodeLocal(c, f, g, 1);
  }

  // ----- compaction keeps the chunks -----

  lemma {:induction false} CollapsedShape(w: string)
    requires forall i :: 0 <= i < |w| ==> IsSpace(w[i])
    ensures Collapsed(w) != [] && Collapsed(Collapsed(w)) == Collapsed(w)
    ensures forall i :: 0 <= i < |Collapsed(w)| ==> IsSpace(Collapsed(w)[i])
    ensures HasBreak(Collapsed(w)) == HasBreak(w)
  {
    if w == [] {
      assert Collapsed(" ") == Collapsed("");
    } else if IsBreak(w[0]) {
      assert w[0] in w && w[0] in Collapsed(w);
    } else {
      CollapsedShape(w[1..]);
      assert w == [w[0]] + w[1..];
    }
  }

  /** Without a line break one space is left. */
  lemma {:induction false} CollapsedToSpace(w: string)
    requires forall i :: 0 <= i < |w| ==> w[i] != '\r' && w[i] != '\n'
    ensures Collapsed(w) == " "
  {
    if w != [] {
      CollapsedToSpace(w[1..]);
    }
  }

  /** With line breaks the first one is left, a carriage return with its line feed. */
  lemma {:induction false} CollapsedToBreak(w: string, k: nat)
    requires k < |w| && (w[k] == '\r' || w[k] == '\n')
    requires forall i :: 0 <= i < k ==> w[i] != '\r' && w[i] != '\n'
    ensures Collapsed(w) == if w[k] == '\r' && k + 1 < |w| && w[k + 1] == '\n' then "\r\n" else [w[k]]
  {
    if k > 0 {
      assert w[1..][k - 1] == w[k] && (k + 1 < |w| ==> w[1..][k] == w[k + 1]);
      CollapsedToBreak(w[1..], k - 1);
    }
  }

  /** What is left between two chunks: one space or one line break. */
  predicate IsGap(w: string) {
    w == " " || w == "\n" || w == "\r" || w == "\r\n"
  }

  lemma {:induction false} CollapsedIsGap(w: string)
    ensures IsGap(Collapsed(w))
  {
    if w != [] && !IsBreak(w[0]) {
      CollapsedIsGap(w[1..]);
    }
  }

  /** There is no white space at either end, at most a gap between two chunks, and none behind a chunk that
      ends in white space. */
  predicate IsTight(t: string, started: bool, spaced: bool)
    decreases |t|
  {
    if t == [] then true
    else if IsSpace(t[0]) then
      var n := Blank(t);
      started && !spaced && 0 < n < |t| && IsGap(t[..n]) && IsTight(t[n..], true, true)
    else
      var n := ChunkLength(t);
      IsTight(t[n..], true, IsSpace(t[n - 1]))
  }

  lemma {:induction false} BlankOf(w: string, t: string)
    requires forall i :: 0 <= i < |w| ==> IsSpace(w[i])
    requires t == [] || !IsSpace(t[0])
    ensures Blank(w + t) == |w|
  {
    if w == [] {
      assert w + t == t;
    } else {
      assert (w + t)[0] == w[0] && (w + t)[1..] == w[1..] + t;
      BlankOf(w[1..], t);
    }
  }

  /** What compaction makes of a text may follow wherever the text may. */
  lemma {:induction false} CompactedHead(f: string, spaced: bool)
    requires spaced ==> f == [] || IsSpace(f[0])
    ensures MayFollow(spaced, f, Compacted(f, true, spaced))
    decreases |f|
  {
    if f != [] && IsSpace(f[0]) {
      var n := Blank(f);
      var t := f[n..];
      CollapsedShape(f[..n]);
      if t != [] {
        NonSpaceHead(t, true);
      }
    } else if f != [] {
      NonSpaceHead(f, spaced);
      var n := ChunkLength(f);
      var g := Compacted(f[n..], true, IsSpace(f[n - 1]));
      if n >= 2 {
        assert (f[..n] + g)[1] == f[1];
      } else {
        CompactedHead(f[n..], false);
        assert f[1..] == f[n..] && (f[..n] + g)[1..] == g;
      }
    }
  }

  lemma {:induction false} NonSpaceHead(t: string, spaced: bool)
    requires t != [] && !IsSpace(t[0])
    ensures Compacted(t, true, spaced) == Compacted(t, true, false)
    ensures Compacted(t, true, spaced) != [] && Compacted(t, true, spaced)[0] == t[0]
  {
  }

  /** The head chunk of a text is the head chunk of what compaction makes of it. */
  lemma {:induction false} HeadKept(s: string, started: bool, spaced: bool)
    requires s != [] && !IsSpace(s[0])
    ensures var n := ChunkLength(s); var g := Compacted(s[n..], true, IsSpace(s[n - 1]));
            && Compacted(s, started, spaced) == s[..n] + g
            && ChunkLength(s[..n] + g) == n && KindOf(s[..n] + g) == KindOf(s)
            && (s[n..] != [] && IsSpace(s[n - 1]) ==> KindOf(s) == LineComment && IsBreak(s[n - 1]))
  {
    var n := ChunkLength(s);
    var c, f := s[..n], s[n..];
    var g := Compacted(f, true, IsSpace(s[n - 1]));
    assert c + f == s;
    if !IsSpace(s[n - 1]) || f == [] || IsSpace(f[0]) {
      CompactedHead(f, IsSpace(s[n - 1]));
    } else {
      NonSpaceHead(f, true);
    }
    ChunkLocal(c, f, g);
  }

  /** Splitting the compacted text gives the chunks of the text. */
  lemma {:induction false} Keeps(s: string, started: bool, spaced: bool, broken: bool)
    requires spaced ==> broken
    ensures Chunks(Compacted(s, started, spaced), started, broken) == Chunks(s, started, broken)
    decreases |s|
  {
    if s == [] {
    } else if IsSpace(s[0]) {
      KeepsBlank(s, started, spaced, broken);
    } else {
      var n := ChunkLength(s);
      HeadKept(s, started, spaced);
      var g := Compacted(s[n..], true, IsSpace(s[n - 1]));
      assert (s[..n] + g)[..n] == s[..n] && (s[..n] + g)[n..] == g && (s[..n] + g)[n - 1] == s[n - 1];
      Keeps(s[n..], true, IsSpace(s[n - 1]), IsSpace(s[n - 1]));
    }
  }

  lemma {:induction false} KeepsBlank(s: string, started: bool, spaced: bool, broken: bool)
    requires s != [] && IsSpace(s[0]) && (spaced ==> broken)
    ensures Chunks(Compacted(s, started, spaced), started, broken) == Chunks(s, started, broken)
    decreases |s|, 0
  {
    var n := Blank(s);
    var w, t := s[..n], s[n..];
    if t == [] {
      assert Compacted(s, started, spaced) == [];
    } else if started && !spaced {
      var g := Compacted(t, true, true);
      NonSpaceHead(t, true);
      CollapsedShape(w);
      BlankOf(Collapsed(w), g);
      var r := Collapsed(w) + g;
      assert r[..|Collapsed(w)|] == Collapsed(w) && r[|Collapsed(w)|..] == g && r[0] == Collapsed(w)[0];
      Keeps(t, true, false, broken || HasBreak(w));
    } else {
      Keeps(t, started, spaced, broken || HasBreak(w));
      SameStart(t, started, spaced, broken, HasBreak(w));
    }
  }

  lemma {:induction false} SameStart(t: string, started: bool, spaced: bool, broken: bool, more: bool)
    requires t != [] && !IsSpace(t[0]) && (!started || broken)
    ensures Chunks(t, started, broken || more) == Chunks(t, started, broken)
    ensures Chunks(Compacted(t, started, spaced), started, broken || more) == Chunks(Compacted(t, started, spaced), started, broken)
  {
    HeadKept(t, started, spaced);
  }

  lemma {:induction false} Settled(s: string, started: bool, spaced: bool)
    ensures Compacted(Compacted(s, started, spaced), started, spaced) == Compacted(s, started, spaced)
    decreases |s|
  {
    if s == [] {
    } else if IsSpace(s[0]) {
      var n := Blank(s);
      var w, t := s[..n], s[n..];
      if started && t != [] && !spaced {
        var g := Compacted(t, true, true);
        NonSpaceHead(t, true);
        CollapsedShape(w);
        BlankOf(Collapsed(w), g);
        var r := Collapsed(w) + g;
        assert r[..|Collapsed(w)|] == Collapsed(w) && r[|Collapsed(w)|..] == g && r[0] == Collapsed(w)[0];
        Settled(t, true, true);
      } else {
        Settled(t, started, spaced);
      }
    } else {
      var n := ChunkLength(s);
      HeadKept(s, started, spaced);
      var g := Compacted(s[n..], true, IsSpace(s[n - 1]));
      assert (s[..n] + g)[..n] == s[..n] && (s[..n] + g)[n..] == g && (s[..n] + g)[n - 1] == s[n - 1];
      Settled(s[n..], true, IsSpace(s[n - 1]));
    }
  }

  lemma {:induction false} GapIsTight(w: string, t: string)
    requires (forall i :: 0 <= i < |w| ==> IsSpace(w[i])) && t != [] && !IsSpace(t[0])
    requires IsTight(Compacted(t, true, true), true, true)
    ensures IsTight(Collapsed(w) + Compacted(t, true, true), true, false)
  {
    var g := Compacted(t, true, true);
    NonSpaceHead(t, true);
    CollapsedShape(w);
    CollapsedIsGap(w);
    BlankOf(Collapsed(w), g);
    var r := Collapsed(w) + g;
    assert r[..|Collapsed(w)|] == Collapsed(w) && r[|Collapsed(w)|..] == g && r[0] == Collapsed(w)[0];
  }

  lemma {:induction false} Tightens(s: string, started: bool, spaced: bool)
    ensures IsTight(Compacted(s, started, spaced), started, spaced)
    decreases |s|
  {
    if s == [] {
    } else if IsSpace(s[0]) {
      var n := Blank(s);
      var w, t := s[..n], s[n..];
      if started && t != [] && !spaced {
        Tightens(t, true, true);
        GapIsTight(w, t);
      } else {
        Tightens(t, started, spaced);
      }
    } else {
      var n := ChunkLength(s);
      HeadKept(s, started, spaced);
      var g := Compacted(s[n..], true, IsSpace(s[n - 1]));
      assert (s[..n] + g)[..n] == s[..n] && (s[..n] + g)[n..] == g && (s[..n] + g)[n - 1] == s[n - 1];
      Tightens(s[n..], true, IsSpace(s[n - 1]));
    }
  }

  /** Between two chunks of a compacted text there is at most one space or one line break. */
  lemma {:induction false} CompactIsTight(s: string)
    ensures IsTight(Compact(s), false, false)
  {
    Tightens(s, false, false);
  }

  /** Compaction keeps every lexical chunk, their order and the line breaks between them. */
  lemma {:induction false} CompactKeepsChunks(s: string)
    ensures Chunks(Compact(s), false, false) == Chunks(s, false, false)
  {
    Keeps(s, false, false, false);
  }

  lemma {:induction false} CompactIsIdempotent(s: string)
    ensures Compact(Compact(s)) == Compact(s)
  {
    Settled(s, false, false);
  }
}
