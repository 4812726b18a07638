/** The lexer object: an index with its line and column, moved token by token. */
module Lexer {
  import opened Wrappers
  import opened LexicalChunks
  import opened LexerGrammar
  import opened TextPositions

  // ----- what a token list is -----

  /** The value of the last token of `tokens` that is no comment and no directive. */
  function Previous(a: Alphabet, tokens: seq<Token>): string {
    if tokens == [] then ""
    else if tokens[|tokens| - 1].kind == Comment || tokens[|tokens| - 1].kind == Directive then Previous(a, tokens[..|tokens| - 1])
    else a.fold(tokens[|tokens| - 1].value)
  }

  /** Everything from `i` to `j` is white space. */
  ghost predicate Gap(s: string, i: nat, j: nat) {
    i <= j <= |s| && forall k :: i <= k < j ==> IsSpace(s[k])
  }

  ghost predicate Placed(s: string, t: Token) {
    t.start <= |s| && t.line == LineOf(s[..t.start]) && t.column == ColumnOf(s[..t.start])
  }

  function EndOf(tokens: seq<Token>): nat {
    if tokens == [] then 0 else tokens[|tokens| - 1].end
  }

  /** The token has the shape that the grammar finds there, and the place that the text before it has. */
  ghost predicate IsToken(a: Alphabet, s: string, before: seq<Token>, t: Token) {
    && t.start < |s| && !IsSpace(s[t.start]) && t.start < t.end <= |s|
    && ShapeAt(a, s, t.start, Previous(a, before)) == Shape(t.kind, t.end, t.value)
    && Placed(s, t)
  }

  /** The tokens tile the text up to `end`: each not empty, white space alone between them. */
  ghost predicate Tiling(a: Alphabet, s: string, tokens: seq<Token>) {
    forall i :: 0 <= i < |tokens| ==> TileAt(a, s, tokens, i)
  }

  ghost predicate TileAt(a: Alphabet, s: string, tokens: seq<Token>, i: nat)
    requires i < |tokens|
  {
    Gap(s, EndOf(tokens[..i]), tokens[i].start) && IsToken(a, s, tokens[..i], tokens[i])
  }

  lemma {:induction false} TilingPrefix(a: Alphabet, s: string, tokens: seq<Token>, n: nat)
    requires Tiling(a, s, tokens) && n <= |tokens|
    ensures Tiling(a, s, tokens[..n])
  {
    forall i | 0 <= i < n
      ensures TileAt(a, s, tokens[..n], i)
    {
      assert TileAt(a, s, tokens, i);
      assert tokens[..n][..i] == tokens[..i];
    }
  }

  /** A whole token list: a tiling, a last gap, and one end marker at the length of the text. */
  ghost predicate IsTokenList(a: Alphabet, s: string, tokens: seq<Token>) {
    && tokens != [] && tokens[|tokens| - 1] == Token(Eof, "", LineOf(s), ColumnOf(s), |s|, |s|)
    && Tiling(a, s, tokens[..|tokens| - 1])
    && Gap(s, EndOf(tokens[..|tokens| - 1]), |s|)
  }

  lemma {:induction false} TilingOrder(a: Alphabet, s: string, tokens: seq<Token>, i: nat, j: nat)
    requires Tiling(a, s, tokens) && i < j < |tokens|
    ensures tokens[i].end <= tokens[j].start
  {
    assert TileAt(a, s, tokens, j) && TileAt(a, s, tokens, j - 1);
    assert tokens[..j][j - 1] == tokens[j - 1];
    if i < j - 1 {
      TilingOrder(a, s, tokens, i, j - 1);
    }
  }

  /** Every character that is not white space lies in exactly one token. */
  lemma {:induction false} TilingCovers(a: Alphabet, s: string, tokens: seq<Token>, k: nat)
    requires IsTokenList(a, s, tokens) && k < |s| && !IsSpace(s[k])
    ensures exists i :: 0 <= i < |tokens| - 1 && tokens[i].start <= k < tokens[i].end
    ensures forall i, j :: (0 <= i < |tokens| - 1 && 0 <= j < |tokens| - 1
                            && tokens[i].start <= k < tokens[i].end && tokens[j].start <= k < tokens[j].end) ==> i == j
  {
    var body := tokens[..|tokens| - 1];
    Covered(a, s, body, k, |s|);
    forall i, j | 0 <= i < |body| && 0 <= j < |body| && tokens[i].start <= k < tokens[i].end && tokens[j].start <= k < tokens[j].end
      ensures i == j
    {
      if i < j {
        TilingOrder(a, s, body, i, j);
      } else if j < i {
        TilingOrder(a, s, body, j, i);
      }
    }
  }

  lemma {:induction false} Covered(a: Alphabet, s: string, body: seq<Token>, k: nat, end: nat)
    requires Tiling(a, s, body) && Gap(s, EndOf(body), end) && k < end && !IsSpace(s[k])
    ensures exists i :: 0 <= i < |body| && body[i].start <= k < body[i].end
  {
    assert body != [];
    var n := |body| - 1;
    assert TileAt(a, s, body, n);
    if k < body[n].start {
      TilingPrefix(a, s, body, n);
      Covered(a, s, body[..n], k, body[n].start);
    }
  }

  lemma {:induction false} TilingMore(a: Alphabet, s: string, tokens: seq<Token>, t: Token)
    requires Tiling(a, s, tokens) && Gap(s, EndOf(tokens), t.start) && IsToken(a, s, tokens, t)
    ensures Tiling(a, s, tokens + [t])
  {
    var after := tokens + [t];
    forall i | 0 <= i < |after|
      ensures TileAt(a, s, after, i)
    {
      assert after[..i] == tokens[..i];
      if i < |tokens| {
        assert TileAt(a, s, tokens, i);
      } else {
        assert tokens[..i] == tokens;
      }
    }
  }

  // ----- the newlines of a stretch -----

  function CountIn(s: string, from: nat, end: nat): nat
    requires from <= end <= |s|
  {
    Newlines(s[from..end])
  }

  /** The last newline of a stretch, or -1. */
  function LastIn(s: string, from: nat, end: nat): (r: int)
    requires from <= end <= |s|
    ensures r == -1 || (from <= r < end && s[r] == '\n')
    ensures forall k :: from <= k < end && k > r ==> s[k] != '\n'
    decreases end - from
  {
    if from == end then -1 else if s[end - 1] == '\n' then end - 1 else LastIn(s, from, end - 1)
  }

  /** Moving on over a stretch keeps line and column what they are when counted afresh. */
  lemma {:induction false} Moves(s: string, from: nat, end: nat)
    requires from <= end <= |s|
    ensures LineOf(s[..end]) == LineOf(s[..from]) + CountIn(s, from, end)
    ensures CountIn(s, from, end) > 0 ==> LastIn(s, from, end) >= 0 && ColumnOf(s[..end]) == end - LastIn(s, from, end)
    ensures CountIn(s, from, end) == 0 ==> ColumnOf(s[..end]) == ColumnOf(s[..from]) + end - from
  {
    MovesLine(s, from, end);
    if CountIn(s, from, end) == 0 {
      assert s[..end][from..] == s[from..end] && s[..end][..from] == s[..from];
      ColumnSince(s[..end], from);
    } else {
      HasLast(s, from, end);
      BehindLast(s, LastIn(s, from, end), end);
    }
  }

  lemma {:induction false} MovesLine(s: string, from: nat, end: nat)
    requires from <= end <= |s|
    ensures LineOf(s[..end]) == LineOf(s[..from]) + CountIn(s, from, end)
  {
    assert s[..end] == s[..from] + s[from..end];
    NewlinesAdd(s[..from], s[from..end]);
  }

  lemma {:induction false} HasLast(s: string, from: nat, end: nat)
    requires from <= end <= |s| && CountIn(s, from, end) > 0
    ensures LastIn(s, from, end) >= 0
  {
    if LastIn(s, from, end) < 0 {
      NoNewlines(s[from..end]);
    }
  }

  lemma {:induction false} BehindLast(s: string, last: nat, end: nat)
    requires last < end <= |s| && s[last] == '\n' && forall k :: last < k < end ==> s[k] != '\n'
    ensures ColumnOf(s[..end]) == end - last
  {
    assert s[..end][last + 1..] == s[last + 1..end];
    NoNewlines(s[last + 1..end]);
    ColumnSince(s[..end], last + 1);
    assert s[..end][..last + 1][last] == '\n';
  }

  // ----- the object -----

  class SourceLexer {
    const alphabet: Alphabet
    const source: string
    var index: nat
    var line: nat
    var column: nat
    var previousSignificant: string

    constructor (a: Alphabet, text: string)
      ensures alphabet == a && source == text && index == 0 && previousSignificant == "" && Valid()
    {
      alphabet, source := a, text;
      index, line, column := 0, 1, 1;
      previousSignificant := "";
    }

    /** Line and column are those of the index, as counted from the start of the text. */
    ghost predicate Valid()
      reads this
    {
      index <= |source| && line == LineOf(source[..index]) && column == ColumnOf(source[..index])
    }

    method AdvanceTo(end: nat)
      requires Valid() && end <= |source|
      modifies this`index, this`line, this`column
      ensures Valid() && index == if end <= old(index) then old(index) else end
    {
      if end <= index {
        return;
      }
      Moves(source, index, end);
      var newlineCount := CountIn(source, index, end);
      if newlineCount > 0 {
        line := line + newlineCount;
        column := end - LastIn(source, index, end);
      } else {
        column := column + end - index;
      }
      index := end;
    }

    /** Makes the token from the index to `end` and moves there. */
    method Emit(kind: TokenKind, end: nat, value: string) returns (t: Token)
      requires Valid() && index < end <= |source|
      modifies this`index, this`line, this`column
      ensures Valid() && index == end
      ensures t.kind == kind && t.value == value && t.start == old(index) && t.end == end && Placed(source, t)
    {
      t := Token(kind, value, line, column, index, end);
      AdvanceTo(end);
    }

    method EndOfLiteral(start: nat) returns (end: nat)
      requires start < |source|
      ensures end == QuotedEnd(source, start)
    {
      for k := 0 to 2
        invariant k >= 1 ==> !OpensBlock(source, start, 5)
        invariant k >= 2 ==> !OpensBlock(source, start, 3)
      {
        var count := if k == 0 then 5 else 3;
        if OpensBlock(source, start, count) {
          var close := Find(source, Quotes(count), start + count);
          return if close < 0 then |source| else close + count;
        }
      }
      end := start + 1;
      while end < |source|
        invariant start < end <= |source| && LineLiteralEnd(source, start + 1) == LineLiteralEnd(source, end)
      {
        if IsBreak(source[end]) {
          return end;
        }
        if source[end] != '\'' {
          end := end + 1;
          continue;
        }
        if end + 1 < |source| && source[end + 1] == '\'' {
          end := end + 2;
          continue;
        }
        return end + 1;
      }
    }

    method EndOfNumber(start: nat) returns (end: nat)
      requires start <= |source|
      ensures end == NumberEnd(alphabet, source, start) && IsLongestNumber(alphabet, source, start, end)
    {
      end := RunTo(source, start, alphabet.digit);
      end := EndOfFraction(end);
      end := EndOfExponent(end);
      NumberEndIsLongest(alphabet, source, start);
    }

    method EndOfFraction(i: nat) returns (end: nat)
      requires i <= |source|
      ensures end == FractionEnd(alphabet, source, i)
    {
      end := i;
      if CharAt(source, end, '.') && !PairAt(source, end, '.', '.') {
        end := RunTo(source, end + 1, alphabet.digit);
      }
    }

    method EndOfExponent(i: nat) returns (end: nat)
      requires i <= |source|
      ensures end == ExponentEnd(alphabet, source, i)
    {
      end := i;
      if CharAt(source, end, 'e') || CharAt(source, end, 'E') {
        var exponent := end + 1;
        if CharAt(source, exponent, '+') || CharAt(source, exponent, '-') {
          exponent := exponent + 1;
        }
        var digitStart := exponent;
        exponent := RunTo(source, exponent, alphabet.digit);
        if exponent > digitStart {
          end := exponent;
        }
      }
    }

    method EndOfLargeInitializer(start: nat) returns (r: Option<nat>)
      requires start < |source|
      ensures r == LargeInitializerEnd(source, start)
    {
      var stack: seq<char> := [')'];
      var i: nat := start + 1;
      while i < |source|
        invariant i > start
        invariant stack != [] && BracketEnd(source, start + 1, [')']) == BracketEnd(source, i, stack)
        decreases |source| - i
      {
        if source[i] == '\'' {
          i := EndOfLiteral(i);
          continue;
        }
        if PairAt(source, i, '/', '/') {
          i := UpTo(source, "\n", i + 2, 1);
          continue;
        }
        if source[i] == '{' {
          i := UpTo(source, "}", i + 1, 1);
          continue;
        }
        if PairAt(source, i, '(', '*') {
          i := UpTo(source, "*)", i + 2, 2);
          continue;
        }
        if source[i] == '(' {
          stack := stack + [')'];
        } else if source[i] == '[' {
          stack := stack + [']'];
        } else if source[i] == stack[|stack| - 1] {
          if |stack| == 1 {
            return if i + 1 - start >= LARGE then Some(i + 1) else None;
          }
          stack := stack[..|stack| - 1];
        }
        i := i + 1;
      }
      r := None;
    }

    /** The token at the index is the one that the grammar has there. */
    method NextToken() returns (t: Token)
      requires Valid() && index < |source|
      modifies this`index, this`line, this`column
      ensures Valid() && t.start == old(index) && t.end == index && Placed(source, t)
      ensures ShapeAt(alphabet, source, t.start, previousSignificant) == Shape(t.kind, t.end, t.value)
    {
      var start := index;
      var c := source[start];
      if PairAt(source, start, '/', '/') {
        var end := UpTo(source, "\n", start + 2, 0);
        t := Emit(Comment, end, source[start..end]);
      } else if c == '{' {
        var end := UpTo(source, "}", start + 1, 1);
        var kind := if CharAt(source, start + 1, '$') then Directive else Comment;
        t := Emit(kind, end, source[start..end]);
      } else if PairAt(source, start, '(', '*') {
        var end := UpTo(source, "*)", start + 2, 2);
        var kind := if CharAt(source, start + 2, '$') then Directive else Comment;
        t := Emit(kind, end, source[start..end]);
      } else if c == '\'' {
        var end := EndOfLiteral(start);
        t := Emit(StringToken, end, source[start..end]);
      } else {
        var initializer: Option<nat> := None;
        if c == '(' && previousSignificant == "=" {
          initializer := EndOfLargeInitializer(start);
        }
        if initializer.Some? {
          t := Emit(Unknown, initializer.value, "<large-initializer>");
        } else {
          t := PlainToken();
        }
      }
    }

    method PlainToken() returns (t: Token)
      requires Valid() && index < |source|
      modifies this`index, this`line, this`column
      ensures Valid() && t.start == old(index) && t.end == index && Placed(source, t)
      ensures PlainShape(alphabet, source, t.start) == Shape(t.kind, t.end, t.value)
    {
      var kind, from, end := PlainParts(index);
      t := Emit(kind, end, source[from..end]);
    }

    /** The kind of a plain token, its end, and where its value starts. */
    method PlainParts(start: nat) returns (kind: TokenKind, from: nat, end: nat)
      requires start < |source|
      ensures start <= from <= end <= |source|
      ensures PlainShape(alphabet, source, start) == Shape(kind, end, source[from..end])
    {
      var c := source[start];
      kind, from, end := Unknown, start, start + 1;
      if c == '#' {
        kind := CharCode;
        if CharAt(source, start + 1, '$') {
          end := RunTo(source, start + 2, IsHex);
        } else {
          end := RunTo(source, start + 1, alphabet.digit);
        }
      } else if c == '$' {
        kind := NumberToken;
        end := RunTo(source, start + 1, IsHex);
      } else if c == '%' && ClassAt(source, start + 1, IsBinary) {
        kind := NumberToken;
        end := RunTo(source, start + 1, IsBinary);
      } else if c == '&' && ClassAt(source, start + 1, alphabet.digit) {
        kind := NumberToken;
        end := RunTo(source, start + 1, IsOctal);
      } else if c == '&' && start + 1 < |source| && StartsName(alphabet, source[start + 1]) {
        kind, from := Identifier, start + 1;
        end := RunTo(source, start + 2, NamePart(alphabet));
      } else if StartsName(alphabet, c) {
        end := RunTo(source, start + 1, NamePart(alphabet));
        kind := if alphabet.keyword(alphabet.fold(source[start..end])) then Keyword else Identifier;
      } else if alphabet.digit(c) {
        kind := NumberToken;
        end := EndOfNumber(start);
      } else if start + 1 < |source| && IsCompound(c, source[start + 1]) {
        kind, end := Symbol, start + 2;
      } else if IsSymbol(c) {
        kind := Symbol;
      }
    }

    /** All tokens of the text. */
    method Tokenize() returns (tokens: seq<Token>)
      requires Valid() && index == 0 && previousSignificant == ""
      modifies this
      ensures Valid() && index == |source|
      ensures IsTokenList(alphabet, source, tokens)
    {
      tokens := [];
      while index < |source|
        invariant Valid() && Tiling(alphabet, source, tokens) && Gap(source, EndOf(tokens), index)
        invariant previousSignificant == Previous(alphabet, tokens)
        decreases |source| - index
      {
        if IsSpace(source[index]) {
          var end := RunTo(source, index + 1, IsSpace);
          AdvanceTo(end);
          continue;
        }
        var token := NextToken();
        TilingMore(alphabet, source, tokens, token);
        assert (tokens + [token])[..|tokens|] == tokens;
        tokens := tokens + [token];
        if token.kind != Comment && token.kind != Directive {
          previousSignificant := alphabet.fold(token.value);
        }
      }
      assert source[..index] == source;
      var eof := Token(Eof, "", line, column, index, index);
      assert (tokens + [eof])[..|tokens|] == tokens;
      tokens := tokens + [eof];
    }
  }
}
