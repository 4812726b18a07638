/** What a token is, told from the characters alone: where comments, literals, names, numbers of other
    bases and symbols end, and where a bracketed initializer does. */
module LexerShapes {
  import opened Wrappers
  import opened LexicalChunks
  import opened LexerGrammar

  // ----- comments -----

  /** A comment of two slashes stops before the first line feed. */
  lemma {:induction false} LineCommentToken(a: Alphabet, s: string, i: nat, previous: string)
    requires StandsAt(s, "//", i)
    ensures var t := ShapeAt(a, s, i, previous);
            && t.kind == Comment && t.value == s[i..t.end]
            && (forall k :: i + 2 <= k < t.end ==> !StandsAt(s, "\n", k)) && (t.end < |s| ==> StandsAt(s, "\n", t.end))
  {
    assert s[i..i + 2] == [s[i], s[i + 1]];
    FindIsFirst(s, "\n", i + 2);
  }

  /** A comment in braces ends with the first closing brace; a dollar makes it a directive. */
  lemma {:induction false} BraceCommentToken(a: Alphabet, s: string, i: nat, previous: string)
    requires i < |s| && s[i] == '{'
    ensures var t := ShapeAt(a, s, i, previous);
            && t.kind == (if i + 1 < |s| && s[i + 1] == '$' then Directive else Comment)
            && t.value == s[i..t.end] && EndsWithFirst(s, t.end, "}", i + 1)
  {
    FindIsFirst(s, "}", i + 1);
  }

  /** The same for a comment in brackets and stars. */
  lemma {:induction false} StarCommentToken(a: Alphabet, s: string, i: nat, previous: string)
    requires StandsAt(s, "(*", i)
    ensures var t := ShapeAt(a, s, i, previous);
            && t.kind == (if i + 2 < |s| && s[i + 2] == '$' then Directive else Comment)
            && t.value == s[i..t.end] && EndsWithFirst(s, t.end, "*)", i + 2)
  {
    assert s[i..i + 2] == [s[i], s[i + 1]];
    FindIsFirst(s, "*)", i + 2);
  }

  // ----- literals -----

  /** A literal on one line: its quotes are doubled up to one that is not, or it stops before a line break. */
  ghost predicate IsLineLiteral(s: string, i: nat, end: nat) {
    && i <= end <= |s| && (forall k :: i <= k < end ==> s[k] != '\r' && s[k] != '\n')
    && (|| (i < end && s[end - 1] == '\'' && IsPaired(s[i..end - 1]) && (end < |s| ==> s[end] != '\''))
        || (IsPaired(s[i..end]) && (end < |s| ==> s[end] == '\r' || s[end] == '\n')))
  }

  lemma {:induction false} LineLiteralHolds(s: string, i: nat)
    requires i <= |s|
    ensures IsLineLiteral(s, i, LineLiteralEnd(s, i))
    decreases |s| - i
  {
    var end := LineLiteralEnd(s, i);
    if i < |s| && !IsBreak(s[i]) {
      if s[i] != '\'' {
        LineLiteralHolds(s, i + 1);
        assert s[i..end][1..] == s[i + 1..end] && (i + 1 < end ==> s[i..end - 1][1..] == s[i + 1..end - 1]);
      } else if CharAt(s, i + 1, '\'') {
        LineLiteralHolds(s, i + 2);
        assert s[i..end][2..] == s[i + 2..end] && (i + 2 < end ==> s[i..end - 1][2..] == s[i + 2..end - 1]);
      } else {
        assert s[i..end - 1] == [];
      }
    }
  }

  /** So many quotes and a line break. */
  predicate QuotesAt(s: string, i: nat, n: nat) {
    i + n < |s| && (forall k :: i <= k < i + n ==> s[k] == '\'') && (s[i + n] == '\r' || s[i + n] == '\n')
  }

  lemma {:induction false} BlockIsQuotes(s: string, i: nat, n: nat)
    ensures OpensBlock(s, i, n) <==> QuotesAt(s, i, n)
  {
    if i + n < |s| {
      assert forall k :: i <= k < i + n ==> s[k] == s[i..i + n][k - i];
      assert QuotesAt(s, i, n) ==> s[i..i + n] == Quotes(n);
    }
  }

  /** A literal is a block of five or of three quotes, up to the next such quotes, or stands on one line. */
  lemma {:induction false} LiteralToken(a: Alphabet, s: string, i: nat, previous: string)
    requires i < |s| && s[i] == '\''
    ensures var t := ShapeAt(a, s, i, previous); t.kind == StringToken && t.value == s[i..t.end] && IsLiteralTo(s, i, t.end)
  {
    LiteralHolds(s, i);
  }

  ghost predicate IsLiteralTo(s: string, i: nat, end: nat) {
    if QuotesAt(s, i, 5) then EndsWithFirst(s, end, "'''''", i + 5)
    else if QuotesAt(s, i, 3) then EndsWithFirst(s, end, "'''", i + 3)
    else IsLineLiteral(s, i + 1, end)
  }

  lemma {:induction false} LiteralHolds(s: string, i: nat)
    requires i < |s|
    ensures IsLiteralTo(s, i, QuotedEnd(s, i))
  {
    BlockIsQuotes(s, i, 5);
    BlockIsQuotes(s, i, 3);
    if QuotesAt(s, i, 5) {
      QuotesAre();
      FindIsFirst(s, "'''''", i + 5);
    } else if QuotesAt(s, i, 3) {
      QuotesAre();
      FindIsFirst(s, "'''", i + 3);
    } else {
      LineLiteralHolds(s, i + 1);
    }
  }

  // ----- names, numbers and symbols -----

  /** All characters of a class from `i` to `j`, and no more of them there. */
  ghost predicate IsRun(s: string, i: nat, j: nat, p: char -> bool) {
    i <= j <= |s| && (forall k :: i <= k < j ==> p(s[k])) && (j < |s| ==> !p(s[j]))
  }

  /** The characters that start other tokens than names, decimal numbers and symbols. */
  predicate IsLead(c: char) {
    c == '/' || c == '{' || c == '(' || c == '\'' || c == '#' || c == '$' || c == '%' || c == '&'
  }

  /** A name is the longest run of name characters; its folding tells whether it is a keyword. */
  lemma {:induction false} NameToken(a: Alphabet, s: string, i: nat, previous: string)
    requires i < |s| && (s[i] == '_' || a.letter(s[i])) && !IsLead(s[i])
    ensures var t := ShapeAt(a, s, i, previous);
            && t.value == s[i..t.end] && IsRun(s, i + 1, t.end, c => c == '_' || a.letterOrDigit(c))
            && t.kind == (if a.keyword(a.fold(s[i..t.end])) then Keyword else Identifier)
  {
  }

  /** Behind an ampersand a name is an identifier, and the ampersand is no part of its value. */
  lemma {:induction false} EscapedNameToken(a: Alphabet, s: string, i: nat, previous: string)
    requires i + 1 < |s| && s[i] == '&' && (s[i + 1] == '_' || a.letter(s[i + 1])) && !a.digit(s[i + 1])
    ensures var t := ShapeAt(a, s, i, previous);
            t.kind == Identifier && i + 1 < t.end && t.value == s[i + 1..t.end] && IsRun(s, i + 2, t.end, c => c == '_' || a.letterOrDigit(c))
  {
  }

  /** Character codes and hexadecimal, binary and octal numbers go as far as their digits do. */
  lemma {:induction false} RadixToken(a: Alphabet, s: string, i: nat, previous: string)
    requires i < |s|
    ensures var t := ShapeAt(a, s, i, previous);
            && (s[i] == '#' && CharAt(s, i + 1, '$') ==>
                  t.kind == CharCode && i + 1 < t.end && IsRun(s, i + 2, t.end, c => '0' <= c <= '9' || 'a' <= c <= 'f' || 'A' <= c <= 'F'))
            && (s[i] == '#' && !CharAt(s, i + 1, '$') ==> t.kind == CharCode && IsRun(s, i + 1, t.end, a.digit))
            && (s[i] == '$' ==> t.kind == NumberToken && IsRun(s, i + 1, t.end, c => '0' <= c <= '9' || 'a' <= c <= 'f' || 'A' <= c <= 'F'))
            && (s[i] == '%' && (CharAt(s, i + 1, '0') || CharAt(s, i + 1, '1')) ==>
                  t.kind == NumberToken && IsRun(s, i + 1, t.end, c => c == '0' || c == '1'))
            && (s[i] == '&' && i + 1 < |s| && a.digit(s[i + 1]) ==> t.kind == NumberToken && IsRun(s, i + 1, t.end, c => '0' <= c <= '7'))
  {
  }

  /** Two characters that make one symbol. */
  predicate IsPair(s: string, i: nat) {
    i + 1 < |s| && [s[i], s[i + 1]] in {":=", "<=", ">=", "<>", "..", "**", "+=", "-=", "*=", "/=", "><", "=>"}
  }

  /** Behind all other tokens: the pairs, the single symbols, and a character that is no token of its own. */
  lemma {:induction false} SymbolToken(a: Alphabet, s: string, i: nat)
    requires i < |s| && s[i] != '_' && !a.letter(s[i]) && !a.digit(s[i]) && s[i] != '#' && s[i] != '$' && s[i] != '%' && s[i] != '&'
    ensures var t := PlainShape(a, s, i);
            && t.value == s[i..t.end]
            && t.end == (if IsPair(s, i) then i + 2 else i + 1)
            && t.kind == (if IsPair(s, i) || s[i] in ";,:.=+-*/()[]^@<>" then Symbol else Unknown)
  {
    if i + 1 < |s| {
      PairIsCompound(s[i], s[i + 1]);
    }
  }

  lemma {:induction false} PairIsCompound(c: char, d: char)
    ensures IsCompound(c, d) <==> [c, d] in {":=", "<=", ">=", "<>", "..", "**", "+=", "-=", "*=", "/=", "><", "=>"}
  {
    assert forall x: char, y: char :: [c, d] == [x, y] <==> [c, d][0] == x && [c, d][1] == y;
  }

  // ----- bracketed initializers -----

  /** Where a literal or a comment that starts at `i` ends. */
  function Skips(s: string, i: nat): (r: Option<nat>)
    requires i < |s|
    ensures r.Some? ==> i < r.value <= |s|
  {
    if s[i] == '\'' then Some(QuotedEnd(s, i))
    else if PairAt(s, i, '/', '/') then Some(UpTo(s, "\n", i + 2, 1))
    else if s[i] == '{' then Some(UpTo(s, "}", i + 1, 1))
    else if PairAt(s, i, '(', '*') then Some(UpTo(s, "*)", i + 2, 2))
    else None
  }

  function Closer(c: char): char {
    if c == '(' then ')' else ']'
  }

  /** From `i` up to `j` there are only literals, comments, whole brackets, and characters that neither open a
      bracket nor close the one they stand in. */
  ghost predicate IsInside(s: string, i: nat, j: nat, close: char)
    requires j <= |s|
    decreases j - i
  {
    || i == j
    || (i < j && match Skips(s, i)
                 case Some(k) => k <= j && IsInside(s, k, j, close)
                 case None => if s[i] == '(' || s[i] == '[' then exists m: nat :: IsBracketed(s, i, m, j, close)
                              else s[i] != close && IsInside(s, i + 1, j, close))
  }

  /** The bracket at `i` closes at `m`. */
  ghost predicate IsBracketed(s: string, i: nat, m: nat, j: nat, close: char)
    requires i < j <= |s|
    decreases j - i, 0
  {
    i < m < j && s[m] == Closer(s[i]) && IsInside(s, i + 1, m, Closer(s[i])) && IsInside(s, m + 1, j, close)
  }

  /** The stack is the same behind such a stretch. */
  lemma {:induction false} InsideKeepsStack(s: string, i: nat, j: nat, stack: seq<char>, close: char)
    requires j <= |s| && IsInside(s, i, j, close) && stack != [] && close == stack[|stack| - 1] && (close == ')' || close == ']')
    ensures BracketEnd(s, i, stack) == BracketEnd(s, j, stack)
    decreases j - i
  {
    if i < j {
      if Skips(s, i).Some? {
        InsideKeepsStack(s, Skips(s, i).value, j, stack, close);
      } else if s[i] == '(' || s[i] == '[' {
        var m: nat :| IsBracketed(s, i, m, j, close);
        BracketKeepsStack(s, i, m, stack);
        InsideKeepsStack(s, m + 1, j, stack, close);
      } else {
        InsideKeepsStack(s, i + 1, j, stack, close);
      }
    }
  }

  lemma {:induction false} BracketKeepsStack(s: string, i: nat, m: nat, stack: seq<char>)
    requires i < m < |s| && Skips(s, i).None? && (s[i] == '(' || s[i] == '[') && stack != []
    requires s[m] == Closer(s[i]) && IsInside(s, i + 1, m, Closer(s[i]))
    ensures BracketEnd(s, i, stack) == BracketEnd(s, m + 1, stack)
    decreases m - i
  {
    var c := Closer(s[i]);
    var inner := stack + [c];
    InsideKeepsStack(s, i + 1, m, inner, c);
    assert inner[|inner| - 1] == c && inner[..|inner| - 1] == stack;
  }

  /** What is left when the last bracket is closed before `next`. */
  function Popped(s: string, next: nat, stack: seq<char>): Option<nat>
    requires stack != []
  {
    if |stack| == 1 then Some(next) else BracketEnd(s, next, stack[..|stack| - 1])
  }

  lemma {:induction false} BracketStep(s: string, i: nat, next: nat, stack: seq<char>, close: char)
    requires i < |s| && next == i + 1 && stack != [] && close == stack[|stack| - 1] && (close == ')' || close == ']')
    ensures Skips(s, i).Some? ==> BracketEnd(s, i, stack) == BracketEnd(s, Skips(s, i).value, stack)
    ensures Skips(s, i).None? && s[i] == close ==> BracketEnd(s, i, stack) == Popped(s, next, stack)
    ensures Skips(s, i).None? && s[i] != close && s[i] != '(' && s[i] != '[' ==> BracketEnd(s, i, stack) == BracketEnd(s, next, stack)
  {
  }

  lemma {:induction false} InsideStep(s: string, i: nat, next: nat, f: nat, close: char)
    requires i < next <= f <= |s| && IsInside(s, next, f, close)
    requires Skips(s, i) == Some(next) || (Skips(s, i).None? && next == i + 1 && s[i] != '(' && s[i] != '[' && s[i] != close)
    ensures IsInside(s, i, f, close)
  {
  }

  /** The stack finds the bracket that closes its last one, and goes on behind it. */
  lemma {:induction false} CloserIsFound(s: string, i: nat, stack: seq<char>, close: char) returns (f: nat)
    requires BracketEnd(s, i, stack).Some? && stack != [] && close == stack[|stack| - 1] && (close == ')' || close == ']')
    ensures i <= f < |s| && s[f] == close && IsInside(s, i, f, close)
    ensures BracketEnd(s, i, stack) == Popped(s, f + 1, stack)
    decreases |s| - i, 2
  {
    f := i;
    var next := i + 1;
    BracketStep(s, i, next, stack, close);
    var skip := Skips(s, i);
    if skip.Some? {
      var k := skip.value;
      f := CloserIsFound(s, k, stack, close);
      InsideStep(s, i, k, f, close);
    } else if s[i] == '(' || s[i] == '[' {
      f := CloserBehind(s, i, next, stack, close);
    } else if s[i] != close {
      f := CloserIsFound(s, next, stack, close);
      InsideStep(s, i, next, f, close);
    }
  }

  lemma {:induction false} CloserBehind(s: string, i: nat, next: nat, stack: seq<char>, close: char) returns (f: nat)
    requires i < |s| && next == i + 1 && Skips(s, i).None? && (s[i] == '(' || s[i] == '[')
    requires BracketEnd(s, i, stack).Some? && stack != [] && close == stack[|stack| - 1] && (close == ')' || close == ']')
    ensures i <= f < |s| && s[f] == close && IsInside(s, i, f, close)
    ensures BracketEnd(s, i, stack) == Popped(s, f + 1, stack)
    decreases |s| - i, 1
  {
    var m := BracketIsFound(s, i, next, stack);
    var behind := m + 1;
    f := CloserIsFound(s, behind, stack, close);
    InsideGrows(s, i, next, m, behind, f, close);
  }

  lemma {:induction false} BracketIsFound(s: string, i: nat, next: nat, stack: seq<char>) returns (m: nat)
    requires i < |s| && next == i + 1 && Skips(s, i).None? && (s[i] == '(' || s[i] == '[') && stack != [] && BracketEnd(s, i, stack).Some?
    ensures i < m < |s| && s[m] == Closer(s[i]) && IsInside(s, next, m, Closer(s[i]))
    ensures BracketEnd(s, i, stack) == BracketEnd(s, m + 1, stack)
    decreases |s| - i, 0
  {
    var c := Closer(s[i]);
    var inner := stack + [c];
    assert inner[|inner| - 1] == c && inner[..|inner| - 1] == stack;
    assert BracketEnd(s, i, stack) == BracketEnd(s, next, inner);
    m := CloserIsFound(s, next, inner, c);
  }

  lemma {:induction false} InsideGrows(s: string, i: nat, next: nat, m: nat, behind: nat, f: nat, close: char)
    requires i < m < f <= |s|
    requires next == i + 1 && behind == m + 1 <= f && Skips(s, i).None? && (s[i] == '(' || s[i] == '[')
    requires s[m] == Closer(s[i]) && IsInside(s, next, m, Closer(s[i])) && IsInside(s, behind, f, close)
    ensures IsInside(s, i, f, close)
  {
    assert IsBracketed(s, i, m, f, close);
  }

  /** An initializer of 64 Ki characters or more ends behind the bracket that closes its first one; brackets in
      literals and comments do not count. */
  lemma {:induction false} InitializerEnds(s: string, start: nat, end: nat)
    requires start < |s|
    ensures LargeInitializerEnd(s, start) == Some(end) <==>
              start + 1 < end <= |s| && end - start >= 65536 && s[end - 1] == ')' && IsInside(s, start + 1, end - 1, ')')
  {
    if LargeInitializerEnd(s, start) == Some(end) {
      var f := CloserIsFound(s, start + 1, [')'], ')');
    }
    if start + 1 < end <= |s| && s[end - 1] == ')' && IsInside(s, start + 1, end - 1, ')') {
      InsideKeepsStack(s, start + 1, end - 1, [')'], ')');
      assert BracketEnd(s, end - 1, [')']) == Some(end);
    }
  }
}
