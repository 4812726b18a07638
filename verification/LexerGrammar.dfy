/** What the lexer's token at a place is: its kind, its end and its value. */
module LexerGrammar {
  import opened Wrappers
  import opened LexicalChunks

  datatype TokenKind = Comment | Directive | StringToken | Unknown | CharCode | NumberToken | Identifier | Keyword | Symbol | Eof

  datatype Token = Token(kind: TokenKind, value: string, line: nat, column: nat, start: nat, end: nat)

  /** The character classes and the case folding of the host, and the keywords. */
  datatype Alphabet = Alphabet(
    letter: char -> bool, digit: char -> bool, letterOrDigit: char -> bool, keyword: string -> bool, fold: string -> string)

  /** The words that open a structured type. */
  predicate IsStructured(word: string) {
    word == "class" || word == "record" || word == "object" || word == "interface" || word == "dispinterface"
  }

  predicate StartsName(a: Alphabet, c: char) {
    c == '_' || a.letter(c)
  }

  /** The class of the characters within a name. */
  function NamePart(a: Alphabet): char -> bool {
    c => c == '_' || a.letterOrDigit(c)
  }

  predicate IsHex(c: char) {
    '0' <= c <= '9' || 'a' <= c <= 'f' || 'A' <= c <= 'F'
  }

  predicate IsBinary(c: char) {
    c == '0' || c == '1'
  }

  predicate IsOctal(c: char) {
    '0' <= c <= '7'
  }

  /** The end of the run of characters of a class from `i`. */
  function RunEnd(s: string, i: nat, p: char -> bool): (r: nat)
    requires i <= |s|
    ensures i <= r <= |s|
    ensures forall k :: i <= k < r ==> p(s[k])
    ensures r < |s| ==> !p(s[r])
    decreases |s| - i
  {
    if i < |s| && p(s[i]) then RunEnd(s, i + 1, p) else i
  }

  method RunTo(s: string, from: nat, p: char -> bool) returns (end: nat)
    requires from <= |s|
    ensures end == RunEnd(s, from, p)
  {
    end := from;
    while end < |s| && p(s[end])
      invariant from <= end <= |s| && RunEnd(s, from, p) == RunEnd(s, end, p)
    {
      end := end + 1;
    }
  }

  predicate CharAt(s: string, i: nat, c: char) {
    i < |s| && s[i] == c
  }

  predicate PairAt(s: string, i: nat, c: char, d: char) {
    CharAt(s, i, c) && CharAt(s, i + 1, d)
  }

  predicate ClassAt(s: string, i: nat, p: char -> bool) {
    i < |s| && p(s[i])
  }

  /** The place of the first `pat`, or the end of the text; `past` places on when it is found. */
  function UpTo(s: string, pat: string, from: nat, past: nat): nat {
    var at := Find(s, pat, from);
    if at < 0 then |s| else at + past
  }

  // ----- literals -----

  /** A block of `n` quotes opens at `i`: the quotes and then a line break. */
  predicate OpensBlock(s: string, i: nat, n: nat) {
    i + n < |s| && s[i..i + n] == Quotes(n) && IsBreak(s[i + n])
  }

  /** A literal on one line, from behind its opening quote. */
  function LineLiteralEnd(s: string, i: nat): (r: nat)
    requires i <= |s|
    ensures i <= r <= |s|
    decreases |s| - i
  {
    if i == |s| || IsBreak(s[i]) then i
    else if s[i] != '\'' then LineLiteralEnd(s, i + 1)
    else if CharAt(s, i + 1, '\'') then LineLiteralEnd(s, i + 2)
    else i + 1
  }

  function QuotedEnd(s: string, start: nat): (r: nat)
    requires start < |s|
    ensures start < r <= |s|
  {
    if OpensBlock(s, start, 5) then UpTo(s, Quotes(5), start + 5, 5)
    else if OpensBlock(s, start, 3) then UpTo(s, Quotes(3), start + 3, 3)
    else LineLiteralEnd(s, start + 1)
  }

  /** A fraction, unless the dot is the first of a range. */
  function FractionEnd(a: Alphabet, s: string, i: nat): (r: nat)
    requires i <= |s|
    ensures i <= r <= |s|
  {
    if CharAt(s, i, '.') && !PairAt(s, i, '.', '.') then RunEnd(s, i + 1, a.digit) else i
  }

  /** Behind the sign of an exponent, if it has one. */
  function ExponentDigits(s: string, i: nat): (r: nat)
    requires i < |s|
    ensures i < r <= |s|
  {
    if CharAt(s, i + 1, '+') || CharAt(s, i + 1, '-') then i + 2 else i + 1
  }

  /** An exponent, if it has digits. */
  function ExponentEnd(a: Alphabet, s: string, i: nat): (r: nat)
    requires i <= |s|
    ensures i <= r <= |s|
  {
    if CharAt(s, i, 'e') || CharAt(s, i, 'E') then
      var digits := ExponentDigits(s, i);
      var end := RunEnd(s, digits, a.digit);
      if end > digits then end else i
    else i
  }

  /** Digits, a fraction and an exponent. */
  function NumberEnd(a: Alphabet, s: string, start: nat): (r: nat)
    requires start <= |s|
    ensures start <= r <= |s|
    ensures start < |s| && a.digit(s[start]) ==> start < r
  {
    ExponentEnd(a, s, FractionEnd(a, s, RunEnd(s, start, a.digit)))
  }

  // ----- what a number is -----

  ghost predicate AllDigits(a: Alphabet, s: string, i: nat, j: nat) {
    forall k :: i <= k < j ==> ClassAt(s, k, a.digit)
  }

  /** An `e` with digits behind it, with or without a sign. */
  ghost predicate IsExponent(a: Alphabet, s: string, i: nat, end: nat) {
    && (CharAt(s, i, 'e') || CharAt(s, i, 'E'))
    && (|| (i + 1 < end && AllDigits(a, s, i + 1, end))
        || ((CharAt(s, i + 1, '+') || CharAt(s, i + 1, '-')) && i + 2 < end && AllDigits(a, s, i + 2, end)))
  }

  /** Digits, then a fraction or none, then an exponent or none; the dot of a fraction is not
      the first of two. */
  ghost predicate NumberParts(a: Alphabet, s: string, start: nat, whole: nat, fraction: nat, end: nat) {
    && start <= whole <= fraction <= end <= |s|
    && AllDigits(a, s, start, whole)
    && (fraction > whole ==> CharAt(s, whole, '.') && !CharAt(s, whole + 1, '.') && AllDigits(a, s, whole + 1, fraction))
    && (end > fraction ==> IsExponent(a, s, fraction, end))
  }

  ghost predicate IsNumber(a: Alphabet, s: string, start: nat, end: nat) {
    exists whole: nat, fraction: nat :: NumberParts(a, s, start, whole, fraction, end)
  }

  /** The characters that punctuate a number are no digits. */
  predicate PlainDigits(a: Alphabet) {
    !a.digit('.') && !a.digit('e') && !a.digit('E') && !a.digit('+') && !a.digit('-')
  }

  /** A number that is the longest from `start`. */
  ghost predicate IsLongestNumber(a: Alphabet, s: string, start: nat, end: nat) {
    && IsNumber(a, s, start, end)
    && (PlainDigits(a) ==> forall other: nat :: IsNumber(a, s, start, other) ==> other <= end)
  }

  lemma {:induction false} RunCovers(a: Alphabet, s: string, i: nat, j: nat)
    requires i <= j <= |s| && AllDigits(a, s, i, j)
    ensures j <= RunEnd(s, i, a.digit)
  {
    var end := RunEnd(s, i, a.digit);
    assert end < j ==> ClassAt(s, end, a.digit);
  }

  lemma {:induction false} NoLongerNumber(a: Alphabet, s: string, start: nat, whole: nat, fraction: nat, end: nat)
    requires start <= |s| && PlainDigits(a) && NumberParts(a, s, start, whole, fraction, end)
    ensures end <= NumberEnd(a, s, start)
  {
    var run := RunEnd(s, start, a.digit);
    RunCovers(a, s, start, whole);
    if end > whole {
      assert whole == run;
      NoLongerFraction(a, s, whole, fraction, end);
    }
  }

  lemma {:induction false} NoLongerFraction(a: Alphabet, s: string, whole: nat, fraction: nat, end: nat)
    requires whole <= |s| && PlainDigits(a) && NumberParts(a, s, whole, whole, fraction, end)
    ensures end <= ExponentEnd(a, s, FractionEnd(a, s, whole))
  {
    if fraction > whole {
      RunCovers(a, s, whole + 1, fraction);
    }
    if end > fraction {
      assert fraction == FractionEnd(a, s, whole);
      NoLongerExponent(a, s, fraction, end);
    }
  }

  lemma {:induction false} NoLongerExponent(a: Alphabet, s: string, i: nat, end: nat)
    requires PlainDigits(a) && i < end <= |s| && IsExponent(a, s, i, end)
    ensures end <= ExponentEnd(a, s, i)
  {
    var plain, signed := i + 1, i + 2;
    if plain < end && AllDigits(a, s, plain, end) {
      assert ClassAt(s, plain, a.digit);
      RunCovers(a, s, plain, end);
    } else {
      RunCovers(a, s, signed, end);
    }
  }

  /** What is taken for a number is one, and none that starts there is longer. */
  lemma {:induction false} NumberEndIsLongest(a: Alphabet, s: string, start: nat)
    requires start <= |s|
    ensures IsLongestNumber(a, s, start, NumberEnd(a, s, start))
  {
    var whole := RunEnd(s, start, a.digit);
    assert NumberParts(a, s, start, whole, FractionEnd(a, s, whole), NumberEnd(a, s, start));
    if PlainDigits(a) {
      forall other: nat | IsNumber(a, s, start, other)
        ensures other <= NumberEnd(a, s, start)
      {
        var w, f :| NumberParts(a, s, start, w, f, other);
        NoLongerNumber(a, s, start, w, f, other);
      }
    }
  }

  /** Behind the bracket that closes the last of `stack`, over literals and comments. */
  function BracketEnd(s: string, i: nat, stack: seq<char>): (r: Option<nat>)
    ensures r.Some? ==> i < r.value <= |s|
    decreases |s| - i
  {
    if i >= |s| then None
    else if s[i] == '\'' then BracketEnd(s, QuotedEnd(s, i), stack)
    else if PairAt(s, i, '/', '/') then BracketEnd(s, UpTo(s, "\n", i + 2, 1), stack)
    else if s[i] == '{' then BracketEnd(s, UpTo(s, "}", i + 1, 1), stack)
    else if PairAt(s, i, '(', '*') then BracketEnd(s, UpTo(s, "*)", i + 2, 2), stack)
    else if s[i] == '(' then BracketEnd(s, i + 1, stack + [')'])
    else if s[i] == '[' then BracketEnd(s, i + 1, stack + [']'])
    else if stack != [] && s[i] == stack[|stack| - 1] then
      if |stack| == 1 then Some(i + 1) else BracketEnd(s, i + 1, stack[..|stack| - 1])
    else BracketEnd(s, i + 1, stack)
  }

  const LARGE := 64 * 1024

  function LargeInitializerEnd(s: string, start: nat): (r: Option<nat>)
    requires start < |s|
    ensures r.Some? ==> start < r.value <= |s|
  {
    var end := BracketEnd(s, start + 1, [')']);
    if end.Some? && end.value - start >= LARGE then end else None
  }

  predicate IsCompound(c: char, d: char) {
    || ((c == ':' || c == '<' || c == '>' || c == '+' || c == '-' || c == '*' || c == '/') && d == '=')
    || (c == '<' && d == '>') || (c == '.' && d == '.') || (c == '*' && d == '*') || (c == '>' && d == '<') || (c == '=' && d == '>')
  }

  predicate IsSymbol(c: char) {
    c in ";,:.=+-*/()[]^@<>"
  }

  // ----- tokens -----

  /** The token at `i`, apart from its line and column; `previous` is the last significant value. */
  datatype Shape = Shape(kind: TokenKind, end: nat, value: string)

  function Whole(s: string, i: nat, kind: TokenKind, end: nat): Shape
    requires i <= end <= |s|
  {
    Shape(kind, end, s[i..end])
  }

  function ShapeAt(a: Alphabet, s: string, i: nat, previous: string): (r: Shape)
    requires i < |s|
    ensures i < r.end <= |s|
  {
    if PairAt(s, i, '/', '/') then Whole(s, i, Comment, UpTo(s, "\n", i + 2, 0))
    else if s[i] == '{' then Whole(s, i, if CharAt(s, i + 1, '$') then Directive else Comment, UpTo(s, "}", i + 1, 1))
    else if PairAt(s, i, '(', '*') then
      Whole(s, i, if CharAt(s, i + 2, '$') then Directive else Comment, UpTo(s, "*)", i + 2, 2))
    else if s[i] == '\'' then Whole(s, i, StringToken, QuotedEnd(s, i))
    else if s[i] == '(' && previous == "=" && LargeInitializerEnd(s, i).Some? then
      Shape(Unknown, LargeInitializerEnd(s, i).value, "<large-initializer>")
    else PlainShape(a, s, i)
  }

  function PlainShape(a: Alphabet, s: string, i: nat): (r: Shape)
    requires i < |s|
    ensures i < r.end <= |s|
  {
    if s[i] == '#' then
      Whole(s, i, CharCode, if CharAt(s, i + 1, '$') then RunEnd(s, i + 2, IsHex) else RunEnd(s, i + 1, a.digit))
    else if s[i] == '$' then Whole(s, i, NumberToken, RunEnd(s, i + 1, IsHex))
    else if s[i] == '%' && ClassAt(s, i + 1, IsBinary) then Whole(s, i, NumberToken, RunEnd(s, i + 1, IsBinary))
    else if s[i] == '&' && ClassAt(s, i + 1, a.digit) then Whole(s, i, NumberToken, RunEnd(s, i + 1, IsOctal))
    else if s[i] == '&' && i + 1 < |s| && StartsName(a, s[i + 1]) then
      var end := RunEnd(s, i + 2, NamePart(a));
      Shape(Identifier, end, s[i + 1..end])
    else if StartsName(a, s[i]) then
      var end := RunEnd(s, i + 1, NamePart(a));
      Whole(s, i, if a.keyword(a.fold(s[i..end])) then Keyword else Identifier, end)
    else if a.digit(s[i]) then Whole(s, i, NumberToken, NumberEnd(a, s, i))
    else if i + 1 < |s| && IsCompound(s[i], s[i + 1]) then Whole(s, i, Symbol, i + 2)
    else if IsSymbol(s[i]) then Whole(s, i, Symbol, i + 1)
    else Whole(s, i, Unknown, i + 1)
  }
}
