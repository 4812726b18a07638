/** The parser's cursor over a token list that ends in its only end marker. */
module ParserCursor {
  import opened Wrappers
  import opened LexerGrammar
  import opened TokenLists
  import opened Lexer
  import Expressions

  // ----- the tokens -----

  /** The end marker stands at the end and nowhere else, and has no text. */
  ghost predicate IsInput(tokens: seq<Tok>) {
    && tokens != []
    && (forall i :: 0 <= i < |tokens| ==> (tokens[i].kind == Eof <==> i == |tokens| - 1))
    && tokens[|tokens| - 1].word == ""
  }

  function TokOf(a: Alphabet, t: Token): Tok {
    Tok(t.kind, t.value, a.fold(t.value), t.start, t.end, t.line, t.column)
  }

  /** The tokens that are no comments and no directives. */
  function Significant(a: Alphabet, tokens: seq<Token>): seq<Tok> {
    if tokens == [] then []
    else
      var last := tokens[|tokens| - 1];
      Significant(a, tokens[..|tokens| - 1]) + if last.kind == Comment || last.kind == Directive then [] else [TokOf(a, last)]
  }

  /** Brackets, separators and dots are neither letters nor digits, and folding keeps the empty text. */
  ghost predicate Sane(a: Alphabet) {
    && a.fold("") == ""
    && forall c: char :: IsMarkChar(c) ==> !a.letter(c) && !a.digit(c)
  }

  predicate IsMarkChar(c: char) {
    c == '(' || c == ')' || c == '[' || c == ']' || c == ',' || c == '.' || c == '^'
  }

  predicate IsOperandKind(k: TokenKind) {
    k == Identifier || k == Keyword || k == NumberToken || k == StringToken || k == CharCode
  }

  /** A name or constant starts with a character that is no mark. */
  lemma {:induction false} PlainStart(a: Alphabet, s: string, i: nat)
    requires Sane(a) && i < |s|
    ensures PlainShape(a, s, i).kind != Eof
    ensures IsOperandKind(PlainShape(a, s, i).kind) ==> PlainShape(a, s, i).value != "" && !IsMarkChar(PlainShape(a, s, i).value[0])
  {
    assert !IsMarkChar(s[i]) || !(StartsName(a, s[i]) || a.digit(s[i]));
    if s[i] == '&' && i + 1 < |s| && StartsName(a, s[i + 1]) && !a.digit(s[i + 1]) {
      assert s[i + 1..RunEnd(s, i + 2, NamePart(a))][0] == s[i + 1];
    }
  }

  lemma {:induction false} MarksAreNoOperands(a: Alphabet, s: string, i: nat, previous: string)
    requires Sane(a) && i < |s|
    ensures ShapeAt(a, s, i, previous).kind != Eof
    ensures Expressions.IsMark(ShapeAt(a, s, i, previous).value) ==> !IsOperandKind(ShapeAt(a, s, i, previous).kind)
  {
    PlainStart(a, s, i);
    var shape := ShapeAt(a, s, i, previous);
    if s[i] == '\'' {
      assert shape.value[0] == '\'';
    }
    assert Expressions.IsMark(shape.value) ==> |shape.value| == 1 && IsMarkChar(shape.value[0]);
  }

  lemma {:induction false} SignificantHolds(a: Alphabet, s: string, tokens: seq<Token>)
    requires Sane(a) && Tiling(a, s, tokens)
    ensures forall t :: t in Significant(a, tokens) ==> t.kind != Eof
    ensures Expressions.Lexed(Significant(a, tokens))
  {
    if tokens != [] {
      var n := |tokens| - 1;
      TilingPrefix(a, s, tokens, n);
      SignificantHolds(a, s, tokens[..n]);
      assert TileAt(a, s, tokens, n);
      MarksAreNoOperands(a, s, tokens[n].start, Previous(a, tokens[..n]));
    }
  }

  /** What the lexer makes of any text is input for the parser. */
  lemma {:induction false} LexerMakesInput(a: Alphabet, s: string, tokens: seq<Token>)
    requires Sane(a) && IsTokenList(a, s, tokens)
    ensures IsInput(Significant(a, tokens)) && Expressions.Lexed(Significant(a, tokens))
  {
    SignificantHolds(a, s, tokens[..|tokens| - 1]);
    var before := Significant(a, tokens[..|tokens| - 1]);
    assert Significant(a, tokens) == before + [TokOf(a, tokens[|tokens| - 1])];
    assert forall i :: 0 <= i < |before| ==> before[i] in before;
  }

  // ----- the cursor -----

  datatype Problem = Problem(message: string, line: nat, column: nat)

  const MAX_PROBLEMS := 128
  const STUCK := "Parser recovery forced forward progress"

  /** One more problem, unless the limit is reached. */
  function Added(problems: seq<Problem>, message: string, t: Tok): seq<Problem> {
    if |problems| >= MAX_PROBLEMS then problems else problems + [Problem(message, t.line, t.column)]
  }

  /** Where brackets close that are `depth` deep before `k`. */
  function ClosesAt(tokens: seq<Tok>, k: nat, depth: int, opening: string, closing: string): (r: Option<nat>)
    ensures r.Some? ==> k <= r.value < |tokens| && tokens[r.value].word == closing
    decreases |tokens| - k
  {
    if k >= |tokens| then None
    else if tokens[k].word == opening then ClosesAt(tokens, k + 1, depth + 1, opening, closing)
    else if tokens[k].word == closing then if depth == 1 then Some(k) else ClosesAt(tokens, k + 1, depth - 1, opening, closing)
    else ClosesAt(tokens, k + 1, depth, opening, closing)
  }

  predicate NamesPart(t: Tok) {
    t.kind == Identifier || t.kind == Keyword
  }

  predicate InName(t: Tok) {
    NamesPart(t) || t.word == "."
  }

  /** The part of a routine's name behind the part at `p`: behind a dot, or behind type arguments
      and a dot. */
  function NextPart(tokens: seq<Tok>, p: nat): Option<nat> {
    var close := if p + 1 < |tokens| && tokens[p + 1].word == "<" then ClosesAt(tokens, p + 1, 0, "<", ">") else Some(p);
    if close.None? || close.value + 2 >= |tokens| || tokens[close.value + 1].word != "." || !NamesPart(tokens[close.value + 2]) then None
    else Some(close.value + 2)
  }

  /** The places of the parts of a routine's name. */
  ghost predicate IsPath(tokens: seq<Tok>, start: nat, parts: seq<nat>) {
    && parts != [] && parts[0] == start
    && (forall k :: 0 <= k < |parts| ==> parts[k] < |tokens|)
    && forall k :: 0 < k < |parts| ==> NextPart(tokens, parts[k - 1]) == Some(parts[k])
  }

  function PathName(tokens: seq<Tok>, parts: seq<nat>): string
    requires parts != [] && forall k :: 0 <= k < |parts| ==> parts[k] < |tokens|
  {
    var last := tokens[parts[|parts| - 1]].value;
    if |parts| == 1 then last else PathName(tokens, parts[..|parts| - 1]) + "." + last
  }

  /** The whole path of a name that starts at `start`, read no further than `end`. */
  ghost predicate NamesRoutine(tokens: seq<Tok>, start: nat, name: string, end: nat) {
    exists parts :: IsPath(tokens, start, parts) && name == PathName(tokens, parts)
                    && NextPart(tokens, parts[|parts| - 1]) == None && parts[|parts| - 1] < end
  }

  lemma {:induction false} PathIsWhole(tokens: seq<Tok>, start: nat, parts: seq<nat>, last: nat, name: string, end: nat)
    requires IsPath(tokens, start, parts) && parts[|parts| - 1] == last && name == PathName(tokens, parts)
    requires NextPart(tokens, last) == None && last < end
    ensures NamesRoutine(tokens, start, name, end)
  {
  }

  lemma {:induction false} PathMore(tokens: seq<Tok>, start: nat, parts: seq<nat>, last: nat, p: nat)
    requires IsPath(tokens, start, parts) && parts[|parts| - 1] == last && NextPart(tokens, last) == Some(p) && p < |tokens|
    ensures IsPath(tokens, start, parts + [p])
    ensures PathName(tokens, parts + [p]) == PathName(tokens, parts) + "." + tokens[p].value
  {
    assert (parts + [p])[..|parts|] == parts;
  }

  /** A stretch cut to the limit, if there is one. */
  function Retained(stretch: seq<Tok>, limit: Option<nat>): seq<Tok> {
    if limit.None? || |stretch| <= limit.value then stretch else stretch[..limit.value]
  }

  lemma {:induction false} RetainedGrows(tokens: seq<Tok>, from: nat, end: nat, next: nat, limit: Option<nat>)
    requires from <= end < |tokens| && next == end + 1
    ensures var part := Retained(tokens[from..end], limit);
            Retained(tokens[from..next], limit) == part + if limit.None? || |part| < limit.value then [tokens[end]] else []
  {
    var stretch, t := tokens[from..end], tokens[end];
    assert tokens[from..next] == stretch + [t];
    if limit.Some? && |stretch| >= limit.value {
      assert (stretch + [t])[..limit.value] == stretch[..limit.value];
    }
  }

  class Cursor {
    const tokens: seq<Tok>
    var index: nat
    var problems: seq<Problem>

    constructor (input: seq<Tok>)
      requires IsInput(input)
      ensures tokens == input && index == 0 && problems == [] && Valid()
    {
      tokens, index, problems := input, 0, [];
    }

    ghost predicate Valid()
      reads this
    {
      IsInput(tokens) && index < |tokens| && |problems| <= MAX_PROBLEMS
    }

    /** The cursor is at `from` or behind it, and the problems noted then are still there. */
    ghost predicate Ahead(from: int, noted: seq<Problem>)
      reads this
    {
      Valid() && from <= index && noted <= problems
    }

    ghost function Left(): nat
      requires Valid()
      reads this
    {
      |tokens| - index
    }

    function Peek(offset: int): Tok
      requires Valid()
      reads this
    {
      var at := index + offset;
      tokens[if at < 0 then 0 else if at >= |tokens| then |tokens| - 1 else at]
    }

    function Word(offset: int := 0): string
      requires Valid()
      reads this
    {
      Peek(offset).word
    }

    predicate AtWord(value: string)
      requires Valid()
      reads this
    {
      Word() == value
    }

    predicate AtEnd()
      requires Valid()
      ensures AtEnd() <==> index == |tokens| - 1
      reads this
    {
      Peek(0).kind == Eof
    }

    predicate AtName(offset: int, allowKeywords: bool)
      requires Valid()
      ensures AtName(offset, allowKeywords) && offset == 0 ==> !AtEnd()
      reads this
    {
      Peek(offset).kind == Identifier || (allowKeywords && Peek(offset).kind == Keyword)
    }

    method Advance() returns (t: Tok)
      requires Valid()
      modifies this`index
      ensures Valid() && t == tokens[old(index)]
      ensures index == if old(AtEnd()) then old(index) else old(index) + 1
    {
      t := Peek(0);
      if t.kind != Eof {
        index := index + 1;
      }
    }

    method Accept(value: string) returns (b: bool)
      requires Valid() && value != ""
      modifies this`index
      ensures Valid() && (b <==> old(AtWord(value))) && index == if b then old(index) + 1 else old(index)
    {
      if !AtWord(value) {
        return false;
      }
      var _ := Advance();
      b := true;
    }

    /** Notes a problem, up to the limit. */
    method Note(message: string)
      requires Valid()
      modifies this`problems
      ensures Valid()
      ensures problems == Added(old(problems), Cut(message), Peek(0))
    {
      if |problems| >= MAX_PROBLEMS {
        return;
      }
      problems := problems + [Problem(Cut(message), Peek(0).line, Peek(0).column)];
    }

    static function Cut(message: string): string {
      if |message| > 240 then message[..240] else message
    }

    /** Whatever a turn of a loop did, it leaves a token behind; a turn that did not move notes a problem. */
    method EnsureProgress(before: nat)
      requires Valid() && before <= index
      modifies this
      ensures Ahead(old(index), old(problems)) && (index > before || (index == before && AtEnd()))
      ensures if old(index) > before || old(AtEnd()) then index == old(index) && problems == old(problems)
              else index == old(index) + 1 && problems == Added(old(problems), STUCK, tokens[before])
    {
      if index <= before && !AtEnd() {
        Note(STUCK);
        var _ := Advance();
      }
    }

    /** Moves to the first of the stops, or to the end. */
    method Synchronize(stops: set<string>)
      requires Valid()
      modifies this`index
      ensures Valid() && old(index) <= index && (AtEnd() || Word() in stops)
      ensures forall k :: old(index) <= k < index ==> tokens[k].word !in stops
    {
      while !AtEnd() && Word() !in stops
        invariant Valid() && old(index) <= index
        invariant forall k :: old(index) <= k < index ==> tokens[k].word !in stops
        decreases Left()
      {
        var _ := Advance();
      }
    }

    method ConsumeThrough(value: string)
      requires Valid() && value != ""
      modifies this`index
      ensures Valid() && old(index) <= index && (old(AtEnd()) || old(index) < index)
      ensures old(AtWord(value)) ==> index == old(index) + 1
    {
      Synchronize({value});
      var _ := Accept(value);
    }

    // ----- stretches -----

    static predicate ResetsAngles(word: string) {
      word == ";" || word == "then" || word == "do" || word == "begin" || word == "end"
    }

    /** The depths behind a token of a stretch. An angle bracket counts only directly behind a name. */
    static function StretchDepths(d: Depths, previous: Option<Tok>, t: Tok, angles: bool): Depths {
      var next :=
        if t.value == "<" then
          if angles && previous.Some? && previous.value.kind == Identifier && previous.value.end == t.start then d.(angle := d.angle + 1) else d
        else if t.value == ">" then if angles then d.(angle := Less(d.angle)) else d
        else Deepen(d, t.value);
      if ResetsAngles(t.word) then next.(angle := 0) else next
    }

    /** Where a stretch ends: at the first stop outside of all brackets, or at the end. */
    static function StretchEnd(tokens: seq<Tok>, i: nat, d: Depths, previous: Option<Tok>, stops: set<string>, angles: bool): (r: nat)
      requires i < |tokens|
      ensures i <= r < |tokens|
      decreases |tokens| - i
    {
      if i == |tokens| - 1 || (d.Flat() && tokens[i].word in stops) then i
      else StretchEnd(tokens, i + 1, StretchDepths(d, previous, tokens[i], angles), Some(tokens[i]), stops, angles)
    }

    /** The tokens up to the first stop outside of brackets; at most so many of them are kept. */
    method CollectUntil(stops: set<string>, angles: bool := true, maxRetained: Option<nat> := None) returns (values: seq<Tok>)
      requires Valid()
      modifies this`index
      ensures Valid() && index == StretchEnd(tokens, old(index), FLAT, None, stops, angles)
      ensures values == Retained(tokens[old(index)..index], maxRetained)
      ensures !old(AtEnd()) && old(Word()) !in stops ==> index > old(index)
      ensures old(Word()) in stops ==> index == old(index)
    {
      values := [];
      var d, previous := FLAT, None;
      while !AtEnd()
        invariant Valid() && old(index) <= index
        invariant StretchEnd(tokens, old(index), FLAT, None, stops, angles) == StretchEnd(tokens, index, d, previous, stops, angles)
        invariant values == Retained(tokens[old(index)..index], maxRetained)
        invariant index == old(index) ==> d == FLAT
        invariant old(Word()) in stops ==> index == old(index)
        decreases Left()
      {
        if d.Flat() && Word() in stops {
          break;
        }
        ghost var at := index;
        var token := Advance();
        RetainedGrows(tokens, old(index), at, index, maxRetained);
        if maxRetained.None? || |values| < maxRetained.value {
          values := values + [token];
        }
        d := StretchDepths(d, previous, token, angles);
        previous := Some(token);
      }
    }

    // ----- names -----

    method ReadName() returns (name: string)
      requires Valid()
      modifies this`index
      ensures Valid() && index == if old(AtName(0, true)) then old(index) + 1 else old(index)
      ensures name == if old(AtName(0, true)) then tokens[old(index)].value else ""
    {
      if !AtName(0, true) {
        return "";
      }
      var t := Advance();
      name := t.value;
    }

    method ReadQualifiedName(allowKeywords: bool) returns (name: string)
      requires Valid()
      modifies this`index
      ensures Valid() && old(index) <= index && (old(AtName(0, allowKeywords)) <==> old(index) < index)
      ensures forall k :: old(index) <= k < index ==> InName(tokens[k])
    {
      if !AtName(0, allowKeywords) {
        return "";
      }
      var first := Advance();
      name := first.value;
      while AtWord(".") && AtName(1, allowKeywords)
        invariant Valid() && old(index) < index
        invariant forall k :: old(index) <= k < index ==> InName(tokens[k])
        decreases Left()
      {
        var _ := Advance();
        var part := Advance();
        name := name + "." + part.value;
      }
    }

    /** The place where the bracket at the cursor closes. */
    method MatchingStreamToken(opening: string, closing: string) returns (r: Option<nat>)
      requires Valid() && opening != closing
      ensures r == if AtWord(opening) then ClosesAt(tokens, index, 0, opening, closing) else None
      ensures r.Some? ==> index <= r.value < |tokens| && tokens[r.value].word == closing
    {
      if !AtWord(opening) {
        return None;
      }
      var depth := 0;
      for k := index to |tokens|
        invariant ClosesAt(tokens, index, 0, opening, closing) == ClosesAt(tokens, k, depth, opening, closing)
      {
        if tokens[k].word == opening {
          depth := depth + 1;
        } else if tokens[k].word == closing {
          depth := depth - 1;
          if depth == 0 {
            return Some(k);
          }
        }
      }
      r := None;
    }

    /** Moves over type arguments and a dot to the next part of a routine's name, if there is one. */
    method ReachPart(ghost last: nat) returns (found: bool)
      requires Valid() && index == last + 1
      modifies this`index
      ensures Valid() && index > last
      ensures NextPart(tokens, last) == if found then Some(index) else None
      ensures found ==> AtName(0, true)
    {
      if AtWord("<") {
        var close := MatchingStreamToken("<", ">");
        if close.None? || close.value + 1 >= |tokens| || tokens[close.value + 1].word != "." {
          return false;
        }
        index := close.value + 1;
      }
      var dot := Accept(".");
      found := dot && AtName(0, true);
    }

    /** The name is that of parts joined by dots, type arguments between them left out; there is no
        name exactly if no token is consumed, and no further part follows. */
    method ReadRoutineName() returns (name: string)
      requires Valid()
      modifies this`index
      ensures Valid() && old(index) <= index && (old(AtName(0, true)) <==> old(index) < index)
      ensures if old(AtName(0, true)) then NamesRoutine(tokens, old(index), name, index) else name == ""
    {
      if !AtName(0, true) {
        return "";
      }
      ghost var start, last, parts := index, index, [index];
      var first := Advance();
      name := first.value;
      while !AtEnd()
        invariant Valid() && index == last + 1 && start <= last
        invariant IsPath(tokens, start, parts) && parts[|parts| - 1] == last && name == PathName(tokens, parts)
        decreases Left()
      {
        var found := ReachPart(last);
        if !found {
          PathIsWhole(tokens, start, parts, last, name, index);
          return;
        }
        PathMore(tokens, start, parts, last, index);
        last, parts := index, parts + [index];
        var part := Advance();
        name := name + "." + part.value;
      }
      PathIsWhole(tokens, start, parts, last, name, index);
    }
  }
}
