/** The token queries of the routine-body search: headings, directives, nested
    declarations, structured types and END-terminated blocks. */
module RoutineTokens {
  import opened Wrappers

  datatype Token = Token(value: string, start: nat, end: nat, word: bool, escaped: bool, directive: bool)

  type Tokens = seq<Token>

  const ROUTINE_WORDS: set<string> := {"procedure", "function", "constructor", "destructor", "operator"}
  const BLOCK_WORDS: set<string> := {"begin", "case", "try", "asm"}
  const STRUCTURED_TYPE_WORDS: set<string> := {"class", "record", "object", "interface", "dispinterface"}
  const NO_BODY_DIRECTIVES: set<string> := {"abstract", "external", "forward"}
  const SECTION_WORDS: set<string> := {"implementation", "initialization", "finalization"}
  const ROUTINE_DIRECTIVES: set<string> := {
    "abstract", "assembler", "cdecl", "deprecated", "dispid", "dynamic", "experimental", "export", "external",
    "final", "forward", "inline", "message", "overload", "override", "pascal", "platform", "register",
    "reintroduce", "safecall", "static", "stdcall", "unsafe", "varargs", "virtual", "winapi"}

  /** Tokens are non-empty and follow one another in the text. */
  ghost predicate Ordered(ts: Tokens) {
    && (forall i :: 0 <= i < |ts| ==> ts[i].start < ts[i].end)
    && forall i, j :: 0 <= i < j < |ts| ==> ts[i].end <= ts[j].start
  }

  /** A word that may act as a keyword. */
  predicate IsKeyword(t: Token, words: set<string>) {
    t.word && !t.escaped && t.value in words
  }

  function Value(ts: Tokens, i: int): string {
    if 0 <= i < |ts| then ts[i].value else ""
  }

  /** The first token at or after `i` that starts at or after `pos`. */
  function IndexFrom(ts: Tokens, pos: nat, i: nat): (r: nat)
    requires i <= |ts|
    ensures i <= r <= |ts|
    ensures forall k :: i <= k < r ==> ts[k].start < pos
    ensures r < |ts| ==> ts[r].start >= pos
    decreases |ts| - i
  {
    if i < |ts| && ts[i].start < pos then IndexFrom(ts, pos, i + 1) else i
  }

  lemma {:induction false} IndexUnique(ts: Tokens, pos: nat, i: nat, k: nat)
    requires i <= k <= |ts| && forall j :: i <= j < k ==> ts[j].start < pos
    requires k < |ts| ==> ts[k].start >= pos
    ensures IndexFrom(ts, pos, i) == k
    decreases |ts| - i
  {
    if i < k {
      IndexUnique(ts, pos, i + 1, k);
    }
  }

  /** The index of a text position among the token starts, as a left bisection finds it. */
  method BisectLeft(ts: Tokens, pos: nat) returns (low: nat)
    requires Ordered(ts)
    ensures low == IndexFrom(ts, pos, 0)
  {
    low := 0;
    var high := |ts|;
    while low < high
      invariant low <= high <= |ts|
      invariant forall k :: 0 <= k < low ==> ts[k].start < pos
      invariant forall k :: high <= k < |ts| ==> ts[k].start >= pos
    {
      var mid := (low + high) / 2;
      if ts[mid].start < pos {
        low := mid + 1;
      } else {
        high := mid;
      }
    }
    IndexUnique(ts, pos, 0, low);
  }

  /** The routine keyword among the next six tokens, before any semicolon. */
  function RoutineKeyword(ts: Tokens, i: nat, left: nat): (r: Option<nat>)
    ensures r.Some? ==> i <= r.value < |ts| && IsKeyword(ts[r.value], ROUTINE_WORDS)
    decreases left
  {
    if left == 0 || i >= |ts| then None
    else if IsKeyword(ts[i], ROUTINE_WORDS) then Some(i)
    else if ts[i].value == ";" then None
    else RoutineKeyword(ts, i + 1, left - 1)
  }

  function RoutineKeywordIndex(ts: Tokens, start: nat): Option<nat> {
    RoutineKeyword(ts, start, 6)
  }

  function Less1(n: nat): nat {
    if n == 0 then 0 else n - 1
  }

  /** The first semicolon outside brackets, from `i` with the given depths. */
  function SemicolonFrom(ts: Tokens, i: nat, parens: nat, brackets: nat, angles: nat): (r: Option<nat>)
    ensures r.Some? ==> i <= r.value < |ts|
    decreases |ts| - i
  {
    if i >= |ts| then None
    else
      var v := ts[i].value;
      if v == "(" then SemicolonFrom(ts, i + 1, parens + 1, brackets, angles)
      else if v == ")" then SemicolonFrom(ts, i + 1, Less1(parens), brackets, angles)
      else if v == "[" then SemicolonFrom(ts, i + 1, parens, brackets + 1, angles)
      else if v == "]" then SemicolonFrom(ts, i + 1, parens, Less1(brackets), angles)
      else if v == "<" then SemicolonFrom(ts, i + 1, parens, brackets, angles + 1)
      else if v == ">" then SemicolonFrom(ts, i + 1, parens, brackets, Less1(angles))
      else if v == ";" && parens == 0 && brackets == 0 && angles == 0 then Some(i)
      else SemicolonFrom(ts, i + 1, parens, brackets, angles)
  }

  method TopLevelSemicolon(ts: Tokens, start: nat) returns (r: Option<nat>)
    ensures r == SemicolonFrom(ts, start, 0, 0, 0)
  {
    var parens, brackets, angles: nat := 0, 0, 0;
    var index := start;
    while index < |ts|
      invariant SemicolonFrom(ts, index, parens, brackets, angles) == SemicolonFrom(ts, start, 0, 0, 0)
    {
      var value := ts[index].value;
      if value == "(" {
        parens := parens + 1;
      } else if value == ")" {
        parens := Less1(parens);
      } else if value == "[" {
        brackets := brackets + 1;
      } else if value == "]" {
        brackets := Less1(brackets);
      } else if value == "<" {
        angles := angles + 1;
      } else if value == ">" {
        angles := Less1(angles);
      } else if value == ";" && parens == 0 && brackets == 0 && angles == 0 {
        return Some(index);
      }
      index := index + 1;
    }
    return None;
  }

  function HeadingEnd(ts: Tokens, routine: nat): (r: Option<nat>)
    ensures r.Some? ==> routine < r.value < |ts|
  {
    SemicolonFrom(ts, routine + 1, 0, 0, 0)
  }

  /** The end of a heading and the directives behind it. */
  function DirectivesEnd(ts: Tokens, end: nat): (r: nat)
    ensures end <= r && (end < |ts| ==> r < |ts|)
    decreases |ts| - end
  {
    if end + 1 >= |ts| || !IsKeyword(ts[end + 1], ROUTINE_DIRECTIVES) then end
    else
      var next := SemicolonFrom(ts, end + 2, 0, 0, 0);
      if next.None? then end else DirectivesEnd(ts, next.value)
  }

  function DeclarationEnd(ts: Tokens, routine: nat): (r: Option<nat>)
    ensures r.Some? ==> routine < r.value < |ts|
  {
    var heading := HeadingEnd(ts, routine);
    if heading.None? then None else Some(DirectivesEnd(ts, heading.value))
  }

  predicate IsNestedDeclaration(ts: Tokens, i: nat)
    requires i < |ts|
  {
    if ts[i].value == "operator" then true
    else if i > 0 && Value(ts, i - 1) in {":", "=", "of", "to", "reference", "."} then false
    else i + 1 < |ts| && ts[i + 1].word && ts[i + 1].value !in {"of", "object"}
  }

  /** Whether `array` comes before a token that rules it out, at most 200 tokens back. */
  predicate IsArrayOf(ts: Tokens, i: int, left: nat)
    decreases left
  {
    if left == 0 || i < 0 || i >= |ts| then false
    else if ts[i].value == "array" then true
    else if ts[i].value in {"procedure", "function", "reference", "=", ";"} then false
    else IsArrayOf(ts, i - 1, left - 1)
  }

  /** Whether an unclosed `<` comes before, at most 100 tokens back. */
  predicate InsideAngles(ts: Tokens, i: int, depth: nat, left: nat)
    decreases left
  {
    if left == 0 || i < 0 || i >= |ts| then false
    else if ts[i].value == ">" then InsideAngles(ts, i - 1, depth + 1, left - 1)
    else if ts[i].value == "<" then depth == 0 || InsideAngles(ts, i - 1, depth - 1, left - 1)
    else if depth == 0 && ts[i].value in {";", "begin", "end"} then false
    else InsideAngles(ts, i - 1, depth, left - 1)
  }

  predicate IsStructuredOpener(ts: Tokens, i: nat)
    requires i < |ts|
  {
    var value := ts[i].value;
    if value == "class" && Value(ts, i + 1) == "of" then false
    else if i == 0 then false
    else
      var previous := ts[i - 1].value;
      if previous == "of" then value in {"record", "object"} && IsArrayOf(ts, i - 2, 198)
      else if previous == ":" && InsideAngles(ts, i - 1, 0, 99) then false
      else previous in {"=", ":", "packed"} || (previous == "^" && value in {"record", "object"})
  }

  predicate OpensStructured(ts: Tokens, i: nat)
    requires i < |ts|
  {
    IsKeyword(ts[i], STRUCTURED_TYPE_WORDS) && IsStructuredOpener(ts, i)
  }

  /** The token whose END closes the innermost of the open blocks down to the last, from `i`. */
  function ClosingFrom(ts: Tokens, i: nat, stack: seq<string>): (r: Option<nat>)
    requires stack != []
    ensures r.Some? ==> i <= r.value < |ts|
    decreases |ts| - i
  {
    if i >= |ts| || ts[i].directive then None
    else
      var t, top := ts[i], stack[|stack| - 1];
      if !t.word || t.escaped then ClosingFrom(ts, i + 1, stack)
      else if top != "asm" && t.value in BLOCK_WORDS then
        if t.value == "case" && top in STRUCTURED_TYPE_WORDS then ClosingFrom(ts, i + 1, stack)
        else ClosingFrom(ts, i + 1, stack + [t.value])
      else if top != "asm" && t.value in STRUCTURED_TYPE_WORDS && IsStructuredOpener(ts, i) then
        ClosingFrom(ts, i + 1, stack + [t.value])
      else if t.value != "end" then ClosingFrom(ts, i + 1, stack)
      else if |stack| == 1 then Some(i)
      else ClosingFrom(ts, i + 1, stack[..|stack| - 1])
  }

  /** The text position behind the block that opens at `opener`, with a following `;` or `.`. */
  function BlockEnd(ts: Tokens, opener: nat): Option<nat>
    requires opener < |ts|
  {
    var close := ClosingFrom(ts, opener + 1, [ts[opener].value]);
    if close.None? then None
    else Some(if Value(ts, close.value + 1) in {";", "."} then ts[close.value + 1].end else ts[close.value].end)
  }

  /** A position behind a token's start has an index behind the token. */
  lemma {:induction false} IndexBehind(ts: Tokens, pos: nat, i: nat)
    requires Ordered(ts) && i < |ts| && ts[i].start < pos
    ensures IndexFrom(ts, pos, 0) > i
  {
  }

  /** The block ends behind its opener. */
  lemma {:induction false} BlockEndIndex(ts: Tokens, opener: nat)
    requires Ordered(ts) && opener < |ts| && BlockEnd(ts, opener).Some?
    ensures IndexFrom(ts, BlockEnd(ts, opener).value, 0) > opener + 1
  {
    var close := ClosingFrom(ts, opener + 1, [ts[opener].value]).value;
    var next := close + 1;
    if next < |ts| {
      assert ts[close].end <= ts[next].start < ts[next].end;
    }
    IndexBehind(ts, BlockEnd(ts, opener).value, close);
  }
}
