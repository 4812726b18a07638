/** The statements of a body as a grammar over tokens: which readings the tokens from a place have,
    and which tree and which problems belong to a reading. */
module StatementGrammar {
  import opened Wrappers
  import opened TokenLists
  import opened ParserCursor
  import Expressions

  // ----- trees -----

  datatype Statement =
    | Block(parts: seq<Statement>)
    | Control(word: string, condition: Option<Expressions.Expr>, parts: seq<Statement>)
    | Else(parts: seq<Statement>)
    | Repeat(parts: seq<Statement>, condition: Option<Expressions.Expr>)
    | Try(parts: seq<Statement>)
    | Except(parts: seq<Statement>)
    | Handler(parts: seq<Statement>)
    | Finally(parts: seq<Statement>)
    | Case(selector: Option<Expressions.Expr>, parts: seq<Statement>)
    | Asm
    | Assign(left: Option<Expressions.Expr>, right: Option<Expressions.Expr>)
    | Plain(expression: Expressions.Expr)

  /** A missing statement leaves nothing. */
  function Part(s: Option<Statement>): seq<Statement> {
    if s.Some? then [s.value] else []
  }

  predicate Terminates(word: string) {
    word == "end" || word == "else" || word == "until" || word == "except" || word == "finally"
  }

  predicate StartsControl(word: string) {
    word == "if" || word == "for" || word == "while" || word == "with"
  }

  function Separator(word: string): string {
    if word == "if" then "then" else "do"
  }

  predicate IsKeyed(word: string) {
    StartsControl(word) || word == "begin" || word == "repeat" || word == "try" || word == "case" || word == "asm"
  }

  // ----- stretches -----

  /** How many more brackets open than close in the tokens from `i` to `k`. */
  function Open(ts: seq<Tok>, i: nat, k: nat, opening: string, closing: string): int
    requires i <= k <= |ts|
    decreases k
  {
    if i == k then 0
    else
      var last := k - 1;
      Open(ts, i, last, opening, closing) + if ts[last].value == opening then 1 else if ts[last].value == closing then -1 else 0
  }

  function Round(ts: seq<Tok>, i: nat, k: nat): int
    requires i <= k <= |ts|
  {
    Open(ts, i, k, "(", ")")
  }

  function Square(ts: seq<Tok>, i: nat, k: nat): int
    requires i <= k <= |ts|
  {
    Open(ts, i, k, "[", "]")
  }

  /** No bracket closes that has not been opened, and a stop stands within brackets only. */
  ghost predicate KeepsTo(ts: seq<Tok>, i: nat, k: nat, stops: set<string>)
    requires i <= k < |ts|
  {
    && Round(ts, i, k) >= 0 && Square(ts, i, k) >= 0
    && (ts[k].word in stops ==> Round(ts, i, k) > 0 || Square(ts, i, k) > 0)
  }

  /** The tokens from `i` to `j` have balanced brackets, and a stop first stands outside of them at `j`. */
  ghost predicate IsStretch(ts: seq<Tok>, i: nat, j: nat, stops: set<string>) {
    && i <= j && j + 1 < |ts| && ts[j].word in stops
    && Round(ts, i, j) == 0 && Square(ts, i, j) == 0
    && forall k: nat :: i <= k < j ==> KeepsTo(ts, i, k, stops)
  }

  lemma {:induction false} StretchIsFound(ts: seq<Tok>, i: nat, j: nat, stops: set<string>, k: nat, d: Depths, previous: Option<Tok>)
    requires IsStretch(ts, i, j, stops) && i <= k <= j
    requires Round(ts, i, k) >= 0 && Square(ts, i, k) >= 0 && d == Depths(Round(ts, i, k), Square(ts, i, k), 0)
    ensures Cursor.StretchEnd(ts, k, d, previous, stops, false) == j
    decreases j - k
  {
    if k < j {
      assert KeepsTo(ts, i, k, stops);
      var next := k + 1;
      assert next < j ==> KeepsTo(ts, i, next, stops);
      assert Round(ts, i, next) == Round(ts, i, k) + if ts[k].value == "(" then 1 else if ts[k].value == ")" then -1 else 0;
      assert Square(ts, i, next) == Square(ts, i, k) + if ts[k].value == "[" then 1 else if ts[k].value == "]" then -1 else 0;
      StretchIsFound(ts, i, j, stops, next, Cursor.StretchDepths(d, previous, ts[k], false), Some(ts[k]));
    }
  }

  lemma {:induction false} StretchIsCollected(ts: seq<Tok>, i: nat, j: nat, stops: set<string>)
    requires IsStretch(ts, i, j, stops)
    ensures Cursor.StretchEnd(ts, i, FLAT, None, stops, false) == j
  {
    StretchIsFound(ts, i, j, stops, i, FLAT, None);
  }

  // ----- readings -----

  /** A reading of tokens as a statement. Runs of tokens that are no statements, such as conditions, are given
      by their size. `OnClause` and `ElseClause` stand among handlers only; a `Stray` is a terminator where none
      is due, such as the `else` of a case statement. */
  datatype Form =
    | Nothing
    | Simple(size: nat)
    | Compound(body: List)
    | Single(size: nat, inner: Form)
    | Choice(size: nat, inner: Form, otherwise: Form)
    | Repetition(body: List, size: nat)
    | Guarded(body: List, handlers: List)
    | Protected(body: List, final: List)
    | Selection(size: nat, body: List)
    | Assembly(size: nat)
    | OnClause(size: nat, inner: Form)
    | ElseClause(inner: Form)
    | Stray

  /** Statements in a row; `closed` says that a semicolon follows. */
  datatype List = Done | Item(form: Form, closed: bool, rest: List)

  /** The number of tokens. */
  function Length(f: Form): nat
    decreases f
  {
    match f
    case Nothing => 0
    case Simple(size) => size
    case Compound(body) => LengthAll(body) + 2
    case Single(size, body) => size + 2 + Length(body)
    case Choice(size, body, otherwise) => size + 3 + Length(body) + Length(otherwise)
    case Repetition(body, size) => LengthAll(body) + 2 + size
    case Guarded(body, handlers) => LengthAll(body) + LengthAll(handlers) + 3
    case Protected(body, final) => LengthAll(body) + LengthAll(final) + 3
    case Selection(size, body) => size + 3 + LengthAll(body)
    case Assembly(size) => size + 2
    case OnClause(size, body) => size + 2 + Length(body)
    case ElseClause(body) => 1 + Length(body)
    case Stray => 1
  }

  function LengthAll(list: List): nat
    decreases list
  {
    match list
    case Done => 0
    case Item(f, closed, rest) => Length(f) + (if closed then 1 else 0) + LengthAll(rest)
  }

  /** Where the tokens of one of the statements in a row end. */
  function Behind(p: nat, f: Form, closed: bool): nat {
    p + Length(f) + if closed then 1 else 0
  }

  function WordAt(ts: seq<Tok>, i: nat): string {
    if i < |ts| then ts[i].word else ""
  }

  const ENDS: set<string> := {"end"}
  const UNTIL: set<string> := {"until"}
  const OF: set<string> := {"of"}
  const TRY_STOPS: set<string> := {"except", "finally", "end"}
  const ON_STOPS: set<string> := {"do", ";", "end"}
  const CONDITION_STOPS: set<string> := {";", "end"}
  const SIMPLE_STOPS: set<string> := {";", "end", "else", "until", "except", "finally"}

  // The places within a statement at `i`: behind its first word; behind a condition of the given size, and
  // behind the separator there; behind a body, and behind the word there; likewise behind a branch.

  function First(i: nat): nat {
    i + 1
  }

  function SimpleEnd(i: nat, size: nat): nat {
    i + size
  }

  function HeadEnd(i: nat, size: nat): nat {
    i + 1 + size
  }

  function InnerAt(i: nat, size: nat): nat {
    i + 2 + size
  }

  function BodyEnd(i: nat, body: List): nat {
    i + 1 + LengthAll(body)
  }

  function TailAt(i: nat, body: List): nat {
    i + 2 + LengthAll(body)
  }

  function InnerEnd(i: nat, size: nat, inner: Form): nat {
    i + 2 + size + Length(inner)
  }

  function OtherwiseAt(i: nat, size: nat, inner: Form): nat {
    i + 3 + size + Length(inner)
  }

  /** The tokens from `i` read as the statement. */
  ghost predicate Stands(ts: seq<Tok>, i: nat, f: Form)
    decreases f, 0
  {
    && i + Length(f) + 1 < |ts|
    && match f
       case Nothing => WordAt(ts, i) == ";" || Terminates(WordAt(ts, i))
       case Simple(size) => size > 0 && !IsKeyed(WordAt(ts, i)) && !Terminates(WordAt(ts, i)) && IsStretch(ts, i, SimpleEnd(i, size), SIMPLE_STOPS)
       case Compound(body) => WordAt(ts, i) == "begin" && StandsAll(ts, First(i), body, ENDS, false)
       case Single(size, inner) =>
         && IsHead(ts, i, size) && Stands(ts, InnerAt(i, size), inner)
         && (WordAt(ts, i) == "if" ==> WordAt(ts, InnerEnd(i, size, inner)) != "else")
       case Choice(size, inner, otherwise) =>
         && WordAt(ts, i) == "if" && IsHead(ts, i, size) && Stands(ts, InnerAt(i, size), inner)
         && WordAt(ts, InnerEnd(i, size, inner)) == "else" && Stands(ts, OtherwiseAt(i, size, inner), otherwise)
       case Repetition(body, size) =>
         && WordAt(ts, i) == "repeat" && StandsAll(ts, First(i), body, UNTIL, false)
         && IsStretch(ts, TailAt(i, body), SimpleEnd(TailAt(i, body), size), CONDITION_STOPS)
       case Guarded(body, handlers) =>
         && WordAt(ts, i) == "try" && StandsAll(ts, First(i), body, TRY_STOPS, false)
         && WordAt(ts, BodyEnd(i, body)) == "except" && StandsAll(ts, TailAt(i, body), handlers, ENDS, true)
       case Protected(body, final) =>
         && WordAt(ts, i) == "try" && StandsAll(ts, First(i), body, TRY_STOPS, false)
         && WordAt(ts, BodyEnd(i, body)) == "finally" && StandsAll(ts, TailAt(i, body), final, ENDS, false)
       case Selection(size, body) =>
         && WordAt(ts, i) == "case" && IsStretch(ts, First(i), HeadEnd(i, size), OF)
         && StandsAll(ts, InnerAt(i, size), body, ENDS, false)
       case Assembly(size) =>
         && WordAt(ts, i) == "asm" && WordAt(ts, HeadEnd(i, size)) == "end"
         && forall k: nat :: i < k <= i + size ==> WordAt(ts, k) != "end"
       case _ => false
  }

  /** A control word and its condition up to the separator. */
  ghost predicate IsHead(ts: seq<Tok>, i: nat, size: nat) {
    var word := WordAt(ts, i);
    && StartsControl(word) && WordAt(ts, HeadEnd(i, size)) == Separator(word)
    && IsStretch(ts, First(i), HeadEnd(i, size), {Separator(word), ";", "end"})
  }

  /** The tokens from `p` read as one of the statements in a row. */
  ghost predicate StandsItem(ts: seq<Tok>, p: nat, f: Form, handling: bool)
    decreases f, 1
  {
    if handling && WordAt(ts, p) == "on" then
      && f.OnClause? && IsStretch(ts, First(p), HeadEnd(p, f.size), ON_STOPS) && WordAt(ts, HeadEnd(p, f.size)) == "do"
      && Stands(ts, InnerAt(p, f.size), f.inner)
    else if handling && WordAt(ts, p) == "else" then f.ElseClause? && Stands(ts, First(p), f.inner)
    else if f.Stray? then Terminates(WordAt(ts, p)) && p + 2 < |ts|
    else Stands(ts, p, f)
  }

  /** A statement ends at a semicolon or a terminator; behind a stray nothing is asked for. */
  predicate Separated(ts: seq<Tok>, p: nat, f: Form, closed: bool) {
    var q := p + Length(f);
    if closed then !f.Stray? && WordAt(ts, q) == ";" && q + 2 < |ts|
    else f.Stray? || (q > p && Terminates(WordAt(ts, q)))
  }

  /** The tokens from `p` read as statements up to a stop. */
  ghost predicate StandsAll(ts: seq<Tok>, p: nat, list: List, stops: set<string>, handling: bool)
    decreases list, 0
  {
    && p + LengthAll(list) + 1 < |ts|
    && match list
       case Done => WordAt(ts, p) in stops
       case Item(f, closed, rest) =>
         && WordAt(ts, p) !in stops
         && StandsItem(ts, p, f, handling) && Separated(ts, p, f, closed)
         && StandsAll(ts, Behind(p, f, closed), rest, stops, handling)
  }

  // ----- the tree of a reading -----

  /** The first assignment sign from `k` on, or the end. */
  function AssignAt(values: seq<Tok>, k: nat): (r: nat)
    requires k <= |values|
    ensures k <= r <= |values| && (r < |values| ==> values[r].word == ":=")
    ensures forall j :: k <= j < r ==> values[j].word != ":="
    decreases |values| - k
  {
    if k == |values| || values[k].word == ":=" then k else AssignAt(values, k + 1)
  }

  /** An assignment has two trees, any other simple statement one. */
  function SimpleTree(values: seq<Tok>): Option<Statement> {
    var k := AssignAt(values, 0);
    if k < |values| then Some(Assign(Expressions.ExpressionNode(values[..k]), Expressions.ExpressionNode(values[k + 1..])))
    else
      var e := Expressions.Direct(values);
      if e.Some? then Some(Plain(e.value)) else None
  }

  function Slice(ts: seq<Tok>, i: nat, j: nat): seq<Tok> {
    if i <= j <= |ts| then ts[i..j] else []
  }

  function Condition(ts: seq<Tok>, i: nat, size: nat): Option<Expressions.Expr> {
    Expressions.Direct(Slice(ts, i, SimpleEnd(i, size)))
  }

  function Tree(ts: seq<Tok>, i: nat, f: Form): Option<Statement>
    decreases f
  {
    match f
    case Nothing => None
    case Simple(size) => SimpleTree(Slice(ts, i, SimpleEnd(i, size)))
    case Compound(body) => Some(Block(Trees(ts, First(i), body)))
    case Single(size, inner) => Some(Control(WordAt(ts, i), Condition(ts, First(i), size), Part(Tree(ts, InnerAt(i, size), inner))))
    case Choice(size, inner, otherwise) =>
      Some(Control(WordAt(ts, i), Condition(ts, First(i), size),
                   Part(Tree(ts, InnerAt(i, size), inner)) + [Else(Part(Tree(ts, OtherwiseAt(i, size, inner), otherwise)))]))
    case Repetition(body, size) => Some(Repeat(Trees(ts, First(i), body), Condition(ts, TailAt(i, body), size)))
    case Guarded(body, handlers) => Some(Try(Trees(ts, First(i), body) + [Except(Trees(ts, TailAt(i, body), handlers))]))
    case Protected(body, final) => Some(Try(Trees(ts, First(i), body) + [Finally(Trees(ts, TailAt(i, body), final))]))
    case Selection(size, body) => Some(Case(Condition(ts, First(i), size), Trees(ts, InnerAt(i, size), body)))
    case Assembly(_) => Some(Asm)
    case OnClause(size, inner) => Some(Handler(Part(Tree(ts, InnerAt(i, size), inner))))
    case ElseClause(inner) => Tree(ts, First(i), inner)
    case Stray => None
  }

  function Trees(ts: seq<Tok>, p: nat, list: List): seq<Statement>
    decreases list
  {
    match list
    case Done => []
    case Item(f, closed, rest) => Part(Tree(ts, p, f)) + Trees(ts, Behind(p, f, closed), rest)
  }

  // ----- the problems of a reading -----

  /** The places of the strays of a statement that starts at `i`. */
  function Strays(i: nat, f: Form): seq<nat>
    decreases f
  {
    match f
    case Compound(body) => StraysAll(First(i), body)
    case Single(size, inner) => Strays(InnerAt(i, size), inner)
    case Choice(size, inner, otherwise) => Strays(InnerAt(i, size), inner) + Strays(OtherwiseAt(i, size, inner), otherwise)
    case Repetition(body, _) => StraysAll(First(i), body)
    case Guarded(body, handlers) => StraysAll(First(i), body) + StraysAll(TailAt(i, body), handlers)
    case Protected(body, final) => StraysAll(First(i), body) + StraysAll(TailAt(i, body), final)
    case Selection(size, body) => StraysAll(InnerAt(i, size), body)
    case OnClause(size, inner) => Strays(InnerAt(i, size), inner)
    case ElseClause(inner) => Strays(First(i), inner)
    case Stray => [i]
    case _ => []
  }

  function StraysAll(p: nat, list: List): seq<nat>
    decreases list
  {
    match list
    case Done => []
    case Item(f, closed, rest) => Strays(p, f) + StraysAll(Behind(p, f, closed), rest)
  }

  function Stuck(ts: seq<Tok>, k: nat): Problem {
    if k < |ts| then Problem(STUCK, ts[k].line, ts[k].column) else Problem(STUCK, 0, 0)
  }

  function Marks(ts: seq<Tok>, places: seq<nat>): seq<Problem> {
    seq(|places|, k requires 0 <= k < |places| => Stuck(ts, places[k]))
  }

  function Limited(problems: seq<Problem>): seq<Problem> {
    if |problems| > MAX_PROBLEMS then problems[..MAX_PROBLEMS] else problems
  }

  /** Between two states the strays at the places were noted, up to the limit, and nothing else. */
  ghost predicate Noticed(ts: seq<Tok>, before: seq<Problem>, after: seq<Problem>, places: seq<nat>) {
    after == Limited(before + Marks(ts, places))
  }
}
