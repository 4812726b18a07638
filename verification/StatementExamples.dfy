/** Readings of tokens that spell familiar statements: an if with its else reads without a stray, and at three
    places the grammar of the parser departs from that of the language. */
module StatementExamples {
  import opened LexerGrammar
  import opened TokenLists
  import opened StatementGrammar
  import Parser

  predicate IsReserved(word: string) {
    IsKeyed(word) || Terminates(word) || word == ";" || word == "then" || word == "do" || word == "of"
  }

  predicate IsBracket(t: Tok) {
    t.value == "(" || t.value == ")" || t.value == "[" || t.value == "]"
  }

  /** Tokens that are neither brackets nor reserved words. */
  ghost predicate IsPlain(ts: seq<Tok>, i: nat, j: nat) {
    i <= j <= |ts| && forall k :: i <= k < j ==> !IsReserved(ts[k].word) && !IsBracket(ts[k])
  }

  lemma {:induction false} FlatOpens(ts: seq<Tok>, i: nat, k: nat)
    requires i <= k <= |ts| && forall n :: i <= n < k ==> !IsBracket(ts[n])
    ensures Round(ts, i, k) == 0 && Square(ts, i, k) == 0
    decreases k
  {
    if i < k {
      FlatOpens(ts, i, k - 1);
      assert !IsBracket(ts[k - 1]);
    }
  }

  /** Without brackets a stretch ends at the first stop. */
  lemma {:induction false} FlatStretch(ts: seq<Tok>, i: nat, j: nat, stops: set<string>)
    requires i <= j && j + 1 < |ts| && ts[j].word in stops
    requires forall n :: i <= n < j ==> !IsBracket(ts[n]) && ts[n].word !in stops
    ensures IsStretch(ts, i, j, stops)
  {
    FlatOpens(ts, i, j);
    forall k: nat | i <= k < j
      ensures KeepsTo(ts, i, k, stops)
    {
      FlatOpens(ts, i, k);
    }
  }

  /** Any plain tokens before a stop read as a simple statement. */
  lemma {:induction false} PlainStands(ts: seq<Tok>, i: nat, size: nat, j: nat)
    requires j == SimpleEnd(i, size) && size > 0 && IsPlain(ts, i, j) && j + 1 < |ts| && ts[j].word in SIMPLE_STOPS
    ensures Stands(ts, i, Simple(size))
  {
    FlatStretch(ts, i, j, SIMPLE_STOPS);
  }

  /** A condition without reserved words up to its separator at `s`. */
  lemma {:induction false} PlainHead(ts: seq<Tok>, i: nat, size: nat, s: nat)
    requires s == HeadEnd(i, size) && s + 1 < |ts| && StartsControl(ts[i].word) && IsPlain(ts, First(i), s)
    requires ts[s].word == Separator(ts[i].word)
    ensures IsHead(ts, i, size)
  {
    FlatStretch(ts, First(i), s, {Separator(ts[i].word), ";", "end"});
  }

  /** An if with both branches reads as one, without a stray. */
  lemma {:induction false} ElseReads(ts: seq<Tok>, i: nat, x: nat, t: nat, y: nat, e: nat, z: nat, n: nat)
    requires t == HeadEnd(i, x) && y > 0 && e == SimpleEnd(First(t), y) && z > 0 && n == SimpleEnd(First(e), z) && n + 1 < |ts|
    requires IsPlain(ts, First(i), t) && IsPlain(ts, First(t), e) && IsPlain(ts, First(e), n)
    requires ts[i].word == "if" && ts[t].word == "then" && ts[e].word == "else" && ts[n].word == ";"
    ensures var f := Choice(x, Simple(y), Simple(z)); Stands(ts, i, f) && i + Length(f) == n && Strays(i, f) == []
  {
    PlainHead(ts, i, x, t);
    PlainStands(ts, First(t), y, e);
    PlainStands(ts, First(e), z, n);
    assert First(t) == InnerAt(i, x) && e == InnerEnd(i, x, Simple(y)) && First(e) == OtherwiseAt(i, x, Simple(y));
  }

  /** One more statement in front of a row. */
  lemma {:induction false} RowGrows(ts: seq<Tok>, p: nat, f: Form, closed: bool, rest: List, stops: set<string>, next: nat)
    requires WordAt(ts, p) !in stops && StandsItem(ts, p, f, false) && Separated(ts, p, f, closed)
    requires next == Behind(p, f, closed) && StandsAll(ts, next, rest, stops, false)
    ensures StandsAll(ts, p, Item(f, closed, rest), stops, false)
  {
  }

  /** A row of one simple statement before an `end`. */
  lemma {:induction false} PlainRow(ts: seq<Tok>, p: nat, size: nat, n: nat)
    requires n == SimpleEnd(p, size) && size > 0 && IsPlain(ts, p, n) && n + 1 < |ts| && ts[n].word == "end"
    ensures StandsAll(ts, p, Item(Simple(size), false, Done), ENDS, false)
  {
    PlainStands(ts, p, size, n);
    RowGrows(ts, p, Simple(size), false, Done, ENDS, n);
  }

  /** A row of a simple statement, an `else` that belongs to no if, and another simple statement. */
  lemma {:induction false} StrayRow(ts: seq<Tok>, p: nat, y: nat, e: nat, z: nat, n: nat)
    requires e == SimpleEnd(p, y) && y > 0 && n == SimpleEnd(First(e), z) && z > 0 && n + 1 < |ts|
    requires IsPlain(ts, p, e) && IsPlain(ts, First(e), n) && ts[e].word == "else" && ts[n].word == "end"
    ensures StandsAll(ts, p, Item(Simple(y), false, Item(Stray, false, Item(Simple(z), false, Done))), ENDS, false)
  {
    PlainRow(ts, First(e), z, n);
    RowGrows(ts, e, Stray, false, Item(Simple(z), false, Done), ENDS, First(e));
    PlainStands(ts, p, y, e);
    RowGrows(ts, p, Simple(y), false, Item(Stray, false, Item(Simple(z), false, Done)), ENDS, e);
  }

  lemma {:induction false} StraysOfRow(p: nat, y: nat, e: nat, z: nat)
    requires e == SimpleEnd(p, y)
    ensures StraysAll(p, Item(Simple(y), false, Item(Stray, false, Item(Simple(z), false, Done)))) == [e]
    ensures LengthAll(Item(Simple(y), false, Item(Stray, false, Item(Simple(z), false, Done)))) == y + 1 + z
  {
    var last := Item(Simple(z), false, Done);
    assert LengthAll(last) == z && LengthAll(Item(Stray, false, last)) == 1 + z;
    assert StraysAll(First(e), last) == [];
    assert StraysAll(e, Item(Stray, false, last)) == [e];
  }

  /** The `else` of a case statement is a stray: the parser notes a problem there. */
  lemma {:induction false} CaseElseIsStray(ts: seq<Tok>, i: nat, x: nat, o: nat, y: nat, e: nat, z: nat, n: nat)
    requires o == HeadEnd(i, x) && y > 0 && e == SimpleEnd(First(o), y) && z > 0 && n == SimpleEnd(First(e), z) && n + 2 < |ts|
    requires IsPlain(ts, First(i), o) && IsPlain(ts, First(o), e) && IsPlain(ts, First(e), n)
    requires ts[i].word == "case" && ts[o].word == "of" && ts[e].word == "else" && ts[n].word == "end"
    ensures var f := Selection(x, Item(Simple(y), false, Item(Stray, false, Item(Simple(z), false, Done))));
            Stands(ts, i, f) && i + Length(f) == n + 1 && Strays(i, f) == [e]
  {
    FlatStretch(ts, First(i), o, OF);
    StrayRow(ts, First(o), y, e, z, n);
    StraysOfRow(First(o), y, e, z);
    CaseOfRow(ts, i, x, o, Item(Simple(y), false, Item(Stray, false, Item(Simple(z), false, Done))), n);
  }

  /** The `end` of a block behind a case label ends the case statement. */
  lemma {:induction false} ArmEndsCase(ts: seq<Tok>, i: nat, x: nat, o: nat, b: nat, y: nat, n: nat)
    requires o == HeadEnd(i, x) && o + 1 < b < n && n == SimpleEnd(First(o), y) && n + 2 < |ts|
    requires IsPlain(ts, First(i), o) && IsPlain(ts, First(o), b) && IsPlain(ts, First(b), n) && !IsBracket(ts[b])
    requires ts[i].word == "case" && ts[o].word == "of" && ts[b].word == "begin" && ts[n].word == "end"
    ensures var f := Selection(x, Item(Simple(y), false, Done)); Stands(ts, i, f) && i + Length(f) == n + 1
  {
    FlatStretch(ts, First(i), o, OF);
    ArmStands(ts, First(o), b, y, n);
    CaseOfRow(ts, i, x, o, Item(Simple(y), false, Done), n);
  }

  lemma {:induction false} ArmStands(ts: seq<Tok>, p: nat, b: nat, y: nat, n: nat)
    requires p < b < n == SimpleEnd(p, y) && n + 1 < |ts|
    requires IsPlain(ts, p, b) && IsPlain(ts, First(b), n) && !IsBracket(ts[b]) && ts[b].word == "begin" && ts[n].word == "end"
    ensures StandsAll(ts, p, Item(Simple(y), false, Done), ENDS, false) && LengthAll(Item(Simple(y), false, Done)) == y
  {
    assert ts[b].word !in SIMPLE_STOPS;
    FlatStretch(ts, p, n, SIMPLE_STOPS);
    assert Stands(ts, p, Simple(y));
    RowGrows(ts, p, Simple(y), false, Done, ENDS, n);
  }

  lemma {:induction false} CaseOfRow(ts: seq<Tok>, i: nat, x: nat, o: nat, body: List, n: nat)
    requires o == HeadEnd(i, x) && IsStretch(ts, First(i), o, OF) && ts[i].word == "case"
    requires StandsAll(ts, First(o), body, ENDS, false) && n == First(o) + LengthAll(body) && n + 2 < |ts|
    ensures Stands(ts, i, Selection(x, body)) && i + Length(Selection(x, body)) == n + 1 && Strays(i, Selection(x, body)) == StraysAll(First(o), body)
  {
    assert First(o) == InnerAt(i, x);
  }

  /** The condition of a repeat statement takes an `else` behind it, so the if around it has no other branch. */
  lemma {:induction false} UntilTakesElse(ts: seq<Tok>, i: nat, x: nat, t: nat, y: nat, u: nat, e: nat, z: nat, n: nat)
    requires t == HeadEnd(i, x) && y > 0 && u == SimpleEnd(t + 2, y) && u < e < n == SimpleEnd(First(u), z) && n + 1 < |ts|
    requires IsPlain(ts, First(i), t) && IsPlain(ts, t + 2, u) && IsPlain(ts, First(u), e) && IsPlain(ts, First(e), n) && !IsBracket(ts[e])
    requires ts[i].word == "if" && ts[t].word == "then" && ts[t + 1].word == "repeat" && ts[u].word == "until"
    requires ts[e].word == "else" && ts[n].word == ";"
    ensures var f := Single(x, Repetition(Item(Simple(y), false, Done), z)); Stands(ts, i, f) && i + Length(f) == n
  {
    PlainHead(ts, i, x, t);
    UntilReads(ts, First(t), y, u, e, z, n);
    assert First(t) == InnerAt(i, x) && n == InnerEnd(i, x, Repetition(Item(Simple(y), false, Done), z));
  }

  lemma {:induction false} UntilReads(ts: seq<Tok>, r: nat, y: nat, u: nat, e: nat, z: nat, n: nat)
    requires y > 0 && u == SimpleEnd(First(r), y) && u < e < n == SimpleEnd(First(u), z) && n + 1 < |ts|
    requires IsPlain(ts, First(r), u) && IsPlain(ts, First(u), e) && IsPlain(ts, First(e), n) && !IsBracket(ts[e])
    requires ts[r].word == "repeat" && ts[u].word == "until" && ts[e].word == "else" && ts[n].word == ";"
    ensures var f := Repetition(Item(Simple(y), false, Done), z); Stands(ts, r, f) && r + Length(f) == n
  {
    var body := Item(Simple(y), false, Done);
    PlainStands(ts, First(r), y, u);
    RowGrows(ts, First(r), Simple(y), false, Done, UNTIL, u);
    assert ts[e].word !in CONDITION_STOPS && First(u) == TailAt(r, body);
    FlatStretch(ts, First(u), n, CONDITION_STOPS);
  }

  /** A program whose block is an if with an else is one that parses without a problem. */
  lemma {:induction false} ProgramReads(ts: seq<Tok>, h: nat, x: nat, t: nat, y: nat, e: nat, z: nat, n: nat)
    requires Parser.IsHeader(ts, 0, h) && n + 4 == |ts|
    requires t == HeadEnd(h + 2, x) && y > 0 && e == SimpleEnd(First(t), y) && z > 0 && n == SimpleEnd(First(e), z)
    requires IsPlain(ts, h + 3, t) && IsPlain(ts, First(t), e) && IsPlain(ts, First(e), n)
    requires ts[h + 1].word == "begin" && ts[h + 2].word == "if" && ts[t].word == "then" && ts[e].word == "else" && ts[n].word == ";"
    requires ts[n + 1].word == "end" && ts[n + 2].word == "." && ts[n + 2].kind == Symbol
    ensures var body := Item(Choice(x, Simple(y), Simple(z)), true, Done); Parser.IsProgram(ts, h, body) && StraysAll(h + 2, body) == []
  {
    var i := First(First(h));
    ElseReads(ts, i, x, t, y, e, z, n);
    ProgramOf(ts, h, i, Choice(x, Simple(y), Simple(z)), n);
  }

  /** A program of one statement. */
  lemma {:induction false} ProgramOf(ts: seq<Tok>, h: nat, i: nat, f: Form, n: nat)
    requires Parser.IsHeader(ts, 0, h) && i == First(First(h)) && n + 4 == |ts| && ts[h + 1].word == "begin"
    requires Stands(ts, i, f) && !f.Stray? && n == i + Length(f) && Strays(i, f) == [] && WordAt(ts, i) !in ENDS
    requires ts[n].word == ";" && ts[n + 1].word == "end" && ts[n + 2].word == "." && ts[n + 2].kind == Symbol
    ensures Parser.IsProgram(ts, h, Item(f, true, Done)) && StraysAll(i, Item(f, true, Done)) == []
  {
    ClosedRow(ts, i, f, n);
    BlockStands(ts, First(h), Item(f, true, Done), n + 1);
  }

  lemma {:induction false} ClosedRow(ts: seq<Tok>, p: nat, f: Form, n: nat)
    requires Stands(ts, p, f) && !f.Stray? && n == p + Length(f) && n + 3 < |ts| && WordAt(ts, p) !in ENDS
    requires ts[n].word == ";" && ts[n + 1].word == "end" && Strays(p, f) == []
    ensures StandsAll(ts, p, Item(f, true, Done), ENDS, false) && p + LengthAll(Item(f, true, Done)) == n + 1
    ensures StraysAll(p, Item(f, true, Done)) == []
  {
    RowGrows(ts, p, f, true, Done, ENDS, n + 1);
  }

  lemma {:induction false} BlockStands(ts: seq<Tok>, i: nat, body: List, m: nat)
    requires i < |ts| && ts[i].word == "begin" && StandsAll(ts, First(i), body, ENDS, false)
    requires m == First(i) + LengthAll(body) && m + 2 < |ts|
    ensures Stands(ts, i, Compound(body)) && i + Length(Compound(body)) == m + 1
  {
  }
}
