/** Statements: mutually recursive methods that share one cursor. Each takes, as a ghost, any reading of
    the tokens before it, and does what the reading says if the tokens read that way. */
module ParserStatements {
  import opened Wrappers
  import opened TokenLists
  import opened ParserCursor
  import opened StatementGrammar
  import opened StatementReadings
  import Expressions

  method ParseBeginBlock(c: Cursor, ghost body: List) returns (tree: Option<Statement>)
    requires c.Valid() && !c.AtEnd() && c.Word() == "begin"
    modifies c
    ensures c.Ahead(old(c.index) + 1, old(c.problems))
    ensures Reads(c.tokens, old(c.index), Compound(body), old(c.problems), c.index, c.problems, tree)
    decreases c.Left(), 0
  {
    var _ := c.Advance();
    ghost var first := c.index;
    var parts := ParseStatements(c, ENDS, body);
    BlockReads(c.tokens, old(c.index), body, old(c.problems), first, c.index, c.problems, parts);
    var _ := c.Accept("end");
    tree := Some(Block(parts));
  }

  /** Statements up to a stop or the end of the text; every turn consumes a token. */
  method ParseStatements(c: Cursor, stops: set<string>, ghost list: List) returns (trees: seq<Statement>)
    requires c.Valid()
    modifies c
    ensures c.Ahead(old(c.index), old(c.problems))
    ensures c.AtEnd() || c.Word() in stops
    ensures ReadsAll(c.tokens, old(c.index), list, stops, false, old(c.problems), c.index, c.problems, trees)
    decreases c.Left(), 2
  {
    trees := [];
    ghost var rest, places := list, [];
    MidwayStarts(c.tokens, c.index, list, stops, false, c.problems);
    while !c.AtEnd() && c.Word() !in stops
      invariant c.Ahead(old(c.index), old(c.problems))
      invariant Midway(c.tokens, old(c.index), list, stops, false, old(c.problems), c.index, rest, c.problems, places, trees)
      decreases c.Left()
    {
      var before := c.index;
      ghost var now := c.problems;
      var tree := ParseStatement(c, Unstrayed(FormOf(rest)));
      StatementIsItem(c.tokens, before, FormOf(rest), false, now, c.index, c.problems, tree);
      ghost var q, mid := c.index, c.problems;
      var _ := c.Accept(";");
      c.EnsureProgress(before);
      TurnConcludes(c.tokens, before, q, mid, c.index, c.problems);
      places := MidwayTurns(c.tokens, old(c.index), list, stops, false, old(c.problems), before, rest, now, places, trees,
                            q, mid, tree, c.index, c.problems);
      trees, rest := trees + Part(tree), RestOf(rest);
    }
    MidwayEnds(c.tokens, old(c.index), list, stops, false, old(c.problems), c.index, rest, c.problems, places, trees);
  }

  method ParseStatement(c: Cursor, ghost f: Form) returns (tree: Option<Statement>)
    requires c.Valid()
    modifies c
    ensures c.Ahead(old(c.index), old(c.problems))
    ensures Reads(c.tokens, old(c.index), f, old(c.problems), c.index, c.problems, tree)
    decreases c.Left(), 1
  {
    var word := c.Word();
    FirstWord(c.tokens, c.index, f);
    if word == "begin" {
      tree := ParseBeginBlock(c, if f.Compound? then f.body else Done);
    } else if StartsControl(word) {
      tree := ParseControl(c, if f.Single? || f.Choice? then f else Single(0, Nothing));
    } else if word == "repeat" {
      tree := ParseRepeat(c, if f.Repetition? then f else Repetition(Done, 0));
    } else if word == "try" {
      tree := ParseTryStatement(c, if f.Guarded? || f.Protected? then f else Guarded(Done, Done));
    } else if word == "case" {
      tree := ParseCase(c, if f.Selection? then f else Selection(0, Done));
    } else if word == "asm" {
      tree := ParseAssembly(c, if f.Assembly? then f else Assembly(0));
    } else if !Terminates(word) {
      tree := ParseSimple(c, if f.Simple? || f.Nothing? then f else Nothing);
    } else {
      NoticedNone(c.tokens, c.problems);
      tree := None;
    }
  }

  /** An if, for, while or with statement. */
  method ParseControl(c: Cursor, ghost f: Form) returns (tree: Option<Statement>)
    requires c.Valid() && !c.AtEnd() && StartsControl(c.Word()) && (f.Single? || f.Choice?)
    modifies c
    ensures c.Ahead(old(c.index) + 1, old(c.problems))
    ensures Reads(c.tokens, old(c.index), f, old(c.problems), c.index, c.problems, tree)
    decreases c.Left(), 0
  {
    var word := c.Word();
    var _ := c.Advance();
    ghost var first := c.index;
    var separator := if word == "if" then "then" else "do";
    var values := c.CollectUntil({separator, ";", "end"}, false);
    HeadStretch(c.tokens, old(c.index), f, first, c.index, {separator, ";", "end"});
    var condition := Expressions.MakeDirect(values);
    var _ := c.Accept(separator);
    ghost var a := c.index;
    var child := ParseStatement(c, f.inner);
    ghost var m, mid := c.index, c.problems;
    var more := ParseElse(c, word, OtherwiseOf(f));
    tree := Some(Control(word, condition, Part(child) + more));
    if f.Single? {
      SingleReads(c.tokens, old(c.index), f.size, f.inner, condition, old(c.problems), a, m, mid, child, c.index, c.problems, more);
    } else {
      ChoiceReads(c.tokens, old(c.index), f.size, f.inner, f.otherwise, condition, old(c.problems), a, m, mid, child, c.index, c.problems, more);
    }
  }

  /** The branch behind `else`, where an if has one. */
  method ParseElse(c: Cursor, word: string, ghost f: Form) returns (more: seq<Statement>)
    requires c.Valid()
    modifies c
    ensures c.Ahead(old(c.index), old(c.problems))
    ensures ReadsElse(c.tokens, word, old(c.index), f, old(c.problems), c.index, c.problems, more)
    decreases c.Left(), 2
  {
    more := [];
    if word == "if" {
      var otherwise := c.Accept("else");
      if otherwise {
        var other := ParseStatement(c, f);
        more := [Else(Part(other))];
        assert ReadsOther(c.tokens, First(old(c.index)), f, old(c.problems), c.index, c.problems, more, other);
      }
    }
  }

  method ParseRepeat(c: Cursor, ghost f: Form) returns (tree: Option<Statement>)
    requires c.Valid() && !c.AtEnd() && c.Word() == "repeat" && f.Repetition?
    modifies c
    ensures c.Ahead(old(c.index) + 1, old(c.problems))
    ensures Reads(c.tokens, old(c.index), f, old(c.problems), c.index, c.problems, tree)
    decreases c.Left(), 0
  {
    var _ := c.Advance();
    ghost var first := c.index;
    var parts := ParseStatements(c, {"until"}, f.body);
    ghost var u := c.index;
    var _ := c.Accept("until");
    ghost var a := c.index;
    var values := c.CollectUntil({";", "end"}, false);
    var condition := Expressions.MakeDirect(values);
    RepeatReads(c.tokens, old(c.index), f.body, f.size, old(c.problems), first, u, c.problems, parts, a, c.index);
    tree := Some(Repeat(parts, condition));
  }

  method ParseCase(c: Cursor, ghost f: Form) returns (tree: Option<Statement>)
    requires c.Valid() && !c.AtEnd() && c.Word() == "case" && f.Selection?
    modifies c
    ensures c.Ahead(old(c.index) + 1, old(c.problems))
    ensures Reads(c.tokens, old(c.index), f, old(c.problems), c.index, c.problems, tree)
    decreases c.Left(), 0
  {
    var _ := c.Advance();
    ghost var first := c.index;
    var values := c.CollectUntil({"of"}, false);
    CaseStretch(c.tokens, old(c.index), f.size, f.body, first, c.index);
    var selector := Expressions.MakeDirect(values);
    var _ := c.Accept("of");
    ghost var a := c.index;
    var parts := ParseStatements(c, ENDS, f.body);
    CaseReads(c.tokens, old(c.index), f.size, f.body, selector, old(c.problems), a, c.index, c.problems, parts);
    var _ := c.Accept("end");
    tree := Some(Case(selector, parts));
  }

  method ParseAssembly(c: Cursor, ghost f: Form) returns (tree: Option<Statement>)
    requires c.Valid() && !c.AtEnd() && c.Word() == "asm" && f.Assembly?
    modifies c
    ensures c.Ahead(old(c.index) + 1, old(c.problems))
    ensures Reads(c.tokens, old(c.index), f, old(c.problems), c.index, c.problems, tree)
    decreases c.Left(), 0
  {
    var _ := c.Advance();
    c.Synchronize(ENDS);
    AssemblyReads(c.tokens, old(c.index), f.size, c.problems, c.index);
    var _ := c.Accept("end");
    tree := Some(Asm);
  }

  /** An assignment has two trees, any other simple statement one. */
  method ParseSimple(c: Cursor, ghost f: Form) returns (tree: Option<Statement>)
    requires c.Valid() && !IsKeyed(c.Word()) && !Terminates(c.Word()) && (f.Simple? || f.Nothing?)
    modifies c
    ensures c.Ahead(old(c.index), old(c.problems))
    ensures Reads(c.tokens, old(c.index), f, old(c.problems), c.index, c.problems, tree)
    decreases c.Left(), 0
  {
    var values := c.CollectUntil({";", "end", "else", "until", "except", "finally"}, false);
    SimpleReads(c.tokens, old(c.index), f, c.problems, c.index);
    var k: nat := 0;
    while k < |values| && values[k].word != ":="
      invariant k <= |values| && AssignAt(values, 0) == AssignAt(values, k)
    {
      k := k + 1;
    }
    if k < |values| {
      var left := Expressions.MakeExpression(values[..k]);
      var right := Expressions.MakeExpression(values[k + 1..]);
      tree := Some(Assign(left, right));
    } else {
      var e := Expressions.MakeDirect(values);
      tree := if e.Some? then Some(Plain(e.value)) else None;
    }
  }

  method ParseTryStatement(c: Cursor, ghost f: Form) returns (tree: Option<Statement>)
    requires c.Valid() && !c.AtEnd() && c.Word() == "try" && (f.Guarded? || f.Protected?)
    modifies c
    ensures c.Ahead(old(c.index) + 1, old(c.problems))
    ensures Reads(c.tokens, old(c.index), f, old(c.problems), c.index, c.problems, tree)
    decreases c.Left(), 0
  {
    var _ := c.Advance();
    ghost var first := c.index;
    var parts := ParseStatements(c, {"except", "finally", "end"}, f.body);
    ghost var e, mid := c.index, c.problems;
    var tail := ParseTail(c, TailOf(f));
    TryReads(c.tokens, old(c.index), f, old(c.problems), first, e, mid, parts, c.index, c.problems, tail);
    var _ := c.Accept("end");
    tree := Some(Try(parts + tail));
  }

  /** The handlers or the final part of a try statement. */
  method ParseTail(c: Cursor, ghost list: List) returns (tail: seq<Statement>)
    requires c.Valid()
    modifies c
    ensures c.Ahead(old(c.index), old(c.problems))
    ensures ReadsTail(c.tokens, old(c.index), list, old(c.problems), c.index, c.problems, tail)
    decreases c.Left(), 4
  {
    tail := [];
    var excepts := c.Accept("except");
    if excepts {
      var more := ParseHandlers(c, list);
      tail := [Except(more)];
    } else {
      var finalizes := c.Accept("finally");
      if finalizes {
        var more := ParseStatements(c, ENDS, list);
        tail := [Finally(more)];
      }
    }
  }

  method ParseHandlers(c: Cursor, ghost list: List) returns (trees: seq<Statement>)
    requires c.Valid()
    modifies c
    ensures c.Ahead(old(c.index), old(c.problems))
    ensures c.AtEnd() || c.Word() == "end"
    ensures ReadsAll(c.tokens, old(c.index), list, ENDS, true, old(c.problems), c.index, c.problems, trees)
    decreases c.Left(), 3
  {
    trees := [];
    ghost var rest, places := list, [];
    MidwayStarts(c.tokens, c.index, list, ENDS, true, c.problems);
    while !c.AtEnd() && !c.AtWord("end")
      invariant c.Ahead(old(c.index), old(c.problems))
      invariant Midway(c.tokens, old(c.index), list, ENDS, true, old(c.problems), c.index, rest, c.problems, places, trees)
      decreases c.Left()
    {
      var before := c.index;
      ghost var now := c.problems;
      var tree := ParseHandler(c, FormOf(rest));
      ghost var q, mid := c.index, c.problems;
      var _ := c.Accept(";");
      c.EnsureProgress(before);
      TurnConcludes(c.tokens, before, q, mid, c.index, c.problems);
      places := MidwayTurns(c.tokens, old(c.index), list, ENDS, true, old(c.problems), before, rest, now, places, trees,
                            q, mid, tree, c.index, c.problems);
      trees, rest := trees + Part(tree), RestOf(rest);
    }
    MidwayEnds(c.tokens, old(c.index), list, ENDS, true, old(c.problems), c.index, rest, c.problems, places, trees);
  }

  /** One handler, the statement behind `else`, or a statement without either. */
  method ParseHandler(c: Cursor, ghost f: Form) returns (tree: Option<Statement>)
    requires c.Valid() && !c.AtEnd()
    modifies c
    ensures c.Ahead(old(c.index), old(c.problems))
    ensures ReadsItem(c.tokens, old(c.index), f, true, old(c.problems), c.index, c.problems, tree)
    decreases c.Left(), 2
  {
    HandlerWord(c.tokens, c.index, f);
    var handles := c.Accept("on");
    if handles {
      ghost var clause := if f.OnClause? then f else OnClause(0, Nothing);
      ghost var first := c.index;
      var _ := c.CollectUntil({"do", ";", "end"}, false);
      OnStretch(c.tokens, old(c.index), clause.size, clause.inner, first, c.index);
      var _ := c.Accept("do");
      ghost var a := c.index;
      var child := ParseStatement(c, clause.inner);
      OnReads(c.tokens, old(c.index), clause.size, clause.inner, old(c.problems), a, c.index, c.problems, child);
      tree := Some(Handler(Part(child)));
    } else {
      var otherwise := c.Accept("else");
      if otherwise {
        ghost var first := c.index;
        tree := ParseStatement(c, if f.ElseClause? then f.inner else Nothing);
        ElseReads(c.tokens, old(c.index), if f.ElseClause? then f.inner else Nothing, old(c.problems), first, c.index, c.problems, tree);
      } else {
        tree := ParseStatement(c, Unstrayed(f));
        StatementIsItem(c.tokens, old(c.index), f, true, old(c.problems), c.index, c.problems, tree);
      }
    }
  }
}
