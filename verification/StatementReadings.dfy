/** What parsing does on tokens that read as a statement: it consumes exactly them, notes exactly the
    strays and makes the tree of the reading. Each lemma is one step of a parsing method. */
module StatementReadings {
  import opened Wrappers
  import opened TokenLists
  import opened ParserCursor
  import opened StatementGrammar
  import Expressions

  lemma {:induction false} NoticedNone(ts: seq<Tok>, before: seq<Problem>)
    requires |before| <= MAX_PROBLEMS
    ensures Noticed(ts, before, before, [])
  {
    assert before + Marks(ts, []) == before;
  }

  lemma {:induction false} NoticedOne(ts: seq<Tok>, before: seq<Problem>, k: nat)
    requires |before| <= MAX_PROBLEMS && k < |ts|
    ensures Noticed(ts, before, Added(before, STUCK, ts[k]), [k])
  {
    assert Marks(ts, [k]) == [Stuck(ts, k)];
  }

  lemma {:induction false} NoticedBoth(ts: seq<Tok>, a: seq<Problem>, b: seq<Problem>, c: seq<Problem>, x: seq<nat>, y: seq<nat>)
    requires Noticed(ts, a, b, x) && Noticed(ts, b, c, y)
    ensures Noticed(ts, a, c, x + y)
  {
    var first, second := a + Marks(ts, x), Marks(ts, y);
    assert Marks(ts, x + y) == Marks(ts, x) + second;
    assert a + (Marks(ts, x) + second) == first + second;
    if |first| > MAX_PROBLEMS {
      assert (first[..MAX_PROBLEMS] + second)[..MAX_PROBLEMS] == first[..MAX_PROBLEMS];
      assert (first + second)[..MAX_PROBLEMS] == first[..MAX_PROBLEMS];
      if |second| == 0 {
        assert first[..MAX_PROBLEMS] + second == first[..MAX_PROBLEMS];
      }
    }
  }

  // ----- what reading does -----

  /** Exactly the tokens of the statement were consumed, its strays were noted and its tree was made. */
  ghost predicate Did(ts: seq<Tok>, i: nat, f: Form, before: seq<Problem>, index: nat, after: seq<Problem>, tree: Option<Statement>) {
    index == i + Length(f) && Noticed(ts, before, after, Strays(i, f)) && tree == Tree(ts, i, f)
  }

  /** If the tokens read as the statement, this was done. */
  ghost predicate Reads(ts: seq<Tok>, i: nat, f: Form, before: seq<Problem>, index: nat, after: seq<Problem>, tree: Option<Statement>) {
    Stands(ts, i, f) ==> Did(ts, i, f, before, index, after, tree)
  }

  /** The same for a row of statements. */
  ghost predicate ReadsAll(ts: seq<Tok>, p: nat, list: List, stops: set<string>, handling: bool,
                           before: seq<Problem>, index: nat, after: seq<Problem>, trees: seq<Statement>)
  {
    StandsAll(ts, p, list, stops, handling) ==>
      index == p + LengthAll(list) && Noticed(ts, before, after, StraysAll(p, list)) && trees == Trees(ts, p, list)
  }

  /** A row is read up to `p`, where `rest` is left. */
  ghost predicate Midway(ts: seq<Tok>, start: nat, list: List, stops: set<string>, handling: bool, before: seq<Problem>,
                         p: nat, rest: List, after: seq<Problem>, places: seq<nat>, trees: seq<Statement>)
  {
    StandsAll(ts, start, list, stops, handling) ==>
      && StandsAll(ts, p, rest, stops, handling) && p + LengthAll(rest) == start + LengthAll(list)
      && Noticed(ts, before, after, places) && places + StraysAll(p, rest) == StraysAll(start, list)
      && trees + Trees(ts, p, rest) == Trees(ts, start, list)
  }

  lemma {:induction false} MidwayStarts(ts: seq<Tok>, start: nat, list: List, stops: set<string>, handling: bool, before: seq<Problem>)
    requires |before| <= MAX_PROBLEMS
    ensures Midway(ts, start, list, stops, handling, before, start, list, before, [], [])
  {
    NoticedNone(ts, before);
    assert [] + StraysAll(start, list) == StraysAll(start, list);
    assert [] + Trees(ts, start, list) == Trees(ts, start, list);
  }

  /** What one of the statements in a row does to the cursor and the problems; at a stray nothing is done. */
  ghost predicate DidItem(ts: seq<Tok>, p: nat, f: Form, before: seq<Problem>, index: nat, after: seq<Problem>) {
    if f.Stray? then index == p && after == before else index == p + Length(f) && Noticed(ts, before, after, Strays(p, f))
  }

  ghost predicate ReadsItem(ts: seq<Tok>, p: nat, f: Form, handling: bool,
                            before: seq<Problem>, index: nat, after: seq<Problem>, tree: Option<Statement>)
  {
    StandsItem(ts, p, f, handling) ==> DidItem(ts, p, f, before, index, after) && tree == Tree(ts, p, f)
  }

  /** What accepting a semicolon and insisting on progress do behind it. */
  ghost predicate Concludes(ts: seq<Tok>, p: nat, q: nat, mid: seq<Problem>, next: nat, after: seq<Problem>) {
    if WordAt(ts, q) == ";" then next == q + 1 && after == mid
    else if q > p then next == q && after == mid
    else q == p && next == p + 1 && Noticed(ts, mid, after, [p])
  }

  function FormOf(list: List): Form {
    if list.Item? then list.form else Nothing
  }

  function RestOf(list: List): List {
    if list.Item? then list.rest else Done
  }

  lemma {:induction false} ItemIsDone(ts: seq<Tok>, p: nat, list: List, stops: set<string>, handling: bool,
                                      before: seq<Problem>, index: nat, after: seq<Problem>, tree: Option<Statement>)
    requires StandsAll(ts, p, list, stops, handling) && list.Item? && ReadsItem(ts, p, list.form, handling, before, index, after, tree)
    ensures DidItem(ts, p, list.form, before, index, after) && tree == Tree(ts, p, list.form)
    ensures Separated(ts, p, list.form, list.closed) && (list.form.Stray? ==> Terminates(WordAt(ts, p)))
  {
  }

  lemma {:induction false} ItemConcludes(ts: seq<Tok>, p: nat, size: nat, stray: bool, closed: bool, strays: seq<nat>, before: seq<Problem>,
                                         q: nat, mid: seq<Problem>, next: nat, after: seq<Problem>)
    requires if stray then q == p && mid == before && size == 1 && strays == [p] else q == p + size && Noticed(ts, before, mid, strays)
    requires if closed then !stray && WordAt(ts, p + size) == ";" else stray || (q > p && Terminates(WordAt(ts, p + size)))
    requires stray ==> Terminates(WordAt(ts, p))
    requires Concludes(ts, p, q, mid, next, after)
    ensures next == p + size + (if closed then 1 else 0)
    ensures Noticed(ts, before, after, strays)
  {
  }

  /** What a turn does behind its statement is what `Concludes` says. */
  lemma {:induction false} TurnConcludes(ts: seq<Tok>, p: nat, q: nat, mid: seq<Problem>, next: nat, after: seq<Problem>)
    requires p <= q < |ts| && |mid| <= MAX_PROBLEMS
    requires if ts[q].word == ";" then next == q + 1 && after == mid
             else if q > p then next == q && after == mid
             else next == p + 1 && after == Added(mid, STUCK, ts[p])
    ensures Concludes(ts, p, q, mid, next, after)
  {
    NoticedOne(ts, mid, p);
  }

  lemma {:induction false} RestStands(ts: seq<Tok>, p: nat, f: Form, closed: bool, rest: List, stops: set<string>, handling: bool, next: nat)
    requires StandsAll(ts, p, Item(f, closed, rest), stops, handling) && next == Behind(p, f, closed)
    ensures StandsAll(ts, next, rest, stops, handling) && next + LengthAll(rest) == p + LengthAll(Item(f, closed, rest))
  {
  }

  lemma {:induction false} RestStrays(p: nat, f: Form, closed: bool, rest: List, next: nat)
    requires next == Behind(p, f, closed)
    ensures StraysAll(p, Item(f, closed, rest)) == Strays(p, f) + StraysAll(next, rest)
  {
  }

  lemma {:induction false} RestTrees(ts: seq<Tok>, p: nat, f: Form, closed: bool, rest: List, next: nat)
    requires next == Behind(p, f, closed)
    ensures Trees(ts, p, Item(f, closed, rest)) == Part(Tree(ts, p, f)) + Trees(ts, next, rest)
  {
  }

  lemma {:induction false} Regroup<T>(a: seq<T>, b: seq<T>, c: seq<T>, whole: seq<T>)
    requires a + (b + c) == whole
    ensures (a + b) + c == whole
  {
  }

  lemma {:induction false} ItemNotes(ts: seq<Tok>, p: nat, f: Form, closed: bool, now: seq<Problem>,
                                     q: nat, mid: seq<Problem>, next: nat, after: seq<Problem>)
    requires DidItem(ts, p, f, now, q, mid) && Separated(ts, p, f, closed) && (f.Stray? ==> Terminates(WordAt(ts, p)))
    requires Concludes(ts, p, q, mid, next, after)
    ensures next == Behind(p, f, closed) && Noticed(ts, now, after, Strays(p, f))
  {
    if f.Stray? {
      ItemConcludes(ts, p, 1, true, closed, [p], now, q, mid, next, after);
    } else {
      ItemConcludes(ts, p, Length(f), false, closed, Strays(p, f), now, q, mid, next, after);
    }
  }

  /** One of the statements in a row is read, and the rest of them is left. */
  lemma {:induction false} ItemTurns(ts: seq<Tok>, p: nat, rest: List, stops: set<string>, handling: bool, now: seq<Problem>,
                                     q: nat, mid: seq<Problem>, tree: Option<Statement>, next: nat, after: seq<Problem>)
    returns (strays: seq<nat>)
    requires StandsAll(ts, p, rest, stops, handling) && rest.Item?
    requires ReadsItem(ts, p, rest.form, handling, now, q, mid, tree) && Concludes(ts, p, q, mid, next, after)
    ensures StandsAll(ts, next, rest.rest, stops, handling) && next + LengthAll(rest.rest) == p + LengthAll(rest)
    ensures Noticed(ts, now, after, strays) && StraysAll(p, rest) == strays + StraysAll(next, rest.rest)
    ensures Trees(ts, p, rest) == Part(tree) + Trees(ts, next, rest.rest)
  {
    strays := Strays(p, rest.form);
    ItemIsDone(ts, p, rest, stops, handling, now, q, mid, tree);
    ItemNotes(ts, p, rest.form, rest.closed, now, q, mid, next, after);
    RestStands(ts, p, rest.form, rest.closed, rest.rest, stops, handling, next);
    RestStrays(p, rest.form, rest.closed, rest.rest, next);
    RestTrees(ts, p, rest.form, rest.closed, rest.rest, next);
  }

  lemma {:induction false} MidwayTurns(ts: seq<Tok>, start: nat, list: List, stops: set<string>, handling: bool, before: seq<Problem>,
                                       p: nat, rest: List, now: seq<Problem>, places: seq<nat>, trees: seq<Statement>,
                                       q: nat, mid: seq<Problem>, tree: Option<Statement>, next: nat, after: seq<Problem>)
    returns (more: seq<nat>)
    requires Midway(ts, start, list, stops, handling, before, p, rest, now, places, trees)
    requires WordAt(ts, p) !in stops && |now| <= MAX_PROBLEMS
    requires ReadsItem(ts, p, FormOf(rest), handling, now, q, mid, tree) && Concludes(ts, p, q, mid, next, after)
    ensures Midway(ts, start, list, stops, handling, before, next, RestOf(rest), after, more, trees + Part(tree))
  {
    more := places;
    if StandsAll(ts, start, list, stops, handling) {
      var strays := ItemTurns(ts, p, rest, stops, handling, now, q, mid, tree, next, after);
      more := places + strays;
      NoticedBoth(ts, before, now, after, places, strays);
      Regroup(places, strays, StraysAll(next, rest.rest), StraysAll(start, list));
      Regroup(trees, Part(tree), Trees(ts, next, rest.rest), Trees(ts, start, list));
    }
  }

  lemma {:induction false} MidwayEnds(ts: seq<Tok>, start: nat, list: List, stops: set<string>, handling: bool, before: seq<Problem>,
                                      p: nat, rest: List, after: seq<Problem>, places: seq<nat>, trees: seq<Statement>)
    requires Midway(ts, start, list, stops, handling, before, p, rest, after, places, trees)
    requires WordAt(ts, p) in stops || p + 1 >= |ts|
    ensures ReadsAll(ts, start, list, stops, handling, before, p, after, trees)
    ensures StandsAll(ts, start, list, stops, handling) ==> WordAt(ts, p) in stops
  {
    if StandsAll(ts, start, list, stops, handling) {
      assert rest.Done?;
      assert places + [] == places && trees + [] == trees;
    }
  }

  lemma {:induction false} ListEnds(ts: seq<Tok>, p: nat, list: List, stops: set<string>, handling: bool)
    requires StandsAll(ts, p, list, stops, handling)
    ensures WordAt(ts, p + LengthAll(list)) in stops
    decreases list
  {
    if list.Item? {
      ListEnds(ts, Behind(p, list.form, list.closed), list.rest, stops, handling);
    }
  }

  ghost predicate Within(places: seq<nat>, i: nat, j: nat) {
    forall k :: 0 <= k < |places| ==> i <= places[k] < j
  }

  /** Strays stand within the statement. */
  lemma {:induction false} StraysWithin(i: nat, f: Form)
    ensures Within(Strays(i, f), i, i + Length(f))
    decreases f
  {
    match f
    case Compound(body) => StraysAllWithin(First(i), body);
    case Single(size, inner) => StraysWithin(InnerAt(i, size), inner);
    case Choice(size, inner, otherwise) => StraysWithin(InnerAt(i, size), inner); StraysWithin(OtherwiseAt(i, size, inner), otherwise);
    case Repetition(body, _) => StraysAllWithin(First(i), body);
    case Guarded(body, handlers) => StraysAllWithin(First(i), body); StraysAllWithin(TailAt(i, body), handlers);
    case Protected(body, final) => StraysAllWithin(First(i), body); StraysAllWithin(TailAt(i, body), final);
    case Selection(size, body) => StraysAllWithin(InnerAt(i, size), body);
    case OnClause(size, inner) => StraysWithin(InnerAt(i, size), inner);
    case ElseClause(inner) => StraysWithin(First(i), inner);
    case _ =>
  }

  lemma {:induction false} StraysAllWithin(p: nat, list: List)
    ensures Within(StraysAll(p, list), p, p + LengthAll(list))
    decreases list
  {
    if list.Item? {
      StraysWithin(p, list.form);
      StraysAllWithin(Behind(p, list.form, list.closed), list.rest);
    }
  }

  // ----- the statements -----

  /** Where the cursor is behind a word that is accepted if it is there. */
  function Accepted(ts: seq<Tok>, m: nat, word: string): nat {
    if WordAt(ts, m) == word then m + 1 else m
  }

  /** A row before an `end` is read and the word accepted. */
  lemma {:induction false} RowIsRead(ts: seq<Tok>, t: nat, list: List, handling: bool,
                                     mid: seq<Problem>, n: nat, after: seq<Problem>, more: seq<Statement>)
    requires StandsAll(ts, t, list, ENDS, handling) && ReadsAll(ts, t, list, ENDS, handling, mid, n, after, more)
    ensures Noticed(ts, mid, after, StraysAll(t, list)) && more == Trees(ts, t, list) && Accepted(ts, n, "end") == t + LengthAll(list) + 1
  {
    ListEnds(ts, t, list, ENDS, handling);
  }

  /** What the first word says about the reading. */
  lemma {:induction false} FirstWord(ts: seq<Tok>, i: nat, f: Form)
    ensures Stands(ts, i, f) ==>
              if WordAt(ts, i) == "begin" then f.Compound?
              else if StartsControl(WordAt(ts, i)) then f.Single? || f.Choice?
              else if WordAt(ts, i) == "repeat" then f.Repetition?
              else if WordAt(ts, i) == "try" then f.Guarded? || f.Protected?
              else if WordAt(ts, i) == "case" then f.Selection?
              else if WordAt(ts, i) == "asm" then f.Assembly?
              else if Terminates(WordAt(ts, i)) then f.Nothing?
              else f.Simple? || f.Nothing?
  {
  }

  lemma {:induction false} BlockReads(ts: seq<Tok>, i: nat, body: List, before: seq<Problem>,
                                      first: nat, m: nat, after: seq<Problem>, parts: seq<Statement>)
    requires first == First(i) && ReadsAll(ts, first, body, ENDS, false, before, m, after, parts)
    ensures Reads(ts, i, Compound(body), before, Accepted(ts, m, "end"), after, Some(Block(parts)))
  {
    if Stands(ts, i, Compound(body)) {
      ListEnds(ts, first, body, ENDS, false);
    }
  }

  // ----- if, for, while and with -----

  lemma {:induction false} HeadStands(ts: seq<Tok>, i: nat, f: Form)
    requires Stands(ts, i, f) && (f.Single? || f.Choice?)
    ensures IsHead(ts, i, f.size) && Stands(ts, InnerAt(i, f.size), f.inner)
    ensures if f.Single? then WordAt(ts, i) == "if" ==> WordAt(ts, InnerEnd(i, f.size, f.inner)) != "else"
            else WordAt(ts, i) == "if" && WordAt(ts, InnerEnd(i, f.size, f.inner)) == "else"
    ensures f.Choice? ==> Stands(ts, OtherwiseAt(i, f.size, f.inner), f.otherwise)
  {
  }

  lemma {:induction false} HeadStretch(ts: seq<Tok>, i: nat, f: Form, first: nat, s: nat, stops: set<string>)
    requires (f.Single? || f.Choice?) && first == First(i) < |ts|
    requires stops == {Separator(WordAt(ts, i)), ";", "end"} && s == Cursor.StretchEnd(ts, first, FLAT, None, stops, false)
    ensures Stands(ts, i, f) ==> Accepted(ts, s, Separator(WordAt(ts, i))) == InnerAt(i, f.size)
    ensures Stands(ts, i, f) ==> Expressions.Direct(Slice(ts, first, s)) == Condition(ts, First(i), f.size)
  {
    if Stands(ts, i, f) {
      HeadStands(ts, i, f);
      StretchIsCollected(ts, first, HeadEnd(i, f.size), stops);
      assert s == SimpleEnd(first, f.size);
    }
  }

  lemma {:induction false} SingleDid(ts: seq<Tok>, i: nat, size: nat, inner: Form, before: seq<Problem>,
                                     m: nat, mid: seq<Problem>, child: Option<Statement>)
    requires Did(ts, InnerAt(i, size), inner, before, m, mid, child)
    ensures m == InnerEnd(i, size, inner)
    ensures Did(ts, i, Single(size, inner), before, m, mid, Some(Control(WordAt(ts, i), Condition(ts, First(i), size), Part(child) + [])))
  {
    assert Part(child) + [] == Part(child);
  }

  lemma {:induction false} ChoiceDid(ts: seq<Tok>, i: nat, size: nat, inner: Form, otherwise: Form, before: seq<Problem>,
                                     m: nat, mid: seq<Problem>, child: Option<Statement>,
                                     next: nat, index: nat, after: seq<Problem>, other: Option<Statement>)
    requires Did(ts, InnerAt(i, size), inner, before, m, mid, child)
    requires next == m + 1 && Did(ts, next, otherwise, mid, index, after, other)
    ensures Did(ts, i, Choice(size, inner, otherwise), before, index, after,
                Some(Control(WordAt(ts, i), Condition(ts, First(i), size), Part(child) + [Else(Part(other))])))
  {
    assert next == OtherwiseAt(i, size, inner);
    NoticedBoth(ts, before, mid, after, Strays(InnerAt(i, size), inner), Strays(next, otherwise));
  }

  ghost predicate ReadsOther(ts: seq<Tok>, next: nat, f: Form, mid: seq<Problem>,
                             index: nat, after: seq<Problem>, more: seq<Statement>, other: Option<Statement>)
  {
    Reads(ts, next, f, mid, index, after, other) && more == [Else(Part(other))]
  }

  /** What is done behind a branch: the word `else` and the other branch are read if the word is there. */
  ghost predicate ReadsElse(ts: seq<Tok>, word: string, m: nat, f: Form, mid: seq<Problem>,
                            index: nat, after: seq<Problem>, more: seq<Statement>)
  {
    if word == "if" && WordAt(ts, m) == "else" then exists other :: ReadsOther(ts, First(m), f, mid, index, after, more, other)
    else index == m && after == mid && more == []
  }

  lemma {:induction false} SingleHolds(ts: seq<Tok>, i: nat, size: nat, inner: Form, before: seq<Problem>, a: nat,
                                       m: nat, mid: seq<Problem>, child: Option<Statement>)
    requires Stands(ts, i, Single(size, inner)) && a == InnerAt(i, size) && Reads(ts, a, inner, before, m, mid, child)
    ensures Did(ts, i, Single(size, inner), before, m, mid, Some(Control(WordAt(ts, i), Condition(ts, First(i), size), Part(child) + [])))
    ensures WordAt(ts, i) == "if" ==> WordAt(ts, m) != "else"
  {
    HeadStands(ts, i, Single(size, inner));
    SingleDid(ts, i, size, inner, before, m, mid, child);
  }

  lemma {:induction false} SingleReads(ts: seq<Tok>, i: nat, size: nat, inner: Form, condition: Option<Expressions.Expr>, before: seq<Problem>, a: nat,
                                       m: nat, mid: seq<Problem>, child: Option<Statement>,
                                       index: nat, after: seq<Problem>, more: seq<Statement>)
    requires Stands(ts, i, Single(size, inner)) ==> a == InnerAt(i, size) && condition == Condition(ts, First(i), size)
    requires Reads(ts, a, inner, before, m, mid, child)
    requires ReadsElse(ts, WordAt(ts, i), m, Nothing, mid, index, after, more)
    ensures Reads(ts, i, Single(size, inner), before, index, after,
                  Some(Control(WordAt(ts, i), condition, Part(child) + more)))
  {
    if Stands(ts, i, Single(size, inner)) {
      SingleHolds(ts, i, size, inner, before, a, m, mid, child);
    }
  }

  lemma {:induction false} ElseIsThere(ts: seq<Tok>, i: nat, size: nat, inner: Form, otherwise: Form, m: nat, next: nat)
    requires Stands(ts, i, Choice(size, inner, otherwise)) && m == InnerAt(i, size) + Length(inner) && next == m + 1
    ensures WordAt(ts, i) == "if" && WordAt(ts, m) == "else" && Stands(ts, next, otherwise)
  {
    HeadStands(ts, i, Choice(size, inner, otherwise));
    assert m == InnerEnd(i, size, inner) && next == OtherwiseAt(i, size, inner);
  }

  lemma {:induction false} InnerStands(ts: seq<Tok>, i: nat, size: nat, inner: Form, otherwise: Form, before: seq<Problem>, a: nat,
                                       m: nat, mid: seq<Problem>, child: Option<Statement>)
    requires Stands(ts, i, Choice(size, inner, otherwise)) && a == InnerAt(i, size) && Reads(ts, a, inner, before, m, mid, child)
    ensures Did(ts, a, inner, before, m, mid, child)
  {
    HeadStands(ts, i, Choice(size, inner, otherwise));
  }

  function OtherwiseOf(f: Form): Form {
    if f.Choice? then f.otherwise else Nothing
  }

  lemma {:induction false} ChoiceHolds(ts: seq<Tok>, i: nat, size: nat, inner: Form, otherwise: Form, before: seq<Problem>, a: nat,
                                       m: nat, mid: seq<Problem>, child: Option<Statement>,
                                       next: nat, index: nat, after: seq<Problem>, more: seq<Statement>, other: Option<Statement>)
    requires Stands(ts, i, Choice(size, inner, otherwise)) && a == InnerAt(i, size) && Did(ts, a, inner, before, m, mid, child)
    requires next == m + 1 && ReadsOther(ts, next, otherwise, mid, index, after, more, other)
    ensures Did(ts, i, Choice(size, inner, otherwise), before, index, after, Some(Control(WordAt(ts, i), Condition(ts, First(i), size), Part(child) + more)))
    ensures WordAt(ts, i) == "if"
  {
    ElseIsThere(ts, i, size, inner, otherwise, m, next);
    ChoiceDid(ts, i, size, inner, otherwise, before, m, mid, child, next, index, after, other);
  }

  lemma {:induction false} ChoiceReads(ts: seq<Tok>, i: nat, size: nat, inner: Form, otherwise: Form, condition: Option<Expressions.Expr>, before: seq<Problem>, a: nat,
                                       m: nat, mid: seq<Problem>, child: Option<Statement>,
                                       index: nat, after: seq<Problem>, more: seq<Statement>)
    requires Stands(ts, i, Choice(size, inner, otherwise)) ==> a == InnerAt(i, size) && condition == Condition(ts, First(i), size)
    requires Reads(ts, a, inner, before, m, mid, child) && ReadsElse(ts, WordAt(ts, i), m, otherwise, mid, index, after, more)
    ensures Reads(ts, i, Choice(size, inner, otherwise), before, index, after,
                  Some(Control(WordAt(ts, i), condition, Part(child) + more)))
  {
    if Stands(ts, i, Choice(size, inner, otherwise)) {
      InnerStands(ts, i, size, inner, otherwise, before, a, m, mid, child);
      var next := First(m);
      ElseIsThere(ts, i, size, inner, otherwise, m, next);
      var other :| ReadsOther(ts, next, otherwise, mid, index, after, more, other);
      ChoiceHolds(ts, i, size, inner, otherwise, before, a, m, mid, child, next, index, after, more, other);
    }
  }

  // ----- repeat -----

  lemma {:induction false} UntilStands(ts: seq<Tok>, i: nat, body: List, size: nat)
    requires Stands(ts, i, Repetition(body, size))
    ensures StandsAll(ts, First(i), body, UNTIL, false) && WordAt(ts, BodyEnd(i, body)) == "until"
    ensures IsStretch(ts, TailAt(i, body), SimpleEnd(TailAt(i, body), size), CONDITION_STOPS)
  {
    ListEnds(ts, First(i), body, UNTIL, false);
  }

  lemma {:induction false} RepeatDid(ts: seq<Tok>, i: nat, body: List, size: nat, before: seq<Problem>, after: seq<Problem>, a: nat)
    requires a == TailAt(i, body) && Noticed(ts, before, after, StraysAll(First(i), body))
    ensures Did(ts, i, Repetition(body, size), before, SimpleEnd(a, size), after, Some(Repeat(Trees(ts, First(i), body), Condition(ts, a, size))))
  {
  }

  lemma {:induction false} RepeatReads(ts: seq<Tok>, i: nat, body: List, size: nat, before: seq<Problem>,
                                       first: nat, u: nat, after: seq<Problem>, parts: seq<Statement>, a: nat, index: nat)
    requires first == First(i) && a == Accepted(ts, u, "until") < |ts|
    requires ReadsAll(ts, first, body, UNTIL, false, before, u, after, parts)
    requires index == Cursor.StretchEnd(ts, a, FLAT, None, CONDITION_STOPS, false)
    ensures Reads(ts, i, Repetition(body, size), before, index, after, Some(Repeat(parts, Expressions.Direct(Slice(ts, a, index)))))
  {
    if Stands(ts, i, Repetition(body, size)) {
      UntilStands(ts, i, body, size);
      StretchIsCollected(ts, a, SimpleEnd(a, size), CONDITION_STOPS);
      RepeatDid(ts, i, body, size, before, after, a);
    }
  }

  // ----- try -----

  function TailOf(f: Form): List {
    if f.Guarded? then f.handlers else if f.Protected? then f.final else Done
  }

  lemma {:induction false} TailStands(ts: seq<Tok>, i: nat, f: Form)
    requires Stands(ts, i, f) && (f.Guarded? || f.Protected?)
    ensures StandsAll(ts, First(i), f.body, TRY_STOPS, false)
    ensures WordAt(ts, BodyEnd(i, f.body)) == if f.Guarded? then "except" else "finally"
    ensures StandsAll(ts, TailAt(i, f.body), TailOf(f), ENDS, f.Guarded?)
  {
  }

  lemma {:induction false} TryDid(ts: seq<Tok>, i: nat, f: Form, before: seq<Problem>, mid: seq<Problem>, after: seq<Problem>, t: nat)
    requires (f.Guarded? || f.Protected?) && t == TailAt(i, f.body)
    requires Noticed(ts, before, mid, StraysAll(First(i), f.body)) && Noticed(ts, mid, after, StraysAll(t, TailOf(f)))
    ensures var made := Trees(ts, t, TailOf(f));
            Did(ts, i, f, before, t + LengthAll(TailOf(f)) + 1, after,
                Some(Try(Trees(ts, First(i), f.body) + [if f.Guarded? then Except(made) else Finally(made)])))
  {
    NoticedBoth(ts, before, mid, after, StraysAll(First(i), f.body), StraysAll(t, TailOf(f)));
  }

  lemma {:induction false} TryBody(ts: seq<Tok>, i: nat, f: Form, before: seq<Problem>, first: nat, e: nat, mid: seq<Problem>, parts: seq<Statement>)
    requires Stands(ts, i, f) && (f.Guarded? || f.Protected?) && first == First(i)
    requires ReadsAll(ts, first, f.body, TRY_STOPS, false, before, e, mid, parts)
    ensures e == BodyEnd(i, f.body) && Noticed(ts, before, mid, StraysAll(First(i), f.body)) && parts == Trees(ts, First(i), f.body)
  {
    TailStands(ts, i, f);
  }

  function PartsOf(tail: seq<Statement>): seq<Statement> {
    if |tail| == 1 && tail[0].Except? then tail[0].parts else if |tail| == 1 && tail[0].Finally? then tail[0].parts else []
  }

  /** What is done behind the body of a try statement: the handlers or the final part are read. */
  ghost predicate ReadsTail(ts: seq<Tok>, e: nat, list: List, mid: seq<Problem>, n: nat, after: seq<Problem>, tail: seq<Statement>) {
    && (WordAt(ts, e) == "except" ==> ReadsAll(ts, First(e), list, ENDS, true, mid, n, after, PartsOf(tail)) && tail == [Except(PartsOf(tail))])
    && (WordAt(ts, e) == "finally" ==> ReadsAll(ts, First(e), list, ENDS, false, mid, n, after, PartsOf(tail)) && tail == [Finally(PartsOf(tail))])
  }

  lemma {:induction false} TryHolds(ts: seq<Tok>, i: nat, f: Form, before: seq<Problem>, e: nat, mid: seq<Problem>,
                                    n: nat, after: seq<Problem>, tail: seq<Statement>)
    requires Stands(ts, i, f) && (f.Guarded? || f.Protected?) && e == BodyEnd(i, f.body)
    requires Noticed(ts, before, mid, StraysAll(First(i), f.body)) && ReadsTail(ts, e, TailOf(f), mid, n, after, tail)
    ensures Did(ts, i, f, before, Accepted(ts, n, "end"), after, Some(Try(Trees(ts, First(i), f.body) + tail)))
  {
    TailStands(ts, i, f);
    var t := First(e);
    assert t == TailAt(i, f.body);
    RowIsRead(ts, t, TailOf(f), f.Guarded?, mid, n, after, PartsOf(tail));
    TryDid(ts, i, f, before, mid, after, t);
  }

  lemma {:induction false} TryReads(ts: seq<Tok>, i: nat, f: Form, before: seq<Problem>, first: nat, e: nat, mid: seq<Problem>,
                                    parts: seq<Statement>, n: nat, after: seq<Problem>, tail: seq<Statement>)
    requires (f.Guarded? || f.Protected?) && first == First(i)
    requires ReadsAll(ts, first, f.body, TRY_STOPS, false, before, e, mid, parts) && ReadsTail(ts, e, TailOf(f), mid, n, after, tail)
    ensures Reads(ts, i, f, before, Accepted(ts, n, "end"), after, Some(Try(parts + tail)))
  {
    if Stands(ts, i, f) {
      TryBody(ts, i, f, before, first, e, mid, parts);
      TryHolds(ts, i, f, before, e, mid, n, after, tail);
    }
  }

  // ----- case -----

  lemma {:induction false} CaseStands(ts: seq<Tok>, i: nat, size: nat, body: List)
    requires Stands(ts, i, Selection(size, body))
    ensures IsStretch(ts, First(i), HeadEnd(i, size), OF)
    ensures StandsAll(ts, InnerAt(i, size), body, ENDS, false)
  {
  }

  lemma {:induction false} CaseStretch(ts: seq<Tok>, i: nat, size: nat, body: List, first: nat, s: nat)
    requires first == First(i) < |ts| && s == Cursor.StretchEnd(ts, first, FLAT, None, OF, false)
    ensures Stands(ts, i, Selection(size, body)) ==> Accepted(ts, s, "of") == InnerAt(i, size)
    ensures Stands(ts, i, Selection(size, body)) ==> Expressions.Direct(Slice(ts, first, s)) == Condition(ts, First(i), size)
  {
    if Stands(ts, i, Selection(size, body)) {
      CaseStands(ts, i, size, body);
      StretchIsCollected(ts, first, HeadEnd(i, size), OF);
      assert s == SimpleEnd(first, size);
    }
  }

  lemma {:induction false} CaseDid(ts: seq<Tok>, i: nat, size: nat, body: List, before: seq<Problem>, after: seq<Problem>, a: nat)
    requires a == InnerAt(i, size) && Noticed(ts, before, after, StraysAll(a, body))
    ensures Did(ts, i, Selection(size, body), before, a + LengthAll(body) + 1, after, Some(Case(Condition(ts, First(i), size), Trees(ts, a, body))))
  {
  }

  lemma {:induction false} CaseHolds(ts: seq<Tok>, i: nat, size: nat, body: List, before: seq<Problem>, a: nat,
                                     m: nat, after: seq<Problem>, parts: seq<Statement>)
    requires Stands(ts, i, Selection(size, body)) && a == InnerAt(i, size)
    requires ReadsAll(ts, a, body, ENDS, false, before, m, after, parts)
    ensures Did(ts, i, Selection(size, body), before, Accepted(ts, m, "end"), after, Some(Case(Condition(ts, First(i), size), parts)))
  {
    CaseStands(ts, i, size, body);
    RowIsRead(ts, a, body, false, before, m, after, parts);
    CaseDid(ts, i, size, body, before, after, a);
  }

  lemma {:induction false} CaseReads(ts: seq<Tok>, i: nat, size: nat, body: List, selector: Option<Expressions.Expr>, before: seq<Problem>, a: nat,
                                     m: nat, after: seq<Problem>, parts: seq<Statement>)
    requires Stands(ts, i, Selection(size, body)) ==> a == InnerAt(i, size) && selector == Condition(ts, First(i), size)
    requires ReadsAll(ts, a, body, ENDS, false, before, m, after, parts)
    ensures Reads(ts, i, Selection(size, body), before, Accepted(ts, m, "end"), after, Some(Case(selector, parts)))
  {
    if Stands(ts, i, Selection(size, body)) {
      CaseHolds(ts, i, size, body, before, a, m, after, parts);
    }
  }

  // ----- asm and simple statements -----

  lemma {:induction false} AssemblyReads(ts: seq<Tok>, i: nat, size: nat, before: seq<Problem>, m: nat)
    requires i < m && |before| <= MAX_PROBLEMS
    requires forall k: nat :: i < k < m ==> WordAt(ts, k) != "end"
    requires WordAt(ts, m) == "end" || m + 1 >= |ts|
    ensures Reads(ts, i, Assembly(size), before, Accepted(ts, m, "end"), before, Some(Asm))
  {
    NoticedNone(ts, before);
  }

  lemma {:induction false} SimpleDid(ts: seq<Tok>, i: nat, size: nat, before: seq<Problem>, index: nat)
    requires |before| <= MAX_PROBLEMS && index == SimpleEnd(i, size)
    ensures Did(ts, i, Simple(size), before, index, before, SimpleTree(Slice(ts, i, index)))
  {
    NoticedNone(ts, before);
  }

  lemma {:induction false} SimpleStretch(ts: seq<Tok>, i: nat, size: nat, index: nat)
    requires Stands(ts, i, Simple(size)) && i < |ts| && index == Cursor.StretchEnd(ts, i, FLAT, None, SIMPLE_STOPS, false)
    ensures index == SimpleEnd(i, size)
  {
    StretchIsCollected(ts, i, SimpleEnd(i, size), SIMPLE_STOPS);
  }

  lemma {:induction false} SimpleReads(ts: seq<Tok>, i: nat, f: Form, before: seq<Problem>, index: nat)
    requires i < |ts| && |before| <= MAX_PROBLEMS && !Terminates(WordAt(ts, i))
    requires (f.Simple? || f.Nothing?) && index == Cursor.StretchEnd(ts, i, FLAT, None, SIMPLE_STOPS, false)
    ensures Reads(ts, i, f, before, index, before, SimpleTree(Slice(ts, i, index)))
  {
    if Stands(ts, i, f) {
      if f.Simple? {
        SimpleStretch(ts, i, f.size, index);
        SimpleDid(ts, i, f.size, before, index);
      } else {
        NoticedNone(ts, before);
        assert Slice(ts, i, index) == [];
      }
    }
  }

  // ----- one of a row -----

  /** The reading a statement of a row is parsed with: at a stray nothing is read. */
  function Unstrayed(f: Form): Form {
    if f.Stray? then Nothing else f
  }

  lemma {:induction false} StatementIsItem(ts: seq<Tok>, p: nat, f: Form, handling: bool,
                                           before: seq<Problem>, index: nat, after: seq<Problem>, tree: Option<Statement>)
    requires Reads(ts, p, Unstrayed(f), before, index, after, tree) && |before| <= MAX_PROBLEMS
    requires handling ==> WordAt(ts, p) != "on" && WordAt(ts, p) != "else"
    ensures ReadsItem(ts, p, f, handling, before, index, after, tree)
  {
    if f.Stray? {
      assert before + Marks(ts, []) == before;
    }
  }

  lemma {:induction false} OnStands(ts: seq<Tok>, p: nat, size: nat, inner: Form)
    requires StandsItem(ts, p, OnClause(size, inner), true) && WordAt(ts, p) == "on"
    ensures IsStretch(ts, First(p), HeadEnd(p, size), ON_STOPS) && WordAt(ts, HeadEnd(p, size)) == "do"
    ensures Stands(ts, InnerAt(p, size), inner)
  {
  }

  lemma {:induction false} OnStretch(ts: seq<Tok>, p: nat, size: nat, inner: Form, first: nat, s: nat)
    requires WordAt(ts, p) == "on" && first == First(p) < |ts| && s == Cursor.StretchEnd(ts, first, FLAT, None, ON_STOPS, false)
    ensures StandsItem(ts, p, OnClause(size, inner), true) ==> Accepted(ts, s, "do") == InnerAt(p, size)
  {
    if StandsItem(ts, p, OnClause(size, inner), true) {
      OnStands(ts, p, size, inner);
      StretchIsCollected(ts, first, HeadEnd(p, size), ON_STOPS);
    }
  }

  lemma {:induction false} OnReads(ts: seq<Tok>, p: nat, size: nat, inner: Form, before: seq<Problem>, a: nat,
                                   index: nat, after: seq<Problem>, child: Option<Statement>)
    requires WordAt(ts, p) == "on"
    requires StandsItem(ts, p, OnClause(size, inner), true) ==> a == InnerAt(p, size)
    requires Reads(ts, a, inner, before, index, after, child)
    ensures ReadsItem(ts, p, OnClause(size, inner), true, before, index, after, Some(Handler(Part(child))))
  {
    if StandsItem(ts, p, OnClause(size, inner), true) {
      OnStands(ts, p, size, inner);
    }
  }

  lemma {:induction false} ElseReads(ts: seq<Tok>, p: nat, inner: Form, before: seq<Problem>, first: nat,
                                     index: nat, after: seq<Problem>, child: Option<Statement>)
    requires WordAt(ts, p) == "else" && first == First(p) && Reads(ts, first, inner, before, index, after, child)
    ensures ReadsItem(ts, p, ElseClause(inner), true, before, index, after, child)
  {
  }

  /** What the first word says about the reading among handlers. */
  lemma {:induction false} HandlerWord(ts: seq<Tok>, p: nat, f: Form)
    ensures StandsItem(ts, p, f, true) && WordAt(ts, p) == "on" ==> f.OnClause?
    ensures StandsItem(ts, p, f, true) && WordAt(ts, p) == "else" ==> f.ElseClause?
  {
  }
}
