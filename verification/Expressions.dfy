/** Expression trees made of token lists by matching brackets; operators leave no trace. */
module Expressions {
  import opened Wrappers
  import opened LexerGrammar
  import opened TokenLists

  datatype Expr =
    | SetOf(elements: seq<Expr>)
    | Sequence(items: seq<Expr>)
    | Name(tok: Tok)
    | Constant(tok: Tok)
    | Dot(left: Expr, right: Expr)
    | CallOf(callee: Expr, arguments: seq<Expr>)
    | IndexOf(base: Expr, indices: seq<Expr>)
    | Deref(base: Expr)

  predicate IsName(t: Tok) {
    t.kind == Identifier || t.kind == Keyword
  }

  predicate IsConstant(t: Tok) {
    t.kind == NumberToken || t.kind == StringToken || t.kind == CharCode
  }

  predicate IsOperand(t: Tok) {
    IsName(t) || IsConstant(t)
  }

  /** Brackets, separators and dots. */
  predicate IsMark(v: string) {
    v == "(" || v == ")" || v == "[" || v == "]" || v == "," || v == "." || v == "^"
  }

  predicate ValueAt(values: seq<Tok>, i: nat, v: string) {
    i < |values| && values[i].value == v
  }

  function Split(values: seq<Tok>): seq<seq<Tok>> {
    if values == [] then [] else Parts(values, ",")
  }

  predicate AllShort(parts: seq<seq<Tok>>, bound: nat) {
    forall i :: 0 <= i < |parts| ==> |parts[i]| < bound
  }

  lemma {:induction false} SplitIsShort(values: seq<Tok>, bound: nat)
    requires |values| < bound
    ensures AllShort(Split(values), bound)
  {
    forall i | 0 <= i < |Split(values)|
      ensures |Split(values)[i]| < bound
    {
      PartsAreShort(values, ",", Split(values)[i]);
    }
  }

  // ----- trees -----

  /** The tree of a token list; an empty list has none. */
  function ExpressionNode(values: seq<Tok>): (r: Option<Expr>)
    ensures r.None? <==> values == []
    ensures r.Some? ==> r.value.SetOf? || r.value.Sequence?
    decreases |values|, 2, 0
  {
    if values == [] then None
    else if IsSet(values) then
      Some(SetOf(Inside(values, 0, |values| - 1)))
    else Some(Sequence(Items(values, 0)))
  }

  /** The trees of what stands between the brackets at `i` and `j`, part by part. */
  function Inside(values: seq<Tok>, i: nat, j: nat): seq<Expr>
    requires i < j < |values|
    decreases |values|, 1, 0
  {
    SplitIsShort(values[i + 1..j], |values|);
    Each(Split(values[i + 1..j]), |values|)
  }

  /** One square bracket around everything. */
  predicate IsSet(values: seq<Tok>)
    requires values != []
    ensures IsSet(values) ==> |values| >= 2 && IsMark(values[0].value) && IsMark(values[|values| - 1].value)
  {
    values[0].value == "[" && Closing(values, 0) == Some(|values| - 1)
  }

  function Children(e: Expr): seq<Expr> {
    if e.SetOf? then e.elements else if e.Sequence? then e.items else []
  }

  /** A node with one child gives way to the child. */
  function Direct(values: seq<Tok>): (r: Option<Expr>)
    ensures r.None? <==> values == []
    decreases |values|, 3, 0
  {
    var e := ExpressionNode(values);
    if e.Some? && |Children(e.value)| == 1 then Some(Children(e.value)[0]) else e
  }

  /** The trees of the parts that are not empty. */
  function Each(parts: seq<seq<Tok>>, bound: nat): seq<Expr>
    requires AllShort(parts, bound)
    decreases bound, 0, |parts|
  {
    if parts == [] then []
    else
      var first := Direct(parts[0]);
      (if first.Some? then [first.value] else []) + Each(parts[1..], bound)
  }

  /** A name with the names that follow it behind dots. */
  function Dots(values: seq<Tok>, node: Expr, j: nat): (r: (Expr, nat))
    requires j <= |values|
    ensures j <= r.1 <= |values|
    decreases |values| - j
  {
    if ValueAt(values, j, ".") && j + 1 < |values| && IsName(values[j + 1]) then Dots(values, Dot(node, Name(values[j + 1])), j + 2)
    else (node, j)
  }

  /** Where the bracket that opens at `j` closes. */
  function Closing(values: seq<Tok>, j: nat): (r: Option<nat>)
    requires j <= |values|
    ensures r.Some? ==> j < r.value < |values| && IsMark(values[j].value) && IsMark(values[r.value].value)
  {
    if ValueAt(values, j, "(") then Matching(values, j, j, "(", ")")
    else if ValueAt(values, j, "[") then Matching(values, j, j, "[", "]")
    else None
  }

  /** A call or an index behind a node, if its bracket closes. */
  function Suffix(values: seq<Tok>, node: Expr, j: nat): (r: (Expr, nat))
    requires 0 < j <= |values|
    ensures j <= r.1 <= |values|
    decreases |values|, 1, 1
  {
    var close := Closing(values, j);
    if close.None? then (node, j)
    else
      (Attach(node, values[j].value, Inside(values, j, close.value)), close.value + 1)
  }

  /** Round brackets make a call, square brackets an index. */
  function Attach(node: Expr, bracket: string, inside: seq<Expr>): Expr {
    if bracket == "(" then CallOf(node, inside) else IndexOf(node, inside)
  }

  function Derefs(values: seq<Tok>, node: Expr, j: nat): (r: (Expr, nat))
    requires j <= |values|
    ensures j <= r.1 <= |values|
    decreases |values| - j
  {
    if ValueAt(values, j, "^") then Derefs(values, Deref(node), j + 1) else (node, j)
  }

  /** The operand that starts with the name at `i`, and where it ends. */
  function Operand(values: seq<Tok>, i: nat): (r: (Expr, nat))
    requires i < |values|
    ensures i < r.1 <= |values|
    decreases |values|, 1, 2
  {
    var dotted := Dots(values, Name(values[i]), i + 1);
    var suffixed := Suffix(values, dotted.0, dotted.1);
    Derefs(values, suffixed.0, suffixed.1)
  }

  /** The operands from `i` on. */
  function Items(values: seq<Tok>, i: nat): seq<Expr>
    requires i <= |values|
    decreases |values|, 1, 3 + |values| - i
  {
    if i == |values| then []
    else if IsName(values[i]) then
      var operand := Operand(values, i);
      [operand.0] + Items(values, operand.1)
    else if IsConstant(values[i]) then [Constant(values[i])] + Items(values, i + 1)
    else Items(values, i + 1)
  }

  /** The loop over the tokens. */
  method MakeExpression(values: seq<Tok>) returns (r: Option<Expr>)
    ensures r == ExpressionNode(values)
  {
    if |values| == 0 {
      return None;
    }
    var close: Option<nat> := None;
    if values[0].value == "[" {
      close := MatchingToken(values, 0, "[", "]");
    }
    if close == Some(|values| - 1) {
      return Some(SetOf(Inside(values, 0, |values| - 1)));
    }
    var items := MakeItems(values);
    r := Some(Sequence(items));
  }

  /** A node with one child gives way to the child. */
  method MakeDirect(values: seq<Tok>) returns (r: Option<Expr>)
    ensures r == Direct(values)
  {
    r := MakeExpression(values);
    if r.Some? && |Children(r.value)| == 1 {
      r := Some(Children(r.value)[0]);
    }
  }

  method MakeItems(values: seq<Tok>) returns (items: seq<Expr>)
    ensures items == Items(values, 0)
  {
    items := [];
    var index: nat := 0;
    while index < |values|
      invariant index <= |values| && Items(values, 0) == items + Items(values, index)
    {
      if IsName(values[index]) {
        var operand := Operand(values, index);
        assert items + ([operand.0] + Items(values, operand.1)) == (items + [operand.0]) + Items(values, operand.1);
        items := items + [operand.0];
        index := operand.1;
        continue;
      } else if IsConstant(values[index]) {
        assert items + ([Constant(values[index])] + Items(values, index + 1)) == (items + [Constant(values[index])]) + Items(values, index + 1);
        items := items + [Constant(values[index])];
      }
      index := index + 1;
    }
    assert Items(values, index) == [];
  }

  // ----- operands -----

  /** The names and constants of a tree from left to right. */
  function Operands(e: Expr): seq<Tok> {
    match e
    case SetOf(elements) => AllOperands(elements)
    case Sequence(items) => AllOperands(items)
    case Name(tok) => [tok]
    case Constant(tok) => [tok]
    case Dot(left, right) => Operands(left) + Operands(right)
    case CallOf(callee, arguments) => Operands(callee) + AllOperands(arguments)
    case IndexOf(base, indices) => Operands(base) + AllOperands(indices)
    case Deref(base) => Operands(base)
  }

  function AllOperands(es: seq<Expr>): seq<Tok> {
    if es == [] then [] else Operands(es[0]) + AllOperands(es[1..])
  }

  /** The names and constants of a token list. */
  function Kept(values: seq<Tok>): seq<Tok> {
    if values == [] then [] else Kept(values[..|values| - 1]) + if IsOperand(values[|values| - 1]) then [values[|values| - 1]] else []
  }

  function KeptOfParts(parts: seq<seq<Tok>>): seq<Tok> {
    if parts == [] then [] else Kept(parts[0]) + KeptOfParts(parts[1..])
  }

  /** They are no names or constants, as the lexer makes them. */
  ghost predicate Lexed(values: seq<Tok>) {
    forall i :: 0 <= i < |values| && IsMark(values[i].value) ==> !IsOperand(values[i])
  }

  lemma {:induction false} KeptAdds(a: seq<Tok>, b: seq<Tok>)
    ensures Kept(a + b) == Kept(a) + Kept(b)
  {
    if b == [] {
      assert a + b == a;
    } else {
      KeptAdds(a, b[..|b| - 1]);
      assert (a + b)[..|a + b| - 1] == a + b[..|b| - 1];
      var t := if IsOperand(b[|b| - 1]) then [b[|b| - 1]] else [];
      assert (Kept(a) + Kept(b[..|b| - 1])) + t == Kept(a) + (Kept(b[..|b| - 1]) + t);
    }
  }

  /** A list in two. */
  lemma {:induction false} KeptSplit(values: seq<Tok>, i: nat, j: nat, k: nat)
    requires i <= j <= k <= |values|
    ensures Kept(values[i..k]) == Kept(values[i..j]) + Kept(values[j..k])
  {
    assert values[i..k] == values[i..j] + values[j..k];
    KeptAdds(values[i..j], values[j..k]);
  }

  lemma {:induction false} KeptOne(values: seq<Tok>, i: nat)
    requires i < |values|
    ensures Kept(values[i..i + 1]) == if IsOperand(values[i]) then [values[i]] else []
  {
    assert values[i..i + 1] == [values[i]];
    assert [values[i]][..0] == [];
  }

  lemma {:induction false} PartsAdd(a: seq<seq<Tok>>, b: seq<seq<Tok>>)
    ensures KeptOfParts(a + b) == KeptOfParts(a) + KeptOfParts(b)
  {
    if a == [] {
      assert a + b == b;
    } else {
      PartsAdd(a[1..], b);
      assert (a + b)[0] == a[0] && (a + b)[1..] == a[1..] + b;
      Regroup(Kept(a[0]), KeptOfParts(a[1..]), KeptOfParts(b));
    }
  }

  lemma {:induction false} LastPart(a: seq<seq<Tok>>, p: seq<Tok>)
    ensures KeptOfParts(a + [p]) == KeptOfParts(a) + Kept(p)
  {
    PartsAdd(a, [p]);
    assert [p][1..] == [];
  }

  /** A token added to the last part. */
  lemma {:induction false} PartGrows(parts: seq<seq<Tok>>, t: Tok)
    requires parts != []
    ensures var m := |parts| - 1;
            KeptOfParts(parts[..m] + [parts[m] + [t]]) == KeptOfParts(parts) + if IsOperand(t) then [t] else []
  {
    var m := |parts| - 1;
    var front, part := parts[..m], parts[m];
    var longer := part + [t];
    assert parts == front + [part];
    LastPart(front, part);
    LastPart(front, longer);
    assert longer[..|longer| - 1] == part;
  }

  /** Separators are no operands: the parts keep what the list keeps. */
  lemma {:induction false} SplitKeeps(values: seq<Tok>)
    requires Lexed(values)
    ensures KeptOfParts(Parts(values, ",")) == Kept(values)
  {
    if values == [] {
      LastPart([], []);
      assert [] + [[]] == Parts(values, ",");
    } else {
      var init, last := values[..|values| - 1], values[|values| - 1];
      SplitKeeps(init);
      var before := Parts(init, ",");
      if EndsPart(values, ",") {
        assert IsMark(last.value);
        LastPart(before, []);
      } else {
        PartGrows(before, last);
      }
    }
  }

  lemma {:induction false} Regroup(a: seq<Tok>, b: seq<Tok>, c: seq<Tok>)
    ensures (a + b) + c == a + (b + c)
  {
  }

  lemma {:induction false} AllAdd(a: seq<Expr>, b: seq<Expr>)
    ensures AllOperands(a + b) == AllOperands(a) + AllOperands(b)
  {
    if a == [] {
      assert a + b == b;
    } else {
      AllAdd(a[1..], b);
      assert (a + b)[0] == a[0] && (a + b)[1..] == a[1..] + b;
      Regroup(Operands(a[0]), AllOperands(a[1..]), AllOperands(b));
    }
  }

  lemma {:induction false} One(e: Expr)
    ensures AllOperands([e]) == Operands(e)
  {
    assert [e][1..] == [];
  }

  lemma {:induction false} LexedPart(values: seq<Tok>, i: nat, j: nat)
    requires Lexed(values) && i <= j <= |values|
    ensures Lexed(values[i..j])
  {
  }

  /** Every part is made of tokens of the list. */
  lemma {:induction false} PartsLexed(values: seq<Tok>, p: seq<Tok>)
    requires Lexed(values) && p in Parts(values, ",")
    ensures Lexed(p)
  {
    if values != [] {
      var before := Parts(values[..|values| - 1], ",");
      LexedPart(values, 0, |values| - 1);
      assert values[0..|values| - 1] == values[..|values| - 1];
      if p in before {
        PartsLexed(values[..|values| - 1], p);
      } else if p != [] {
        assert before[|before| - 1] in before;
        PartsLexed(values[..|values| - 1], before[|before| - 1]);
      }
    }
  }

  // ----- nothing is lost -----

  /** The tree has exactly the names and constants of the token list, each once and in order. */
  lemma {:induction false} OperandsKept(values: seq<Tok>)
    requires Lexed(values)
    ensures ExpressionNode(values).Some? ==> Operands(ExpressionNode(values).value) == Kept(values)
    decreases |values|, 2, 0
  {
    if values != [] {
      if IsSet(values) {
        SetKept(values);
      } else {
        ItemsKept(values, 0);
        assert values[0..] == values;
      }
    }
  }

  lemma {:induction false} SetKept(values: seq<Tok>)
    requires Lexed(values) && values != [] && IsSet(values)
    ensures AllOperands(Inside(values, 0, |values| - 1)) == Kept(values)
    decreases |values|, 1, 1
  {
    BracketKept(values, 0, |values| - 1, |values|);
    assert values[0..|values|] == values;
  }

  /** What is between two brackets is kept by the trees of its parts. */
  lemma {:induction false} InsideKept(values: seq<Tok>, i: nat, first: nat, j: nat)
    requires Lexed(values) && first == i + 1 && i < j < |values|
    ensures AllOperands(Inside(values, i, j)) == Kept(values[first..j])
    decreases |values|, 0, |values| + 1
  {
    var part := values[first..j];
    SplitIsShort(part, |values|);
    LexedPart(values, first, j);
    if part != [] {
      forall k | 0 <= k < |Split(part)|
        ensures Lexed(Split(part)[k])
      {
        PartsLexed(part, Split(part)[k]);
      }
      PartsCount(part);
      EachKept(Split(part), |values|);
      SplitKeeps(part);
    }
  }

  lemma {:induction false} PartsCount(values: seq<Tok>)
    ensures |Parts(values, ",")| <= |values| + 1
  {
    if values != [] {
      PartsCount(values[..|values| - 1]);
    }
  }

  lemma {:induction false} DirectKept(values: seq<Tok>)
    requires Lexed(values)
    ensures Direct(values).Some? ==> Operands(Direct(values).value) == Kept(values)
    ensures Direct(values).None? ==> Kept(values) == []
    decreases |values|, 3, 0
  {
    OperandsKept(values);
    var e := ExpressionNode(values);
    if e.Some? && |Children(e.value)| == 1 {
      assert Children(e.value) == [Children(e.value)[0]];
      One(Children(e.value)[0]);
    }
  }

  lemma {:induction false} EachKept(parts: seq<seq<Tok>>, bound: nat)
    requires AllShort(parts, bound) && |parts| <= bound
    requires forall k :: 0 <= k < |parts| ==> Lexed(parts[k])
    ensures AllOperands(Each(parts, bound)) == KeptOfParts(parts)
    decreases bound, 0, |parts|
  {
    if parts != [] {
      DirectKept(parts[0]);
      EachKept(parts[1..], bound);
      var first := Direct(parts[0]);
      if first.Some? {
        AllAdd([first.value], Each(parts[1..], bound));
        One(first.value);
      } else {
        assert Each(parts, bound) == Each(parts[1..], bound);
      }
    }
  }

  lemma {:induction false} DotAndName(values: seq<Tok>, j: nat, after: nat, end: nat)
    requires Lexed(values) && after == j + 2 && after <= end <= |values| && IsMark(values[j].value) && IsName(values[j + 1])
    ensures Kept(values[j..end]) == [values[j + 1]] + Kept(values[after..end])
  {
    KeptSplit(values, j, j + 1, end);
    KeptOne(values, j);
    KeptSplit(values, j + 1, j + 2, end);
    KeptOne(values, j + 1);
  }

  lemma {:induction false} DotsStep(values: seq<Tok>, node: Expr, j: nat, next: Expr, after: nat)
    requires ValueAt(values, j, ".") && j + 1 < |values| && IsName(values[j + 1])
    requires next == Dot(node, Name(values[j + 1])) && after == j + 2
    ensures Dots(values, node, j) == Dots(values, next, after)
  {
  }

  lemma {:induction false} DotsKept(values: seq<Tok>, node: Expr, j: nat)
    requires Lexed(values) && j <= |values|
    ensures var r := Dots(values, node, j); Operands(r.0) == Operands(node) + Kept(values[j..r.1])
    decreases |values| - j
  {
    if ValueAt(values, j, ".") && j + 1 < |values| && IsName(values[j + 1]) {
      var next, after := Dot(node, Name(values[j + 1])), j + 2;
      DotsStep(values, node, j, next, after);
      DotsKept(values, next, after);
      var end := Dots(values, next, after).1;
      DotAndName(values, j, after, end);
      Regroup(Operands(node), [values[j + 1]], Kept(values[after..end]));
    } else {
      assert values[j..j] == [];
    }
  }

  lemma {:induction false} MarkFirst(values: seq<Tok>, j: nat, after: nat, end: nat)
    requires Lexed(values) && after == j + 1 && after <= end <= |values| && IsMark(values[j].value)
    ensures Kept(values[j..end]) == Kept(values[after..end])
  {
    KeptSplit(values, j, j + 1, end);
    KeptOne(values, j);
  }

  lemma {:induction false} DerefsKept(values: seq<Tok>, node: Expr, j: nat)
    requires Lexed(values) && j <= |values|
    ensures var r := Derefs(values, node, j); Operands(r.0) == Operands(node) + Kept(values[j..r.1])
    decreases |values| - j
  {
    if ValueAt(values, j, "^") {
      var after := j + 1;
      DerefsKept(values, Deref(node), after);
      MarkFirst(values, j, after, Derefs(values, Deref(node), after).1);
    } else {
      assert values[j..j] == [];
    }
  }

  lemma {:induction false} Bracketed(values: seq<Tok>, j: nat, first: nat, close: nat, after: nat)
    requires Lexed(values) && first == j + 1 && j < close < |values| && after == close + 1
    requires IsMark(values[j].value) && IsMark(values[close].value)
    ensures Kept(values[j..after]) == Kept(values[first..close])
  {
    KeptSplit(values, j, j + 1, close + 1);
    KeptOne(values, j);
    KeptSplit(values, j + 1, close, close + 1);
    KeptOne(values, close);
  }

  lemma {:induction false} BracketKept(values: seq<Tok>, j: nat, close: nat, after: nat)
    requires Lexed(values) && j < close < |values| && after == close + 1 && IsMark(values[j].value) && IsMark(values[close].value)
    ensures AllOperands(Inside(values, j, close)) == Kept(values[j..after])
    decreases |values|, 1, 0
  {
    var first := j + 1;
    InsideKept(values, j, first, close);
    Bracketed(values, j, first, close, after);
  }

  lemma {:induction false} SuffixKept(values: seq<Tok>, node: Expr, j: nat)
    requires Lexed(values) && 0 < j <= |values|
    ensures var r := Suffix(values, node, j); Operands(r.0) == Operands(node) + Kept(values[j..r.1])
    decreases |values|, 1, 1
  {
    var close := Closing(values, j);
    if close.None? {
      assert values[j..j] == [];
    } else {
      var inside, after := Inside(values, j, close.value), close.value + 1;
      assert Suffix(values, node, j) == (Attach(node, values[j].value, inside), after);
      BracketKept(values, j, close.value, after);
      AttachOperands(node, values[j].value, inside);
    }
  }

  lemma {:induction false} AttachOperands(node: Expr, bracket: string, inside: seq<Expr>)
    ensures Operands(Attach(node, bracket, inside)) == Operands(node) + AllOperands(inside)
  {
  }

  lemma {:induction false} OperandKept(values: seq<Tok>, i: nat)
    requires Lexed(values) && i < |values| && IsName(values[i])
    ensures var r := Operand(values, i); Operands(r.0) == Kept(values[i..r.1])
    decreases |values|, 1, 2
  {
    var dotted := Dots(values, Name(values[i]), i + 1);
    var suffixed := Suffix(values, dotted.0, dotted.1);
    var r := Derefs(values, suffixed.0, suffixed.1);
    DotsKept(values, Name(values[i]), i + 1);
    SuffixKept(values, dotted.0, dotted.1);
    DerefsKept(values, suffixed.0, suffixed.1);
    KeptOne(values, i);
    KeptSplit(values, i, i + 1, dotted.1);
    KeptSplit(values, i, dotted.1, suffixed.1);
    KeptSplit(values, i, suffixed.1, r.1);
  }

  lemma {:induction false} ItemsKept(values: seq<Tok>, i: nat)
    requires Lexed(values) && i <= |values|
    ensures AllOperands(Items(values, i)) == Kept(values[i..])
    decreases |values|, 1, 3 + |values| - i
  {
    assert values[i..] == values[i..|values|];
    if i < |values| {
      var next := if IsName(values[i]) then Operand(values, i).1 else i + 1;
      ItemsKept(values, next);
      assert values[next..] == values[next..|values|];
      KeptSplit(values, i, next, |values|);
      if IsName(values[i]) {
        OperandKept(values, i);
        AllAdd([Operand(values, i).0], Items(values, next));
        One(Operand(values, i).0);
      } else {
        KeptOne(values, i);
        if IsConstant(values[i]) {
          AllAdd([Constant(values[i])], Items(values, next));
          One(Constant(values[i]));
        }
      }
    }
  }

  /** A set of one element is not told from the element: the node with one child gives way. */
  lemma {:induction false} SingletonSetIsElement(open: Tok, x: Tok, close: Tok)
    requires open.value == "[" && close.value == "]" && IsName(x) && x.value != "[" && x.value != "]" && x.value != "," && x.value != "."
    ensures Direct([open, x, close]) == Direct([x]) == Some(Name(x))
  {
    var values := [open, x, close];
    assert Balance(values, 0, 1, "[", "]") == 1;
    assert Balance(values, 0, 2, "[", "]") == 1;
    assert Balance(values, 0, 3, "[", "]") == 0;
    assert Matching(values, 0, 2, "[", "]") == Some(2);
    assert Matching(values, 0, 1, "[", "]") == Some(2);
    assert Matching(values, 0, 0, "[", "]") == Some(2);
    assert values[1..2] == [x];
    OneName(x);
    OnePart(x);
    assert values[0 + 1..2] == [x];
    assert Split(values[0 + 1..2]) == [[x]];
    SplitIsShort([x], 3);
    assert Inside(values, 0, 2) == Each([[x]], 3);
    EachOne([x], 3);
  }

  lemma {:induction false} EachOne(part: seq<Tok>, bound: nat)
    requires |part| < bound && part != []
    ensures Each([part], bound) == [Direct(part).value]
  {
    var none: seq<seq<Tok>> := [];
    assert [part][1..] == none;
    assert Each(none, bound) == [];
    assert Direct(part).Some? && AllShort([part], bound);
    assert Each([part], bound) == [Direct(part).value] + Each([part][1..], bound);
  }

  lemma {:induction false} OnePart(x: Tok)
    requires x.value != ","
    ensures Split([x]) == [[x]]
  {
    var none: seq<Tok> := [];
    assert [x][..0] == none;
    assert !EndsPart([x], ",");
    var before := Parts(none, ",");
    assert before == [none] && before[|before| - 1] + [[x][|[x]| - 1]] == [x];
    assert before[..|before| - 1] + [[x]] == [[x]];
  }

  lemma {:induction false} OneName(x: Tok)
    requires IsName(x) && x.value != "["
    ensures Direct([x]) == Some(Name(x))
  {
    assert Items([x], 1) == [];
    assert Operand([x], 0) == (Name(x), 1);
    assert Items([x], 0) == [Name(x)];
  }

  /** The operand of a name and what follows it: a dot and a name, brackets, or a caret. */
  lemma {:induction false} NameAlone(values: seq<Tok>, i: nat, next: nat)
    requires i < |values| && next == i + 1 && (next < |values| ==> !IsMark(values[next].value))
    ensures Operand(values, i) == (Name(values[i]), next)
  {
  }

  lemma {:induction false} DottedName(values: seq<Tok>, i: nat, second: nat, next: nat)
    requires second == i + 2 < |values| && next == i + 3 && values[i + 1].value == "." && IsName(values[second])
    requires next < |values| ==> !IsMark(values[next].value)
    ensures Operand(values, i) == (Dot(Name(values[i]), Name(values[second])), next)
  {
    assert Dots(values, Dot(Name(values[i]), Name(values[second])), next) == (Dot(Name(values[i]), Name(values[second])), next);
  }

  lemma {:induction false} CalledName(values: seq<Tok>, i: nat, bracket: nat, close: nat, next: nat)
    requires bracket == i + 1 < |values| && Closing(values, bracket) == Some(close) && next == close + 1
    requires next < |values| ==> values[next].value != "^"
    ensures values[bracket].value == "(" ==> Operand(values, i) == (CallOf(Name(values[i]), Inside(values, bracket, close)), next)
    ensures values[bracket].value == "[" ==> Operand(values, i) == (IndexOf(Name(values[i]), Inside(values, bracket, close)), next)
  {
    assert Dots(values, Name(values[i]), bracket) == (Name(values[i]), bracket);
  }

  lemma {:induction false} DereferencedName(values: seq<Tok>, i: nat, caret: nat, next: nat)
    requires caret == i + 1 < |values| && values[caret].value == "^" && next == i + 2 && (next < |values| ==> values[next].value != "^")
    ensures Operand(values, i) == (Deref(Name(values[i])), next)
  {
    assert Dots(values, Name(values[i]), caret) == (Name(values[i]), caret);
    assert Derefs(values, Deref(Name(values[i])), next) == (Deref(Name(values[i])), next);
  }
}
