/** Stacks of open blocks, and what becomes of them where conditional branches meet. */
module OutlineStacks {
  import opened LexerGrammar
  import opened Wrappers

  type Stack = seq<string>

  /** A conditional directive that is open: the stack before it and at the end of each branch so far. */
  datatype Frame = Frame(base: Stack, branches: seq<Stack>, hasAlternative: bool)

  predicate IsStatement(word: string) {
    word == "begin" || word == "asm" || word == "case" || word == "try"
  }

  /** All statement blocks have one shape. */
  function ShapeOf(word: string): string {
    if IsStatement(word) then "statement" else word
  }

  ghost predicate SameShapes(a: Stack, b: Stack) {
    |a| == |b| && forall i :: 0 <= i < |a| ==> ShapeOf(a[i]) == ShapeOf(b[i])
  }

  function Shapes(a: Stack): (r: seq<string>)
    ensures |r| == |a| && forall i :: 0 <= i < |r| ==> r[i] == ShapeOf(a[i])
  {
    seq(|a|, i requires 0 <= i < |a| => ShapeOf(a[i]))
  }

  /** The values of all branches at one depth. */
  function Column(branches: seq<Stack>, k: nat): (r: seq<string>)
    requires forall i :: 0 <= i < |branches| ==> k < |branches[i]|
    ensures |r| == |branches| && forall i :: 0 <= i < |r| ==> r[i] == branches[i][k]
  {
    seq(|branches|, i requires 0 <= i < |branches| => branches[i][k])
  }

  /** The value that all share, or a plain block. */
  function OneOf(values: seq<string>): string
    requires values != []
  {
    if forall i :: 0 <= i < |values| ==> values[i] == values[0] then values[0] else "begin"
  }

  predicate Deeper(branches: seq<Stack>, k: nat) {
    forall i :: 0 <= i < |branches| ==> k < |branches[i]|
  }

  /** The columns from `k` up to `end`, each as one value. */
  function Columns(branches: seq<Stack>, k: nat, end: nat): (r: Stack)
    requires branches != [] && k <= end && forall i :: 0 <= i < |branches| ==> end <= |branches[i]|
    ensures |r| == end - k
    decreases end - k
  {
    if k == end then [] else [OneOf(Column(branches, k))] + Columns(branches, k + 1, end)
  }

  predicate Extends(branch: Stack, base: Stack) {
    |base| <= |branch| && branch[..|base|] == base
  }

  /** The branches agree: each keeps the base, and all have the same shapes above it. */
  ghost predicate Agree(base: Stack, branches: seq<Stack>) {
    forall b :: b in branches ==> Extends(b, base) && SameShapes(b, branches[0])
  }

  /** One stack for branches that agree. */
  function Merge(base: Stack, branches: seq<Stack>): Option<Stack> {
    if branches == [] || exists i :: 0 <= i < |branches| && !Extends(branches[i], base) then None
    else if exists i :: 0 <= i < |branches| && Shapes(branches[i][|base|..]) != Shapes(branches[0][|base|..]) then None
    else
      assert forall i :: 0 <= i < |branches| ==> |Shapes(branches[i][|base|..])| == |branches[0]| - |base|;
      Some(base + Columns(branches, |base|, |branches[0]|))
  }

  predicate SameShapeAt(branches: seq<Stack>, k: nat)
    requires Deeper(branches, k)
  {
    forall i, j :: 0 <= i < |branches| && 0 <= j < |branches| ==> ShapeOf(branches[i][k]) == ShapeOf(branches[j][k])
  }

  /** The columns from `k` on as long as the branches have one shape there. */
  function Common(branches: seq<Stack>, k: nat): Stack
    requires branches != []
    requires forall i :: 0 <= i < |branches| ==> k <= |branches[i]|
    decreases |branches[0]| - k
  {
    if Deeper(branches, k) && SameShapeAt(branches, k) then [OneOf(Column(branches, k))] + Common(branches, k + 1)
    else []
  }

  lemma {:induction false} OneOfShape(branches: seq<Stack>, k: nat, i: nat)
    requires i < |branches| && Deeper(branches, k) && SameShapeAt(branches, k)
    ensures ShapeOf(OneOf(Column(branches, k))) == ShapeOf(branches[i][k])
    ensures (forall j :: 0 <= j < |branches| ==> branches[j][k] == branches[0][k]) ==> OneOf(Column(branches, k)) == branches[0][k]
  {
    var values := Column(branches, k);
    if j :| 0 <= j < |values| && values[j] != values[0] {
      assert ShapeOf(branches[j][k]) == ShapeOf(branches[0][k]);
      assert ShapeOf("begin") == "statement";
      assert !IsStatement("statement");
    }
  }

  lemma {:induction false} ColumnsShape(branches: seq<Stack>, k: nat, end: nat, i: nat)
    requires i < |branches| && k <= end && forall j :: 0 <= j < |branches| ==> end <= |branches[j]|
    requires forall d :: k <= d < end ==> Deeper(branches, d) && SameShapeAt(branches, d)
    ensures SameShapes(Columns(branches, k, end), branches[i][k..end])
    decreases end - k
  {
    if k < end {
      ColumnsShape(branches, k + 1, end, i);
      OneOfShape(branches, k, i);
      var rest := Columns(branches, k + 1, end);
      assert Columns(branches, k, end) == [OneOf(Column(branches, k))] + rest;
      assert branches[i][k..end] == [branches[i][k]] + branches[i][k + 1..end];
    }
  }

  /** Branches merge exactly if there are any and they agree, and the merged stack has the base
      and the shapes of every branch. */
  lemma {:induction false} MergeHolds(base: Stack, branches: seq<Stack>)
    ensures Merge(base, branches).Some? <==> branches != [] && Agree(base, branches)
    ensures Merge(base, branches).Some? ==> forall b :: b in branches ==> SameShapes(Merge(base, branches).value, b)
    ensures Merge(base, branches).Some? ==> Extends(Merge(base, branches).value, base)
  {
    if branches != [] && Agree(base, branches) {
      AgreeMerges(base, branches);
    }
    if Merge(base, branches).Some? {
      MergedShapes(base, branches);
    }
  }

  lemma {:induction false} AgreeMerges(base: Stack, branches: seq<Stack>)
    requires branches != [] && Agree(base, branches)
    ensures Merge(base, branches).Some?
  {
    assert forall i :: 0 <= i < |branches| ==> branches[i] in branches;
    forall i | 0 <= i < |branches|
      ensures Extends(branches[i], base) && Shapes(branches[i][|base|..]) == Shapes(branches[0][|base|..])
    {
      assert SameShapes(branches[i], branches[0]);
    }
  }

  lemma {:induction false} MergedShapes(base: Stack, branches: seq<Stack>)
    requires Merge(base, branches).Some?
    ensures Agree(base, branches)
    ensures forall b :: b in branches ==> SameShapes(Merge(base, branches).value, b)
  {
    var n := |branches[0]|;
    forall i | 0 <= i < |branches|
      ensures SameShapes(branches[i], branches[0])
    {
      TailShapes(base, branches[i], branches[0]);
    }
    forall d | |base| <= d < n
      ensures Deeper(branches, d) && SameShapeAt(branches, d)
    {
      assert forall i :: 0 <= i < |branches| ==> |branches[i]| == n && ShapeOf(branches[i][d]) == ShapeOf(branches[0][d]);
    }
    forall b | b in branches
      ensures SameShapes(Merge(base, branches).value, b)
    {
      var i :| 0 <= i < |branches| && branches[i] == b;
      ColumnsShape(branches, |base|, n, i);
      assert b == base + b[|base|..n];
    }
  }

  lemma {:induction false} TailShapes(base: Stack, a: Stack, b: Stack)
    requires Extends(a, base) && Extends(b, base) && Shapes(a[|base|..]) == Shapes(b[|base|..])
    ensures SameShapes(a, b)
  {
    assert |a| - |base| == |Shapes(a[|base|..])| == |b| - |base|;
    forall i | 0 <= i < |a|
      ensures ShapeOf(a[i]) == ShapeOf(b[i])
    {
      if i < |base| {
        assert a[i] == base[i] == b[i];
      } else {
        assert Shapes(a[|base|..])[i - |base|] == ShapeOf(a[i]) && Shapes(b[|base|..])[i - |base|] == ShapeOf(b[i]);
      }
    }
  }

  /** `b` begins with the shapes of `a`. */
  ghost predicate StartsLike(b: Stack, a: Stack) {
    |a| <= |b| && forall d :: 0 <= d < |a| ==> ShapeOf(b[d]) == ShapeOf(a[d])
  }

  lemma {:induction false} CommonLength(branches: seq<Stack>, k: nat, i: nat)
    requires i < |branches| && forall j :: 0 <= j < |branches| ==> k <= |branches[j]|
    ensures k + |Common(branches, k)| <= |branches[i]|
    decreases |branches[0]| - k
  {
    if Deeper(branches, k) && SameShapeAt(branches, k) {
      CommonLength(branches, k + 1, i);
    }
  }

  lemma {:induction false} CommonTail(branches: seq<Stack>, k: nat, next: nat, d: nat, e: nat)
    requires branches != [] && (forall j :: 0 <= j < |branches| ==> k <= |branches[j]|)
    requires next == k + 1 && d == e + 1 && d < |Common(branches, k)|
    ensures (forall j :: 0 <= j < |branches| ==> next <= |branches[j]|) && e < |Common(branches, next)|
    ensures Common(branches, k)[d] == Common(branches, next)[e]
  {
    var tail := Common(branches, next);
    assert Common(branches, k) == [Common(branches, k)[0]] + tail;
  }

  lemma {:induction false} CommonFits(branches: seq<Stack>, k: nat, i: nat, d: nat, at: nat)
    requires i < |branches| && (forall j :: 0 <= j < |branches| ==> k <= |branches[j]|) && at == k + d
    requires d < |Common(branches, k)|
    ensures at < |branches[i]| && ShapeOf(Common(branches, k)[d]) == ShapeOf(branches[i][at])
    decreases d
  {
    CommonLength(branches, k, i);
    if d == 0 {
      OneOfShape(branches, k, i);
    } else {
      var next, e := k + 1, d - 1;
      CommonTail(branches, k, next, d, e);
      CommonFits(branches, next, i, e, at);
    }
  }

  lemma {:induction false} CommonStops(branches: seq<Stack>, k: nat, end: nat)
    requires branches != [] && (forall j :: 0 <= j < |branches| ==> k <= |branches[j]|) && end == k + |Common(branches, k)|
    ensures !(Deeper(branches, end) && SameShapeAt(branches, end))
    decreases |branches[0]| - k
  {
    if Deeper(branches, k) && SameShapeAt(branches, k) {
      var next := k + 1;
      assert |Common(branches, k)| == 1 + |Common(branches, next)|;
      CommonStops(branches, next, end);
    }
  }

  /** The stack for branches that do not agree: the longest whose shapes begin all of them. */
  lemma {:induction false} CommonIsLongest(branches: seq<Stack>)
    requires branches != []
    ensures forall b :: b in branches ==> StartsLike(b, Common(branches, 0))
    ensures forall longer: Stack :: (forall b :: b in branches ==> StartsLike(b, longer)) ==> |longer| <= |Common(branches, 0)|
  {
    forall b | b in branches
      ensures StartsLike(b, Common(branches, 0))
    {
      var i :| 0 <= i < |branches| && branches[i] == b;
      CommonLength(branches, 0, i);
      forall d | 0 <= d < |Common(branches, 0)|
        ensures ShapeOf(b[d]) == ShapeOf(Common(branches, 0)[d])
      {
        CommonFits(branches, 0, i, d, d);
      }
    }
    forall longer: Stack | forall b :: b in branches ==> StartsLike(b, longer)
      ensures |longer| <= |Common(branches, 0)|
    {
      CommonStops(branches, 0, |Common(branches, 0)|);
      if |longer| > |Common(branches, 0)| {
        AllHave(branches, longer, |Common(branches, 0)|);
      }
    }
  }

  lemma {:induction false} AllHave(branches: seq<Stack>, longer: Stack, n: nat)
    requires n < |longer| && forall b :: b in branches ==> StartsLike(b, longer)
    ensures Deeper(branches, n) && SameShapeAt(branches, n)
  {
    forall i | 0 <= i < |branches|
      ensures n < |branches[i]| && ShapeOf(branches[i][n]) == ShapeOf(longer[n])
    {
      assert branches[i] in branches;
    }
  }

  /** The stack behind a conditional directive, and whether the branches agreed. */
  function Joined(frame: Frame, last: Stack): (r: (Stack, bool)) {
    var all := frame.branches + [last] + if frame.hasAlternative then [] else [frame.base];
    var merged := Merge(frame.base, all);
    if merged.Some? then (merged.value, true) else (Common(all, 0), false)
  }
}
