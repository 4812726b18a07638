/** The syntax tree the analyses walk: the node kinds that the control-flow and
    data-flow builders tell apart, and the explicit-stack preorder walk they share. */
module SyntaxTree {
  import opened Sequences
  import opened Wrappers

  datatype Kind =
    | Statements | Statement | Assign | EmptyStatement
    | If | While | For | Repeat | Case | CaseElse | Try | Except | ExceptionHandler
    | Finally | Raise | Goto | With
    | Call | Else | Lhs | Rhs | Identifier | Name
    | Other(code: nat)

  /** `uid` stands for the object identity of the node; `name` is its name attribute,
      empty when the attribute is missing. */
  datatype Node = Node(uid: nat, kind: Kind, name: string, children: seq<Node>)

  predicate IsControl(k: Kind) {
    k in {If, While, For, Repeat, Case, CaseElse, Try, Except, ExceptionHandler, Finally, Raise, Goto, With}
  }

  predicate IsExecutable(k: Kind) {
    k in {Statements, Statement, Assign, EmptyStatement} || IsControl(k) || k == Call
  }

  /** The nodes of a tree, every node before its descendants, children from left to right. */
  function Preorder(n: Node): (r: seq<Node>)
    ensures |r| > 0 && r[0] == n
  {
    [n] + PreorderAll(n.children)
  }

  function PreorderAll(ns: seq<Node>): seq<Node> {
    if ns == [] then [] else Preorder(ns[0]) + PreorderAll(ns[1..])
  }

  /** What is under one child stands between what is under those before it and those behind it. */
  lemma {:induction false} PreorderSplits(ns: seq<Node>, i: nat)
    requires i < |ns|
    ensures PreorderAll(ns) == PreorderAll(ns[..i]) + ([ns[i]] + PreorderAll(ns[i].children)) + PreorderAll(ns[i + 1..])
  {
    if i > 0 {
      var tail := ns[1..];
      PreorderSplits(tail, i - 1);
      assert tail[..i - 1] == ns[..i][1..] && tail[i - 1] == ns[i] && tail[i..] == ns[i + 1..];
    }
  }

  /** The i-th node is the first of its kind. */
  ghost predicate IsFirst(ns: seq<Node>, kind: Kind, i: nat) {
    i < |ns| && ns[i].kind == kind && forall j :: 0 <= j < i ==> ns[j].kind != kind
  }

  ghost predicate NoneOf(ns: seq<Node>, kind: Kind) {
    forall j :: 0 <= j < |ns| ==> ns[j].kind != kind
  }

  function Uids(ns: seq<Node>): seq<nat> {
    seq(|ns|, i requires 0 <= i < |ns| => ns[i].uid)
  }

  /** What a stack of unvisited nodes still has to deliver, top of the stack first. */
  function Pending(stack: seq<Node>): seq<Node> {
    if stack == [] then []
    else Preorder(stack[|stack| - 1]) + Pending(stack[..|stack| - 1])
  }

  /** Pushing the reversed children leaves their preorder on top. */
  lemma {:induction false} PendingAfterPush(stack: seq<Node>, ns: seq<Node>)
    ensures Pending(stack + Reversed(ns)) == PreorderAll(ns) + Pending(stack)
  {
    if ns == [] {
      assert stack + Reversed(ns) == stack;
    } else {
      var pushed, below := stack + Reversed(ns), stack + Reversed(ns[1..]);
      assert pushed == below + [ns[0]];
      assert pushed[..|pushed| - 1] == below;
      PendingAfterPush(stack, ns[1..]);
      assert Pending(pushed) == Preorder(ns[0]) + Pending(below);
      assert Preorder(ns[0]) + (PreorderAll(ns[1..]) + Pending(stack)) == PreorderAll(ns) + Pending(stack);
    }
  }

  /** One step of the walk: popping a node and pushing its children visits the node. */
  lemma {:induction false} PendingStep(stack: seq<Node>)
    requires stack != []
    ensures var n := stack[|stack| - 1];
            Pending(stack) == [n] + Pending(stack[..|stack| - 1] + Reversed(n.children))
  {
    PendingAfterPush(stack[..|stack| - 1], stack[|stack| - 1].children);
  }

  /** The first child of the given kind. */
  function FindChild(ns: seq<Node>, kind: Kind): (r: Option<Node>)
    ensures r.Some? ==> r.value in ns && r.value.kind == kind
    ensures r.None? ==> forall n :: n in ns ==> n.kind != kind
    ensures forall i: nat :: IsFirst(ns, kind, i) ==> r == Some(ns[i])
    ensures NoneOf(ns, kind) ==> r == None
  {
    if ns == [] then None
    else if ns[0].kind == kind then Some(ns[0])
    else FindChild(ns[1..], kind)
  }
}
