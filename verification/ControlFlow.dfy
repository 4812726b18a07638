/** The control-flow graph builder: the edges laid for a syntax tree, and the proof that
    for structured statements the paths from entry to exit are the executions. */
module ControlFlow {
  import opened FlowPaths
  import opened SyntaxTree

  // ----- what the builder lays down -----

  function Size(n: Node): nat {
    1 + SizeAll(n.children)
  }

  function SizeAll(ns: seq<Node>): nat {
    if ns == [] then 0 else Size(ns[0]) + SizeAll(ns[1..])
  }

  lemma {:induction false} SizeAllAppend(a: seq<Node>, b: seq<Node>)
    ensures SizeAll(a + b) == SizeAll(a) + SizeAll(b)
  {
    if a == [] {
      assert a + b == b;
    } else {
      assert (a + b)[1..] == a[1..] + b;
      SizeAllAppend(a[1..], b);
    }
  }

  function Executables(ns: seq<Node>): (r: seq<Node>)
    ensures SizeAll(r) <= SizeAll(ns)
  {
    if ns == [] then []
    else if IsExecutable(ns[0].kind) then [ns[0]] + Executables(ns[1..])
    else Executables(ns[1..])
  }

  /** What one child contributes: an `else` part its executable children. */
  function Branches(n: Node): seq<Node> {
    if n.kind == Else then Executables(n.children) else if IsExecutable(n.kind) then [n] else []
  }

  /** The executable children, those of an `else` part in its place. */
  function BranchNodes(ns: seq<Node>): (r: seq<Node>)
    ensures SizeAll(r) <= SizeAll(ns)
  {
    if ns == [] then []
    else
      SizeAllAppend(Branches(ns[0]), BranchNodes(ns[1..]));
      Branches(ns[0]) + BranchNodes(ns[1..])
  }

  /** The edges from one node to each entry. */
  function Fan(source: Id, entries: seq<Id>, kind: EdgeKind): (r: seq<Edge>)
    ensures forall e :: e in r <==> e.source == source && e.kind == kind && e.target in entries
  {
    if entries == [] then [] else [Edge(source, entries[0], kind)] + Fan(source, entries[1..], kind)
  }

  /** The edges from each exit, by its own kind, to each entry. */
  function Cross(exits: seq<Step>, entries: seq<Id>): (r: seq<Edge>)
    ensures forall e :: e in r <==> Step(e.source, e.kind) in exits && e.target in entries
  {
    if exits == [] then [] else Fan(exits[0].node, entries, exits[0].kind) + Cross(exits[1..], entries)
  }

  /** The edges from each exit to one node, all of one kind. */
  function Back(exits: seq<Step>, target: Id, kind: EdgeKind): (r: seq<Edge>)
    ensures forall e :: e in r <==> e.target == target && e.kind == kind && exists x :: x in exits && x.node == e.source
  {
    if exits == [] then []
    else
      [Edge(exits[0].node, target, kind)] + Back(exits[1..], target, kind)
  }

  const NOTHING := Flow([], [], [])

  function Alone(node: Id, kind: EdgeKind): Flow {
    Flow([node], [Step(node, kind)], [])
  }

  /** The flows of the given nodes, those without entries dropped, and all edges laid. */
  datatype Flows = Flows(parts: seq<Fragment>, edges: seq<Edge>)

  function BuildAll(ns: seq<Node>, ids: map<nat, Id>): Flows
    decreases SizeAll(ns), 1
  {
    if ns == [] then Flows([], [])
    else
      var init := ns[..|ns| - 1];
      var last := ns[|ns| - 1];
      assert ns == init + [last];
      SizeAllAppend(init, [last]);
      var rest := BuildAll(init, ids);
      var f := Build(last, ids);
      Flows(if f.entries == [] then rest.parts else rest.parts + [Fragment(f.entries, f.exits)], rest.edges + f.edges)
  }

  /** The edges that join consecutive parts. */
  function Joints(parts: seq<Fragment>): seq<Edge> {
    if |parts| < 2 then []
    else
      Joints(parts[..|parts| - 1]) + Cross(parts[|parts| - 2].exits, parts[|parts| - 1].entries)
  }

  function Chain(fs: Flows): Flow {
    if fs.parts == [] then Flow([], [], fs.edges)
    else Flow(fs.parts[0].entries, fs.parts[|fs.parts| - 1].exits, fs.edges + Joints(fs.parts))
  }

  /** Each branch is entered from the node by a `Branch` edge; the exits are collected. */
  function Alternatives(node: Id, bs: seq<Node>, ids: map<nat, Id>): (seq<Step>, seq<Edge>)
    decreases SizeAll(bs), 1
  {
    if bs == [] then ([], [])
    else
      var init := bs[..|bs| - 1];
      var last := bs[|bs| - 1];
      assert bs == init + [last];
      SizeAllAppend(init, [last]);
      var (exits, edges) := Alternatives(node, init, ids);
      var f := Build(last, ids);
      (exits + f.exits, edges + f.edges + Fan(node, f.entries, Branch))
  }

  lemma {:induction false} SizeAt(ns: seq<Node>, i: nat)
    requires i < |ns|
    ensures Size(ns[i]) <= SizeAll(ns)
  {
    if i > 0 {
      SizeAt(ns[1..], i - 1);
    }
  }

  function Build(n: Node, ids: map<nat, Id>): Flow
    decreases Size(n), 0
  {
    if n.kind == Statements then Chain(BuildAll(Executables(n.children), ids))
    else if n.uid !in ids then NOTHING
    else
      Control(n.kind, ids[n.uid], BranchNodes(n.children), ids)
  }

  /** The flow of a node that is no statement list, from its kind and its branches. */
  function Control(kind: Kind, node: Id, bs: seq<Node>, ids: map<nat, Id>): Flow
    decreases SizeAll(bs), 3
  {
    match kind
    case If => Deciding(node, bs, ids)
    case While => Looping(node, bs, ids)
    case For => Looping(node, bs, ids)
    case Repeat => Repeating(node, bs, ids)
    case Case => Choice(node, bs, ids)
    case Try => Choice(node, bs, ids)
    case Except => Choice(node, bs, ids)
    case Finally => Choice(node, bs, ids)
    case Raise => Alone(node, Terminal)
    case Goto => Alone(node, Terminal)
    case _ => Alone(node, Next)
  }

  function Deciding(node: Id, bs: seq<Node>, ids: map<nat, Id>): Flow
    decreases SizeAll(bs), 2
  {
    if bs == [] then Alone(node, False)
    else
      SizeAt(bs, 0);
      var a := Build(bs[0], ids);
      if |bs| == 1 then
        Flow([node], a.exits + [Step(node, False)], a.edges + Fan(node, a.entries, True))
      else
        SizeAt(bs, 1);
        var b := Build(bs[1], ids);
        Flow([node], a.exits + b.exits, a.edges + Fan(node, a.entries, True) + b.edges + Fan(node, b.entries, False))
  }

  function Repeating(node: Id, bs: seq<Node>, ids: map<nat, Id>): Flow
    decreases SizeAll(bs), 2
  {
    var body := BuildAll(bs, ids);
    if body.parts == [] then Flow([node], [Step(node, True)], body.edges)
    else
      var f := Chain(body);
      Flow(f.entries, [Step(node, True)], f.edges + Back(f.exits, node, LoopTest) + Fan(node, f.entries, LoopBack))
  }

  function Looping(node: Id, bs: seq<Node>, ids: map<nat, Id>): Flow
    decreases SizeAll(bs), 2
  {
    if bs == [] then Alone(node, False)
    else
      SizeAt(bs, |bs| - 1);
      var a := Build(bs[|bs| - 1], ids);
      Flow([node], [Step(node, False)], a.edges + Fan(node, a.entries, True) + Back(a.exits, node, LoopBack))
  }

  function Choice(node: Id, bs: seq<Node>, ids: map<nat, Id>): Flow
    decreases SizeAll(bs), 2
  {
    var (exits, edges) := Alternatives(node, bs, ids);
    Flow([node], if exits == [] then [Step(node, Next)] else exits, edges)
  }

  // ----- the branches of case and try -----

  /** The flow of a case or a try: every edge of every branch, one `Branch` edge to each entry of each
      branch, and no other; its exits are those of the branches in order, or itself if there is none. */
  lemma {:induction false} ChoiceHolds(n: Node, ids: map<nat, Id>)
    requires n.kind in {Case, Try, Except, Finally} && n.uid in ids
    ensures var f, node, bs := Build(n, ids), ids[n.uid], BranchNodes(n.children);
            && f.entries == [node]
            && (forall e :: e in f.edges <==>
                  exists i: nat :: i < |bs| && OfBranch(e, node, bs[i], ids))
            && f.exits == (if AllExits(bs, ids) == [] then [Step(node, Next)] else AllExits(bs, ids))
  {
    var node, bs := ids[n.uid], BranchNodes(n.children);
    ChoiceFlow(n, ids);
    AlternativesHold(node, bs, ids);
  }

  lemma {:induction false} ChoiceFlow(n: Node, ids: map<nat, Id>)
    requires n.kind in {Case, Try, Except, Finally} && n.uid in ids
    ensures Build(n, ids) == Choice(ids[n.uid], BranchNodes(n.children), ids)
  {
    assert Build(n, ids) == Control(n.kind, ids[n.uid], BranchNodes(n.children), ids);
  }

  function AllExits(bs: seq<Node>, ids: map<nat, Id>): seq<Step> {
    if bs == [] then [] else Build(bs[0], ids).exits + AllExits(bs[1..], ids)
  }

  lemma {:induction false} AllExitsSnoc(bs: seq<Node>, b: Node, ids: map<nat, Id>)
    ensures AllExits(bs + [b], ids) == AllExits(bs, ids) + Build(b, ids).exits
  {
    if bs == [] {
      assert [b][1..] == [] && bs + [b] == [b];
    } else {
      assert (bs + [b])[1..] == bs[1..] + [b];
      AllExitsSnoc(bs[1..], b, ids);
    }
  }

  ghost predicate OfBranch(e: Edge, node: Id, b: Node, ids: map<nat, Id>) {
    e in Build(b, ids).edges || (e.source == node && e.kind == Branch && e.target in Build(b, ids).entries)
  }

  lemma {:induction false} AlternativesHold(node: Id, bs: seq<Node>, ids: map<nat, Id>)
    ensures Alternatives(node, bs, ids).0 == AllExits(bs, ids)
    ensures forall e :: e in Alternatives(node, bs, ids).1 <==> exists i: nat :: i < |bs| && OfBranch(e, node, bs[i], ids)
  {
    if bs != [] {
      var init, last := bs[..|bs| - 1], bs[|bs| - 1];
      assert bs == init + [last];
      AlternativesHold(node, init, ids);
      AllExitsSnoc(init, last, ids);
      forall e
        ensures e in Alternatives(node, bs, ids).1 <==> exists i: nat :: i < |bs| && OfBranch(e, node, bs[i], ids)
      {
        assert e in Alternatives(node, bs, ids).1 <==> e in Alternatives(node, init, ids).1 || OfBranch(e, node, last, ids);
        if i: nat :| i < |bs| && OfBranch(e, node, bs[i], ids) {
          assert i < |init| ==> OfBranch(e, node, init[i], ids);
        }
        if i: nat :| i < |init| && OfBranch(e, node, init[i], ids) {
          assert OfBranch(e, node, bs[i], ids);
        }
        if OfBranch(e, node, last, ids) {
          assert OfBranch(e, node, bs[|bs| - 1], ids);
        }
      }
    }
  }

  // ----- every flow keeps to its part of the tree -----

  /** The identities of a node and of everything under it. */
  ghost function Under(n: Node): set<nat> {
    {n.uid} + UnderAll(n.children)
  }

  ghost function UnderAll(ns: seq<Node>): set<nat> {
    if ns == [] then {} else Under(ns[0]) + UnderAll(ns[1..])
  }

  lemma {:induction false} UnderAppend(a: seq<Node>, b: seq<Node>)
    ensures UnderAll(a + b) == UnderAll(a) + UnderAll(b)
  {
    if a == [] {
      assert a + b == b;
    } else {
      assert (a + b)[1..] == a[1..] + b;
      UnderAppend(a[1..], b);
    }
  }

  lemma {:induction false} UnderAt(ns: seq<Node>, i: nat)
    requires i < |ns|
    ensures Under(ns[i]) <= UnderAll(ns)
  {
    if i > 0 {
      UnderAt(ns[1..], i - 1);
    }
  }

  lemma {:induction false} ExecutablesUnder(ns: seq<Node>)
    ensures UnderAll(Executables(ns)) <= UnderAll(ns)
  {
    if ns != [] {
      ExecutablesUnder(ns[1..]);
      if IsExecutable(ns[0].kind) {
        assert ([ns[0]] + Executables(ns[1..]))[1..] == Executables(ns[1..]);
      }
    }
  }

  lemma {:induction false} BranchNodesUnder(ns: seq<Node>)
    ensures UnderAll(BranchNodes(ns)) <= UnderAll(ns)
  {
    if ns != [] {
      BranchNodesUnder(ns[1..]);
      UnderAppend(Branches(ns[0]), BranchNodes(ns[1..]));
      ExecutablesUnder(ns[0].children);
      assert UnderAll([ns[0]]) == Under(ns[0]) + UnderAll([]);
    }
  }

  /** The graph nodes of the retained tree nodes. */
  ghost function Kept(us: set<nat>, ids: map<nat, Id>): set<Id> {
    set u | u in us && u in ids :: ids[u]
  }

  /** The flow is made of the given nodes, and is empty if it has no entry. */
  ghost predicate Stays(f: Flow, ns: set<Id>) {
    Within(f, ns) && (f.entries == [] ==> f == NOTHING)
  }

  ghost predicate AllStay(fs: Flows, ns: set<Id>) {
    && (fs.parts == [] ==> fs.edges == [])
    && (forall e :: e in fs.edges ==> e.source in ns && e.target in ns)
    && forall i :: 0 <= i < |fs.parts| ==>
         && fs.parts[i].entries != [] && (forall x :: x in fs.parts[i].entries ==> x in ns)
         && forall x :: x in fs.parts[i].exits ==> x.node in ns
  }

  lemma {:induction false} StaysWider(f: Flow, a: set<Id>, b: set<Id>)
    requires Stays(f, a) && a <= b
    ensures Stays(f, b)
  {
  }

  lemma {:induction false} JointsStay(parts: seq<Fragment>, fs: Flows, ns: set<Id>)
    requires AllStay(fs, ns) && parts <= fs.parts
    ensures forall e :: e in Joints(parts) ==> e.source in ns && e.target in ns
  {
    if |parts| >= 2 {
      JointsStay(parts[..|parts| - 1], fs, ns);
    }
  }

  lemma {:induction false} ChainStays(fs: Flows, ns: set<Id>)
    requires AllStay(fs, ns)
    ensures Stays(Chain(fs), ns)
  {
    JointsStay(fs.parts, fs, ns);
  }

  lemma {:induction false} BuildAllStays(ns: seq<Node>, ids: map<nat, Id>)
    ensures AllStay(BuildAll(ns, ids), Kept(UnderAll(ns), ids))
    decreases SizeAll(ns), 2
  {
    if ns != [] {
      var init, last := ns[..|ns| - 1], ns[|ns| - 1];
      assert ns == init + [last];
      SizeAllAppend(init, [last]);
      UnderAppend(init, [last]);
      BuildAllStays(init, ids);
      BuildStays(last, ids);
      StaysWider(Build(last, ids), Kept(Under(last), ids), Kept(UnderAll(ns), ids));
    }
  }

  lemma {:induction false} AlternativesStay(node: Id, bs: seq<Node>, ids: map<nat, Id>, ns: set<Id>)
    requires node in ns && Kept(UnderAll(bs), ids) <= ns
    ensures forall x :: x in Alternatives(node, bs, ids).0 ==> x.node in ns
    ensures forall e :: e in Alternatives(node, bs, ids).1 ==> e.source in ns && e.target in ns
    decreases SizeAll(bs), 2
  {
    if bs != [] {
      var init, last := bs[..|bs| - 1], bs[|bs| - 1];
      assert bs == init + [last];
      SizeAllAppend(init, [last]);
      UnderAppend(init, [last]);
      AlternativesStay(node, init, ids, ns);
      BuildStays(last, ids);
      StaysWider(Build(last, ids), Kept(Under(last), ids), ns);
    }
  }

  lemma {:induction false} PartStays(bs: seq<Node>, i: nat, ids: map<nat, Id>, ns: set<Id>)
    requires i < |bs| && Kept(UnderAll(bs), ids) <= ns
    ensures Stays(Build(bs[i], ids), ns)
    decreases SizeAll(bs), 2
  {
    SizeAt(bs, i);
    UnderAt(bs, i);
    BuildStays(bs[i], ids);
    StaysWider(Build(bs[i], ids), Kept(Under(bs[i]), ids), ns);
  }

  lemma {:induction false} LoopingStays(node: Id, bs: seq<Node>, ids: map<nat, Id>, ns: set<Id>)
    requires node in ns && Kept(UnderAll(bs), ids) <= ns
    ensures Stays(Looping(node, bs, ids), ns) && Looping(node, bs, ids).entries == [node]
    decreases SizeAll(bs), 3
  {
    if bs != [] {
      PartStays(bs, |bs| - 1, ids, ns);
    }
  }

  lemma {:induction false} DecidingStays(node: Id, bs: seq<Node>, ids: map<nat, Id>, ns: set<Id>)
    requires node in ns && Kept(UnderAll(bs), ids) <= ns
    ensures Stays(Deciding(node, bs, ids), ns) && Deciding(node, bs, ids).entries == [node]
    decreases SizeAll(bs), 3
  {
    if bs != [] {
      PartStays(bs, 0, ids, ns);
      if |bs| > 1 {
        PartStays(bs, 1, ids, ns);
      }
    }
  }

  lemma {:induction false} RepeatingStays(node: Id, bs: seq<Node>, ids: map<nat, Id>, ns: set<Id>)
    requires node in ns && Kept(UnderAll(bs), ids) <= ns
    ensures Stays(Repeating(node, bs, ids), ns) && Repeating(node, bs, ids).entries != []
    ensures Repeating(node, bs, ids).exits == [Step(node, True)]
    decreases SizeAll(bs), 3
  {
    BuildAllStays(bs, ids);
    ChainStays(BuildAll(bs, ids), Kept(UnderAll(bs), ids));
    StaysWider(Chain(BuildAll(bs, ids)), Kept(UnderAll(bs), ids), ns);
  }

  lemma {:induction false} ChoiceStays(node: Id, bs: seq<Node>, ids: map<nat, Id>, ns: set<Id>)
    requires node in ns && Kept(UnderAll(bs), ids) <= ns
    ensures Stays(Choice(node, bs, ids), ns) && Choice(node, bs, ids).entries == [node]
    decreases SizeAll(bs), 3
  {
    AlternativesStay(node, bs, ids, ns);
  }

  /** A control node, case and try among them, is the one entry of its flow; only a repeat is
      entered by its body, if that has an entry, and left by its test alone. */
  lemma {:induction false} ControlStays(kind: Kind, node: Id, bs: seq<Node>, ids: map<nat, Id>, ns: set<Id>)
    requires node in ns && Kept(UnderAll(bs), ids) <= ns
    ensures Stays(Control(kind, node, bs, ids), ns)
    ensures if kind == Repeat then Control(kind, node, bs, ids).exits == [Step(node, True)] else Control(kind, node, bs, ids).entries == [node]
    decreases SizeAll(bs), 4
  {
    match kind
    case If => DecidingStays(node, bs, ids, ns);
    case While => LoopingStays(node, bs, ids, ns);
    case For => LoopingStays(node, bs, ids, ns);
    case Repeat => RepeatingStays(node, bs, ids, ns);
    case Case => ChoiceStays(node, bs, ids, ns);
    case Try => ChoiceStays(node, bs, ids, ns);
    case Except => ChoiceStays(node, bs, ids, ns);
    case Finally => ChoiceStays(node, bs, ids, ns);
    case _ =>
  }

  /** For every tree, whatever its kinds: the flow is made of the graph nodes of the tree's retained
      nodes; without an entry it has neither exits nor edges; and a retained control node is its one
      entry, except that a repeat is left by its test only. */
  lemma {:induction false} BuildStays(n: Node, ids: map<nat, Id>)
    ensures Stays(Build(n, ids), Kept(Under(n), ids))
    ensures n.kind != Statements && n.uid in ids ==>
              if n.kind == Repeat then Build(n, ids).exits == [Step(ids[n.uid], True)] else Build(n, ids).entries == [ids[n.uid]]
    decreases Size(n), 0
  {
    var ns := Kept(Under(n), ids);
    if n.kind == Statements {
      var parts := Executables(n.children);
      ExecutablesUnder(n.children);
      BuildAllStays(parts, ids);
      ChainStays(BuildAll(parts, ids), Kept(UnderAll(parts), ids));
      StaysWider(Build(n, ids), Kept(UnderAll(parts), ids), ns);
    } else if n.uid in ids {
      BranchNodesUnder(n.children);
      ControlStays(n.kind, ids[n.uid], BranchNodes(n.children), ids, ns);
    }
  }
}
