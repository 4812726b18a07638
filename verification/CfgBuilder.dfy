/** The control-flow builder as the program runs it: a recursive walk that appends to one
    shared edge list, and the whole graph between the entry and the exit node. */
module CfgBuilder {
  import opened ControlFlow
  import opened FlowPaths
  import opened Sequences
  import opened StructuredFlow
  import opened SyntaxTree
  import opened Wrappers

  /** The edges that tie a fragment to the entry and the exit of the routine. */
  function Closing(f: Fragment, entry: Id, exit: Id): seq<Edge> {
    if f.entries == [] then [Edge(entry, exit, Empty)]
    else Fan(entry, f.entries, Next) + Cross(f.exits, [exit])
  }

  class EdgeLog {
    var edges: seq<Edge>

    constructor ()
      ensures edges == []
    {
      edges := [];
    }

    method Add(source: Id, target: Id, kind: EdgeKind)
      modifies this
      ensures edges == old(edges) + [Edge(source, target, kind)]
    {
      edges := edges + [Edge(source, target, kind)];
    }

    method AddFan(source: Id, entries: seq<Id>, kind: EdgeKind)
      modifies this
      ensures edges == old(edges) + Fan(source, entries, kind)
    {
      for i := 0 to |entries|
        invariant edges + Fan(source, entries[i..], kind) == old(edges) + Fan(source, entries, kind)
      {
        assert entries[i..][1..] == entries[i + 1..];
        Associative(edges, [Edge(source, entries[i], kind)], Fan(source, entries[i + 1..], kind));
        Add(source, entries[i], kind);
      }
      assert entries[|entries|..] == [];
    }

    method AddCross(exits: seq<Step>, entries: seq<Id>)
      modifies this
      ensures edges == old(edges) + Cross(exits, entries)
    {
      for i := 0 to |exits|
        invariant edges + Cross(exits[i..], entries) == old(edges) + Cross(exits, entries)
      {
        var fan := Fan(exits[i].node, entries, exits[i].kind);
        CrossAt(exits, entries, i);
        Associative(edges, fan, Cross(exits[i + 1..], entries));
        AddFan(exits[i].node, entries, exits[i].kind);
      }
      assert exits[|exits|..] == [];
    }

    method AddBack(exits: seq<Step>, target: Id, kind: EdgeKind)
      modifies this
      ensures edges == old(edges) + Back(exits, target, kind)
    {
      for i := 0 to |exits|
        invariant edges + Back(exits[i..], target, kind) == old(edges) + Back(exits, target, kind)
      {
        assert exits[i..][1..] == exits[i + 1..];
        Associative(edges, [Edge(exits[i].node, target, kind)], Back(exits[i + 1..], target, kind));
        Add(exits[i].node, target, kind);
      }
      assert exits[|exits|..] == [];
    }

    method AddClosing(f: Fragment, entry: Id, exit: Id)
      modifies this
      ensures edges == old(edges) + Closing(f, entry, exit)
    {
      if f.entries == [] {
        Add(entry, exit, Empty);
      } else {
        AddFan(entry, f.entries, Next);
        AddCross(f.exits, [exit]);
        Associative(old(edges), Fan(entry, f.entries, Next), Cross(f.exits, [exit]));
      }
    }

    /** The fragments of a list of nodes, those without entries dropped. */
    method AddAll(ns: seq<Node>, ids: map<nat, Id>) returns (parts: seq<Fragment>)
      modifies this
      ensures parts == BuildAll(ns, ids).parts && edges == old(edges) + BuildAll(ns, ids).edges
      decreases SizeAll(ns), 1
    {
      parts := [];
      for i := 0 to |ns|
        invariant parts == BuildAll(ns[..i], ids).parts && edges == old(edges) + BuildAll(ns[..i], ids).edges
      {
        SizeAt(ns, i);
        var f := AddFragment(ns[i], ids);
        BuildAllAt(ns, i, ids);
        Associative(old(edges), BuildAll(ns[..i], ids).edges, Build(ns[i], ids).edges);
        if f.entries != [] {
          parts := parts + [f];
        }
      }
      assert ns[..|ns|] == ns;
    }

    /** Joins consecutive fragments. */
    method AddJoints(parts: seq<Fragment>)
      modifies this
      ensures edges == old(edges) + Joints(parts)
    {
      for i := 0 to |parts|
        invariant edges == old(edges) + Joints(parts[..i])
      {
        assert parts[..i + 1][..i] == parts[..i];
        if i > 0 {
          AddCross(parts[i - 1].exits, parts[i].entries);
        }
      }
      assert parts[..|parts|] == parts;
    }

    /** The fragments of a list of nodes, one after the other. */
    method AddChain(ns: seq<Node>, ids: map<nat, Id>) returns (f: Fragment)
      modifies this
      ensures f == Fragment(Chain(BuildAll(ns, ids)).entries, Chain(BuildAll(ns, ids)).exits)
      ensures edges == old(edges) + Chain(BuildAll(ns, ids)).edges
      decreases SizeAll(ns), 2
    {
      var parts := AddAll(ns, ids);
      if parts == [] {
        return Fragment([], []);
      }
      AddJoints(parts);
      Associative(old(edges), BuildAll(ns, ids).edges, Joints(parts));
      return Fragment(parts[0].entries, parts[|parts| - 1].exits);
    }

    /** The fragment of one node; its edges are appended to the list. */
    method AddFragment(n: Node, ids: map<nat, Id>) returns (f: Fragment)
      modifies this
      ensures f == Fragment(Build(n, ids).entries, Build(n, ids).exits)
      ensures edges == old(edges) + Build(n, ids).edges
      decreases Size(n), 0
    {
      if n.kind == Statements {
        f := AddChain(Executables(n.children), ids);
        return;
      }
      if n.uid !in ids {
        return Fragment([], []);
      }
      f := AddControl(n.kind, ids[n.uid], BranchNodes(n.children), ids);
    }

    method AddControl(kind: Kind, node: Id, bs: seq<Node>, ids: map<nat, Id>) returns (f: Fragment)
      modifies this
      ensures f == Fragment(Control(kind, node, bs, ids).entries, Control(kind, node, bs, ids).exits)
      ensures edges == old(edges) + Control(kind, node, bs, ids).edges
      decreases SizeAll(bs), 3
    {
      match kind {
        case If => f := AddIf(node, bs, ids);
        case While => f := AddLooping(node, bs, ids);
        case For => f := AddLooping(node, bs, ids);
        case Repeat => f := AddRepeat(node, bs, ids);
        case Case => f := AddChoice(node, bs, ids);
        case Try => f := AddChoice(node, bs, ids);
        case Except => f := AddChoice(node, bs, ids);
        case Finally => f := AddChoice(node, bs, ids);
        case Raise => f := Fragment([node], [Step(node, Terminal)]);
        case Goto => f := Fragment([node], [Step(node, Terminal)]);
        case _ => f := Fragment([node], [Step(node, Next)]);
      }
    }

    method AddChoice(node: Id, bs: seq<Node>, ids: map<nat, Id>) returns (f: Fragment)
      modifies this
      ensures f == Fragment(Choice(node, bs, ids).entries, Choice(node, bs, ids).exits)
      ensures edges == old(edges) + Choice(node, bs, ids).edges
      decreases SizeAll(bs), 2
    {
      var exits := AddAlternatives(node, bs, ids);
      return Fragment([node], if exits == [] then [Step(node, Next)] else exits);
    }

    method AddIf(node: Id, bs: seq<Node>, ids: map<nat, Id>) returns (f: Fragment)
      modifies this
      ensures f == Fragment(Deciding(node, bs, ids).entries, Deciding(node, bs, ids).exits)
      ensures edges == old(edges) + Deciding(node, bs, ids).edges
      decreases SizeAll(bs), 2
    {
      if bs == [] {
        return Fragment([node], [Step(node, False)]);
      }
      SizeAt(bs, 0);
      var a := AddFragment(bs[0], ids);
      AddFan(node, a.entries, True);
      ghost var first := Build(bs[0], ids).edges;
      Associative(old(edges), first, Fan(node, a.entries, True));
      if |bs| == 1 {
        return Fragment([node], a.exits + [Step(node, False)]);
      }
      SizeAt(bs, 1);
      var b := AddFragment(bs[1], ids);
      AddFan(node, b.entries, False);
      ghost var second := Build(bs[1], ids).edges;
      Associative(old(edges), first + Fan(node, a.entries, True), second);
      Associative(old(edges), first + Fan(node, a.entries, True) + second, Fan(node, b.entries, False));
      return Fragment([node], a.exits + b.exits);
    }

    method AddLooping(node: Id, bs: seq<Node>, ids: map<nat, Id>) returns (f: Fragment)
      modifies this
      ensures f == Fragment(Looping(node, bs, ids).entries, Looping(node, bs, ids).exits)
      ensures edges == old(edges) + Looping(node, bs, ids).edges
      decreases SizeAll(bs), 2
    {
      if bs != [] {
        SizeAt(bs, |bs| - 1);
        var a := AddFragment(bs[|bs| - 1], ids);
        AddFan(node, a.entries, True);
        AddBack(a.exits, node, LoopBack);
        ghost var inner := Build(bs[|bs| - 1], ids).edges;
        Associative(old(edges), inner, Fan(node, a.entries, True));
        Associative(old(edges), inner + Fan(node, a.entries, True), Back(a.exits, node, LoopBack));
      }
      return Fragment([node], [Step(node, False)]);
    }

    method AddRepeat(node: Id, bs: seq<Node>, ids: map<nat, Id>) returns (f: Fragment)
      modifies this
      ensures f == Fragment(Repeating(node, bs, ids).entries, Repeating(node, bs, ids).exits)
      ensures edges == old(edges) + Repeating(node, bs, ids).edges
      decreases SizeAll(bs), 2
    {
      var parts := AddAll(bs, ids);
      if parts == [] {
        return Fragment([node], [Step(node, True)]);
      }
      AddJoints(parts);
      AddBack(parts[|parts| - 1].exits, node, LoopTest);
      AddFan(node, parts[0].entries, LoopBack);
      ghost var chain := Chain(BuildAll(bs, ids));
      Associative(old(edges), BuildAll(bs, ids).edges, Joints(parts));
      Associative(old(edges), chain.edges, Back(chain.exits, node, LoopTest));
      Associative(old(edges), chain.edges + Back(chain.exits, node, LoopTest), Fan(node, chain.entries, LoopBack));
      return Fragment(parts[0].entries, [Step(node, True)]);
    }

    method AddAlternatives(node: Id, bs: seq<Node>, ids: map<nat, Id>) returns (exits: seq<Step>)
      modifies this
      ensures exits == Alternatives(node, bs, ids).0 && edges == old(edges) + Alternatives(node, bs, ids).1
      decreases SizeAll(bs), 1
    {
      exits := [];
      for i := 0 to |bs|
        invariant exits == Alternatives(node, bs[..i], ids).0 && edges == old(edges) + Alternatives(node, bs[..i], ids).1
      {
        SizeAt(bs, i);
        var f := AddFragment(bs[i], ids);
        AddFan(node, f.entries, Branch);
        AlternativesSnoc(node, bs, i, ids);
        ghost var before, inner := Alternatives(node, bs[..i], ids).1, Build(bs[i], ids).edges;
        Associative(old(edges), before, inner);
        Associative(old(edges), before + inner, Fan(node, f.entries, Branch));
        exits := exits + f.exits;
      }
      assert bs[..|bs|] == bs;
    }
  }

  lemma {:induction false} BuildAllAt(ns: seq<Node>, i: nat, ids: map<nat, Id>)
    requires i < |ns|
    ensures BuildAll(ns[..i + 1], ids) == Extend(BuildAll(ns[..i], ids), Build(ns[i], ids))
  {
    assert ns[..i + 1] == ns[..i] + [ns[i]];
    BuildAllSnoc(ns[..i], ns[i], ids);
  }

  lemma {:induction false} CrossAt(exits: seq<Step>, entries: seq<Id>, i: nat)
    requires i < |exits|
    ensures Cross(exits[i..], entries) == Fan(exits[i].node, entries, exits[i].kind) + Cross(exits[i + 1..], entries)
  {
    assert exits[i..][1..] == exits[i + 1..];
  }

  lemma {:induction false} Associative<T>(a: seq<T>, b: seq<T>, c: seq<T>)
    ensures a + (b + c) == (a + b) + c
  {
  }

  lemma {:induction false} AlternativesSnoc(node: Id, bs: seq<Node>, i: nat, ids: map<nat, Id>)
    requires i < |bs|
    ensures var (exits, edges) := Alternatives(node, bs[..i], ids);
            var f := Build(bs[i], ids);
            && Alternatives(node, bs[..i + 1], ids).0 == exits + f.exits
            && Alternatives(node, bs[..i + 1], ids).1 == edges + f.edges + Fan(node, f.entries, Branch)
  {
    assert bs[..i + 1][..i] == bs[..i];
  }

  /** The first statement list below the root of the routine, in preorder. */
  function FirstStatements(ns: seq<Node>): (r: Option<Node>)
    ensures r.Some? ==> r.value.kind == Statements
    ensures r.None? <==> NoneOf(ns, Statements)
    ensures forall i: nat :: IsFirst(ns, Statements, i) ==> r == Some(ns[i])
  {
    if ns == [] then None
    else if ns[0].kind == Statements then Some(ns[0])
    else FirstStatements(ns[1..])
  }

  lemma {:induction false} FirstIsFound(ns: seq<Node>)
    ensures var r := FirstStatements(ns);
            r.Some? ==> exists i: nat :: IsFirst(ns, Statements, i) && ns[i] == r.value
  {
    if ns != [] && ns[0].kind != Statements && FirstStatements(ns[1..]).Some? {
      FirstIsFound(ns[1..]);
      var i: nat :| IsFirst(ns[1..], Statements, i) && ns[1..][i] == FirstStatements(ns[1..]).value;
      assert IsFirst(ns, Statements, i + 1);
    } else if ns != [] && ns[0].kind == Statements {
      assert IsFirst(ns, Statements, 0);
    }
  }

  method FirstDescendant(root: Node) returns (r: Option<Node>)
    ensures r == FirstStatements(PreorderAll(root.children))
    ensures var p := PreorderAll(root.children);
            if r.None? then NoneOf(p, Statements) else exists k: nat :: IsFirst(p, Statements, k) && p[k] == r.value
  {
    FirstIsFound(PreorderAll(root.children));
    var stack := Reversed(root.children);
    PendingAfterPush([], root.children);
    assert [] + Reversed(root.children) == stack;
    assert Pending(stack) == PreorderAll(root.children);
    while stack != []
      invariant FirstStatements(Pending(stack)) == FirstStatements(PreorderAll(root.children))
      decreases |Pending(stack)|
    {
      var current := stack[|stack| - 1];
      PendingStep(stack);
      if current.kind == Statements {
        return Some(current);
      }
      stack := stack[..|stack| - 1] + Reversed(current.children);
    }
    return None;
  }

  function Graph(root: Node, ids: map<nat, Id>, rootId: Id, entry: Id, exit: Id): seq<Edge> {
    var body := FirstStatements(PreorderAll(root.children));
    var f := if body.Some? then Build(body.value, ids) else NOTHING;
    [Edge(rootId, entry, Entry)] + f.edges + Closing(Fragment(f.entries, f.exits), entry, exit)
  }

  /** The control-flow edges of a routine: entry and exit are joined to the fragment of its
      first statement list in preorder, or to each other when there is nothing to execute. */
  method BuildCfg(root: Node, ids: map<nat, Id>, rootId: Id, entry: Id, exit: Id) returns (edges: seq<Edge>)
    ensures edges == Graph(root, ids, rootId, entry, exit)
    ensures var p := PreorderAll(root.children);
            && (NoneOf(p, Statements) ==> edges == [Edge(rootId, entry, Entry), Edge(entry, exit, Empty)])
            && forall k: nat :: IsFirst(p, Statements, k) ==>
                 var f := Build(p[k], ids);
                 edges == [Edge(rootId, entry, Entry)] + f.edges + Closing(Fragment(f.entries, f.exits), entry, exit)
  {
    var log := new EdgeLog();
    log.Add(rootId, entry, Entry);
    assert log.edges == [Edge(rootId, entry, Entry)];
    var statements := FirstDescendant(root);
    if statements.None? {
      log.Add(entry, exit, Empty);
      assert log.edges == [Edge(rootId, entry, Entry)] + [] + [Edge(entry, exit, Empty)];
      return log.edges;
    }
    var f := log.AddFragment(statements.value, ids);
    log.AddClosing(f, entry, exit);
    return log.edges;
  }

  /** `w` is the steps of a path from `entry` that ends on the edge into `exit`. */
  ghost predicate Runs(edges: seq<Edge>, entry: Id, exit: Id, w: Word) {
    && w != [] && w[0].node == entry
    && Linked(edges, w)
    && Edge(w[|w| - 1].node, exit, w[|w| - 1].kind) in edges
  }

  /** The routine's tree: anything whose first statement list in preorder is the given block. */
  ghost predicate HasBody(root: Node, body: Stmt) {
    body.Block? && exists k: nat :: IsFirst(PreorderAll(root.children), Statements, k) && PreorderAll(root.children)[k] == Tree(body)
  }

  /** From entry to exit the graph runs exactly the executions of the body: the entry is
      left by a `Next` edge into an execution whose last step leads to the exit, or by an
      `Empty` edge straight to the exit when there is nothing to execute. */
  lemma {:induction false} RunsAreExecutions(root: Node, body: Stmt, ids: map<nat, Id>, rootId: Id, entry: Id, exit: Id, w: Word)
    requires HasBody(root, body) && Lawful(body) && Filled(body) && Placed(Owners(body), ids)
    requires entry != exit && rootId != entry && rootId != exit
    requires {rootId, entry, exit} !! NodesOf(Owners(body), ids)
    ensures Runs(Graph(root, ids, rootId, entry, exit), entry, exit, w) <==>
              if Occupied(body) then w != [] && w[0] == Step(entry, Next) && Executes(body, ids, w[1..])
              else w == [Step(entry, Empty)]
  {
    var f, ns := Build(Tree(body), ids), NodesOf(Owners(body), ids);
    var edges := Graph(root, ids, rootId, entry, exit);
    TreeFits(body, ids);
    if Occupied(body) {
      OccupiedRuns(f, ns, edges, rootId, entry, exit, w);
      if w != [] {
        TreeAgrees(body, ids, w[1..]);
      }
    } else {
      EmptyRuns(edges, rootId, entry, exit, w);
    }
  }

  lemma {:induction false} EmptyRuns(edges: seq<Edge>, rootId: Id, entry: Id, exit: Id, w: Word)
    requires edges == [Edge(rootId, entry, Entry), Edge(entry, exit, Empty)]
    requires entry != exit && rootId != entry && rootId != exit
    ensures Runs(edges, entry, exit, w) <==> w == [Step(entry, Empty)]
  {
    if Runs(edges, entry, exit, w) {
      if |w| > 1 {
        var i, j := 0, 1;
        assert Edge(w[i].node, w[j].node, w[i].kind) in edges;
        NeverAtExit(edges, entry, exit, w);
      } else {
        assert w == [w[0]];
      }
    }
  }

  /** The graph of a body that has something to execute. */
  lemma {:induction false} OccupiedRuns(f: Flow, ns: set<Id>, edges: seq<Edge>, rootId: Id, entry: Id, exit: Id, w: Word)
    requires edges == [Edge(rootId, entry, Entry)] + f.edges + Closing(Fragment(f.entries, f.exits), entry, exit)
    requires f.entries != [] && Within(f, ns) && {rootId, entry, exit} !! ns
    requires entry != exit && rootId != entry && rootId != exit
    ensures Runs(edges, entry, exit, w) <==> w != [] && w[0] == Step(entry, Next) && Path(f, w[1..])
  {
    assert Closes(edges, f, rootId, entry, exit);
    if Runs(edges, entry, exit, w) {
      RunSplits(edges, f, ns, rootId, entry, exit, w);
    }
    if w != [] && w[0] == Step(entry, Next) && Path(f, w[1..]) {
      RunJoins(edges, f, rootId, entry, exit, w[1..]);
      assert w == [Step(entry, Next)] + w[1..];
    }
  }

  /** No edge leaves the exit, so a run meets it only at its end. */
  lemma {:induction false} NeverAtExit(edges: seq<Edge>, entry: Id, exit: Id, w: Word)
    requires Runs(edges, entry, exit, w) && forall e :: e in edges ==> e.source != exit
    ensures forall i :: 0 <= i < |w| ==> w[i].node != exit
  {
    forall i | 0 <= i < |w|
      ensures w[i].node != exit
    {
      if i + 1 < |w| {
        var j := i + 1;
        assert Edge(w[i].node, w[j].node, w[i].kind) in edges;
      }
    }
  }

  ghost predicate Closes(edges: seq<Edge>, f: Flow, rootId: Id, entry: Id, exit: Id) {
    forall e :: e in edges <==>
      || e == Edge(rootId, entry, Entry)
      || e in f.edges
      || Enters(entry, Next, f, e)
      || (e.target == exit && Step(e.source, e.kind) in f.exits)
  }

  lemma {:induction false} RunSplits(edges: seq<Edge>, f: Flow, ns: set<Id>, rootId: Id, entry: Id, exit: Id, w: Word)
    requires Closes(edges, f, rootId, entry, exit) && Within(f, ns) && {rootId, entry, exit} !! ns
    requires entry != exit && rootId != entry && rootId != exit
    requires Runs(edges, entry, exit, w)
    ensures w[0] == Step(entry, Next) && Path(f, w[1..])
  {
    NeverAtExit(edges, entry, exit, w);
    if |w| == 1 {
      assert false;
    }
    var i, j := 0, 1;
    assert Edge(w[i].node, w[j].node, w[i].kind) in edges;
    var m := 1;
    while m + 1 < |w|
      invariant 1 <= m < |w| && forall h :: 1 <= h <= m ==> w[h].node in ns
    {
      var n := m + 1;
      assert Edge(w[m].node, w[n].node, w[m].kind) in edges;
      m := m + 1;
    }
    var v := w[1..];
    forall g, h | 0 <= g && h == g + 1 < |v|
      ensures Edge(v[g].node, v[h].node, v[g].kind) in f.edges
    {
      var p, q := g + 1, h + 1;
      assert Edge(w[p].node, w[q].node, w[p].kind) in edges;
    }
    assert v[|v| - 1] == w[|w| - 1];
  }

  lemma {:induction false} RunJoins(edges: seq<Edge>, f: Flow, rootId: Id, entry: Id, exit: Id, v: Word)
    requires Closes(edges, f, rootId, entry, exit) && Path(f, v)
    ensures Runs(edges, entry, exit, [Step(entry, Next)] + v)
  {
    assert Enters(entry, Next, f, Edge(entry, v[0].node, Next));
    LinkedJoin(edges, [Step(entry, Next)], v);
  }
}
