/** Structured statements, their executions as sequences of steps, and the theorem that
    the control-flow graph built for their tree has exactly these executions as paths. */
module StructuredFlow {
  import opened ControlFlow
  import opened FlowPaths
  import opened SyntaxTree

  /** A structured statement. `Silent` is an expression standing as a statement, which is
      no executable node. A condition may be any number of non-executable nodes. */
  datatype Stmt =
    | Simple(uid: nat, kind: Kind, name: string, children: seq<Node>)
    | Silent(node: Node)
    | Block(uid: nat, body: seq<Stmt>)
    | IfThen(uid: nat, cond: seq<Node>, then_: Stmt)
    | IfElse(uid: nat, cond: seq<Node>, then_: Stmt, elseUid: nat, else_: Stmt)
    | Loop(uid: nat, kind: Kind, cond: seq<Node>, inner: Stmt)
    | Until(uid: nat, body: seq<Stmt>, cond: seq<Node>)

  predicate Inert(ns: seq<Node>) {
    forall n :: n in ns ==> !IsExecutable(n.kind) && n.kind != Else
  }

  /** The shapes the theorem speaks about. */
  ghost predicate Lawful(s: Stmt) {
    match s
    case Simple(_, kind, _, _) => kind in {Assign, Call, Statement, EmptyStatement, Raise, Goto}
    case Silent(n) => Inert([n])
    case Block(_, body) => forall t :: t in body ==> Lawful(t)
    case IfThen(_, cond, a) => Inert(cond) && Lawful(a) && !a.Silent?
    case IfElse(_, cond, a, _, b) => Inert(cond) && Lawful(a) && Lawful(b) && !a.Silent? && !b.Silent?
    case Loop(_, kind, cond, a) => Inert(cond) && kind in {While, For} && Lawful(a) && !a.Silent?
    case Until(_, body, cond) => Inert(cond) && forall t :: t in body ==> Lawful(t)
  }

  /** The tree the parser builds for a statement. */
  function Tree(s: Stmt): Node {
    match s
    case Simple(uid, kind, name, children) => Node(uid, kind, name, children)
    case Silent(n) => n
    case Block(uid, body) => Node(uid, Statements, "", Trees(body))
    case IfThen(uid, cond, a) => Node(uid, If, "", cond + [Tree(a)])
    case IfElse(uid, cond, a, elseUid, b) => Node(uid, If, "", cond + [Tree(a), Node(elseUid, Else, "", [Tree(b)])])
    case Loop(uid, kind, cond, a) => Node(uid, kind, "", cond + [Tree(a)])
    case Until(uid, body, cond) => Node(uid, Repeat, "", Trees(body) + cond)
  }

  function Trees(body: seq<Stmt>): seq<Node> {
    if body == [] then [] else Trees(body[..|body| - 1]) + [Tree(body[|body| - 1])]
  }

  /** The statement has something to execute. */
  predicate Occupied(s: Stmt) {
    match s
    case Silent(_) => false
    case Block(_, body) => OccupiedAll(body)
    case _ => true
  }

  predicate OccupiedAll(body: seq<Stmt>) {
    body != [] && (OccupiedAll(body[..|body| - 1]) || Occupied(body[|body| - 1]))
  }

  /** Every loop body and both parts of every if-else have something to execute. */
  predicate Filled(s: Stmt) {
    match s
    case Simple(_, _, _, _) => true
    case Silent(_) => true
    case Block(_, body) => FilledAll(body)
    case IfThen(_, _, a) => Filled(a)
    case IfElse(_, _, a, _, b) => Filled(a) && Filled(b) && Occupied(a) && Occupied(b)
    case Loop(_, _, _, a) => Filled(a) && Occupied(a)
    case Until(_, body, _) => FilledAll(body) && OccupiedAll(body)
  }

  predicate FilledAll(body: seq<Stmt>) {
    body == [] || (FilledAll(body[..|body| - 1]) && Filled(body[|body| - 1]))
  }

  /** The nodes that execute: every simple statement and every test. */
  function Owners(s: Stmt): seq<nat> {
    match s
    case Simple(uid, _, _, _) => [uid]
    case Silent(_) => []
    case Block(_, body) => OwnersAll(body)
    case IfThen(uid, _, a) => [uid] + Owners(a)
    case IfElse(uid, _, a, _, b) => [uid] + Owners(a) + Owners(b)
    case Loop(uid, _, _, a) => [uid] + Owners(a)
    case Until(uid, body, _) => [uid] + OwnersAll(body)
  }

  function OwnersAll(body: seq<Stmt>): seq<nat> {
    if body == [] then [] else OwnersAll(body[..|body| - 1]) + Owners(body[|body| - 1])
  }

  // ----- the executions -----

  /** The graph node of a tree node; every node is retained where this is used. */
  function At(ids: map<nat, Id>, u: nat): Id {
    if u in ids then ids[u] else 0
  }

  predicate IsLast(w: Word, k: EdgeKind) {
    w != [] && w[|w| - 1].kind == k
  }

  /** `w` records one terminating execution of `s`: each step names the node executed and
      the outcome by which it was left. The last step of a loop body is left back to the
      test, whatever its own outcome would have been. When a `then` part has nothing to
      execute, taking it and skipping it are one outcome. */
  ghost predicate Executes(s: Stmt, ids: map<nat, Id>, w: Word)
    decreases s, 1, 0
  {
    match s
    case Simple(uid, kind, _, _) => w == [Step(At(ids, uid), if kind in {Raise, Goto} then Terminal else Next)]
    case Silent(_) => w == []
    case Block(_, body) => ExecutesAll(body, ids, w)
    case IfThen(uid, _, a) =>
      || w == [Step(At(ids, uid), False)]
      || (Occupied(a) && w != [] && w[0] == Step(At(ids, uid), True) && Executes(a, ids, w[1..]))
    case IfElse(uid, _, a, _, b) =>
      || (w != [] && w[0] == Step(At(ids, uid), True) && Executes(a, ids, w[1..]))
      || (w != [] && w[0] == Step(At(ids, uid), False) && Executes(b, ids, w[1..]))
    case Loop(_, _, _, _) => ExecutesLoop(s, ids, w)
    case Until(_, _, _) => ExecutesUntil(s, ids, w)
  }

  ghost predicate ExecutesAll(body: seq<Stmt>, ids: map<nat, Id>, w: Word)
    decreases body, 0, 0, 1
  {
    if body == [] then w == []
    else exists k: nat :: k <= |w| && ExecutesSplit(body, ids, w[..k], w[k..])
  }

  ghost predicate ExecutesSplit(body: seq<Stmt>, ids: map<nat, Id>, u: Word, v: Word)
    requires body != []
    decreases body, 0, 0, 0
  {
    ExecutesAll(body[..|body| - 1], ids, u) && Executes(body[|body| - 1], ids, v)
  }

  /** Test left as false, or left as true, the body once, and the loop again. */
  ghost predicate ExecutesLoop(s: Stmt, ids: map<nat, Id>, w: Word)
    requires s.Loop?
    decreases s, 0, |w|, 1
  {
    w == [Step(At(ids, s.uid), False)] || exists k: nat :: LoopsAt(s, ids, w, k)
  }

  ghost predicate LoopsAt(s: Stmt, ids: map<nat, Id>, w: Word, k: nat)
    requires s.Loop?
    decreases s, 0, |w|, 0
  {
    && 1 <= k < |w| && w[0] == Step(At(ids, s.uid), True)
    && (if k == 1 then Executes(s.inner, ids, [])
        else IsLast(w[1..k], LoopBack) && exists q :: Executes(s.inner, ids, Relast(w[1..k], q)))
    && ExecutesLoop(s, ids, w[k..])
  }

  /** The body once and the test, left as true at the end or looping back. */
  ghost predicate ExecutesUntil(s: Stmt, ids: map<nat, Id>, w: Word)
    requires s.Until?
    decreases s, 0, |w|, 1
  {
    exists k: nat :: TestsAt(s, ids, w, k)
  }

  ghost predicate TestsAt(s: Stmt, ids: map<nat, Id>, w: Word, k: nat)
    requires s.Until?
    decreases s, 0, |w|, 0
  {
    && k < |w| && w[k].node == At(ids, s.uid)
    && (if k == 0 then ExecutesAll(s.body, ids, [])
        else IsLast(w[..k], LoopTest) && exists q :: ExecutesAll(s.body, ids, Relast(w[..k], q)))
    && if k + 1 == |w| then w[k].kind == True else w[k].kind == LoopBack && ExecutesUntil(s, ids, w[k + 1..])
  }

  // ----- the tree as the builder sees it -----

  lemma {:induction false} ExecutablesAppend(a: seq<Node>, b: seq<Node>)
    ensures Executables(a + b) == Executables(a) + Executables(b)
  {
    if a == [] {
      assert a + b == b;
    } else {
      assert (a + b)[1..] == a[1..] + b;
      ExecutablesAppend(a[1..], b);
    }
  }

  lemma {:induction false} BranchNodesAppend(a: seq<Node>, b: seq<Node>)
    ensures BranchNodes(a + b) == BranchNodes(a) + BranchNodes(b)
  {
    if a == [] {
      assert a + b == b;
    } else {
      assert (a + b)[1..] == a[1..] + b;
      BranchNodesAppend(a[1..], b);
    }
  }

  lemma {:induction false} InertHasNoBranches(ns: seq<Node>)
    requires Inert(ns)
    ensures BranchNodes(ns) == [] && Executables(ns) == []
  {
    if ns != [] {
      assert ns[0] in ns;
      InertHasNoBranches(ns[1..]);
    }
  }

  lemma {:induction false} TreeKind(s: Stmt)
    requires Lawful(s)
    ensures IsExecutable(Tree(s).kind) <==> !s.Silent?
    ensures Tree(s).kind != Else
  {
    if s.Silent? {
      assert s.node in [s.node];
    }
  }

  /** The executable statements of a body, as the builder finds them. */
  lemma {:induction false} BodyBranches(body: seq<Stmt>, cond: seq<Node>)
    requires Inert(cond) && forall t :: t in body ==> Lawful(t)
    ensures BranchNodes(Trees(body) + cond) == Executables(Trees(body))
  {
    BranchNodesAppend(Trees(body), cond);
    InertHasNoBranches(cond);
    if body != [] {
      var init, last := body[..|body| - 1], body[|body| - 1];
      BodyBranches(init, []);
      assert Trees(init) + [] == Trees(init);
      BranchNodesAppend(Trees(init), [Tree(last)]);
      ExecutablesAppend(Trees(init), [Tree(last)]);
      TreeKind(last);
    }
  }

  function BuildBody(body: seq<Stmt>, ids: map<nat, Id>): Flows {
    BuildAll(Executables(Trees(body)), ids)
  }

  function Extend(rest: Flows, f: Flow): Flows {
    Flows(if f.entries == [] then rest.parts else rest.parts + [Fragment(f.entries, f.exits)], rest.edges + f.edges)
  }

  lemma {:induction false} BuildAllSnoc(ns: seq<Node>, n: Node, ids: map<nat, Id>)
    ensures BuildAll(ns + [n], ids) == Extend(BuildAll(ns, ids), Build(n, ids))
  {
    assert (ns + [n])[..|ns|] == ns;
  }

  lemma {:induction false} ExecutablesSnoc(body: seq<Stmt>)
    requires body != [] && Lawful(body[|body| - 1])
    ensures var init, last := body[..|body| - 1], body[|body| - 1];
            Executables(Trees(body)) == Executables(Trees(init)) + (if last.Silent? then [] else [Tree(last)])
  {
    ExecutablesAppend(Trees(body[..|body| - 1]), [Tree(body[|body| - 1])]);
    TreeKind(body[|body| - 1]);
  }

  lemma {:induction false} BuildBodySnoc(body: seq<Stmt>, ids: map<nat, Id>)
    requires body != [] && forall t :: t in body ==> Lawful(t)
    ensures var init, last := body[..|body| - 1], body[|body| - 1];
            BuildBody(body, ids) ==
            if last.Silent? then BuildBody(init, ids) else Extend(BuildBody(init, ids), Build(Tree(last), ids))
  {
    var init, last := body[..|body| - 1], body[|body| - 1];
    assert last in body;
    ExecutablesSnoc(body);
    if last.Silent? {
      assert Executables(Trees(init)) + [] == Executables(Trees(init));
    } else {
      BuildAllSnoc(Executables(Trees(init)), Tree(last), ids);
    }
  }

  /** Adding one flow to a chain: nothing new, the flow alone, or one after the other. */
  lemma {:induction false} ChainSnoc(rest: Flows, f: Flow)
    ensures f == NOTHING ==> Extend(rest, f) == rest
    ensures f.entries != [] && rest == Flows([], []) ==> Chain(Extend(rest, f)) == f
    ensures f.entries != [] && rest.parts != [] ==> IsThen(Chain(Extend(rest, f)), Chain(rest), f)
  {
    if f.entries != [] {
      var parts := rest.parts + [Fragment(f.entries, f.exits)];
      assert parts[..|parts| - 1] == rest.parts;
    }
  }

  // ----- distinct nodes -----

  /** Different executing nodes are different, retained graph nodes. */
  ghost predicate Placed(us: seq<nat>, ids: map<nat, Id>) {
    && (forall u :: u in us ==> u in ids)
    && forall i, j :: 0 <= i < j < |us| ==> At(ids, us[i]) != At(ids, us[j])
  }

  ghost function NodesOf(us: seq<nat>, ids: map<nat, Id>): set<Id> {
    set u | u in us :: At(ids, u)
  }

  lemma {:induction false} PlacedSplit(a: seq<nat>, b: seq<nat>, ids: map<nat, Id>)
    requires Placed(a + b, ids)
    ensures Placed(a, ids) && Placed(b, ids)
    ensures NodesOf(a, ids) !! NodesOf(b, ids)
    ensures NodesOf(a + b, ids) == NodesOf(a, ids) + NodesOf(b, ids)
  {
    var c := a + b;
    assert forall i :: 0 <= i < |a| ==> c[i] == a[i];
    assert forall i :: 0 <= i < |b| ==> c[|a| + i] == b[i];
    forall u | u in a || u in b
      ensures u in c
    {
    }
    forall i, j | 0 <= i < j < |b|
      ensures At(ids, b[i]) != At(ids, b[j])
    {
      assert c[|a| + i] == b[i] && c[|a| + j] == b[j];
    }
    forall i, j | 0 <= i < |a| && 0 <= j < |b|
      ensures At(ids, a[i]) != At(ids, b[j])
    {
      assert c[i] == a[i] && c[|a| + j] == b[j];
    }
  }

  // ----- the shape of the flow -----

  /** The flow stays among the given nodes and is empty unless there is something to execute. */
  ghost predicate Fits(f: Flow, occupied: bool, ns: set<Id>) {
    Within(f, ns) && if occupied then f.entries != [] else f == NOTHING
  }

  /** The same for a list of flows. */
  ghost predicate BodyIs(fs: Flows, occupied: bool, ns: set<Id>) {
    && Within(Chain(fs), ns)
    && if occupied then fs.parts != [] && Chain(fs).entries != [] else fs == Flows([], [])
  }

  lemma {:induction false} ExtendFits(rest: Flows, f: Flow, o: bool, p: bool, ns: set<Id>, ms: set<Id>)
    requires BodyIs(rest, o, ns) && Fits(f, p, ms)
    ensures BodyIs(Extend(rest, f), o || p, ns + ms)
  {
    ChainSnoc(rest, f);
    if o && p {
      assert IsThen(Chain(Extend(rest, f)), Chain(rest), f);
    }
  }

  lemma {:induction false} BodyFits(body: seq<Stmt>, ids: map<nat, Id>)
    requires forall t :: t in body ==> Lawful(t)
    requires Placed(OwnersAll(body), ids)
    ensures BodyIs(BuildBody(body, ids), OccupiedAll(body), NodesOf(OwnersAll(body), ids))
    decreases body, 0
  {
    if body != [] {
      var init, last := body[..|body| - 1], body[|body| - 1];
      assert last in body;
      PlacedSplit(OwnersAll(init), Owners(last), ids);
      BodyFits(init, ids);
      BuildBodySnoc(body, ids);
      assert OccupiedAll(body) == (OccupiedAll(init) || Occupied(last));
      assert OwnersAll(body) == OwnersAll(init) + Owners(last);
      if last.Silent? {
        assert !Occupied(last) && Owners(last) == [];
      } else {
        TreeFits(last, ids);
        ExtendFits(BuildBody(init, ids), Build(Tree(last), ids), OccupiedAll(init), Occupied(last),
                   NodesOf(OwnersAll(init), ids), NodesOf(Owners(last), ids));
      }
    }
  }

  lemma {:induction false} TreeFits(s: Stmt, ids: map<nat, Id>)
    requires Lawful(s) && Placed(Owners(s), ids) && !s.Silent?
    ensures Fits(Build(Tree(s), ids), Occupied(s), NodesOf(Owners(s), ids))
    decreases s, 1
  {
    match s
    case Simple(uid, _, _, _) =>
      assert uid in [uid];
    case Block(_, body) =>
      BodyFits(body, ids);
    case IfThen(uid, _, a) =>
      PlacedHead(uid, Owners(a), ids);
      TreeFits(a, ids);
      IfThenFits(s, ids);
    case IfElse(uid, _, a, _, b) =>
      PlacedSplit([uid] + Owners(a), Owners(b), ids);
      PlacedHead(uid, Owners(a), ids);
      TreeFits(a, ids);
      TreeFits(b, ids);
      IfElseFits(s, ids);
    case Loop(uid, _, _, a) =>
      PlacedHead(uid, Owners(a), ids);
      TreeFits(a, ids);
      LoopFits(s, ids);
    case Until(uid, body, _) =>
      PlacedHead(uid, OwnersAll(body), ids);
      BodyFits(body, ids);
      UntilFits(s, ids);
  }

  lemma {:induction false} IfThenFits(s: Stmt, ids: map<nat, Id>)
    requires s.IfThen? && Lawful(s) && s.uid in ids
    requires Within(Build(Tree(s.then_), ids), NodesOf(Owners(s.then_), ids))
    ensures Fits(Build(Tree(s), ids), true, {At(ids, s.uid)} + NodesOf(Owners(s.then_), ids))
  {
    IfThenBuild(s, ids);
    HeadedFits(Build(Tree(s), ids), At(ids, s.uid), Build(Tree(s.then_), ids), NOTHING, NodesOf(Owners(s.then_), ids), {});
  }

  lemma {:induction false} IfElseFits(s: Stmt, ids: map<nat, Id>)
    requires s.IfElse? && Lawful(s) && s.uid in ids
    requires Within(Build(Tree(s.then_), ids), NodesOf(Owners(s.then_), ids))
    requires Within(Build(Tree(s.else_), ids), NodesOf(Owners(s.else_), ids))
    ensures Fits(Build(Tree(s), ids), true, {At(ids, s.uid)} + NodesOf(Owners(s.then_), ids) + NodesOf(Owners(s.else_), ids))
  {
    IfElseBuild(s, ids);
    HeadedFits(Build(Tree(s), ids), At(ids, s.uid), Build(Tree(s.then_), ids), Build(Tree(s.else_), ids),
               NodesOf(Owners(s.then_), ids), NodesOf(Owners(s.else_), ids));
  }

  lemma {:induction false} LoopFits(s: Stmt, ids: map<nat, Id>)
    requires s.Loop? && Lawful(s) && s.uid in ids
    requires Within(Build(Tree(s.inner), ids), NodesOf(Owners(s.inner), ids))
    ensures Fits(Build(Tree(s), ids), true, {At(ids, s.uid)} + NodesOf(Owners(s.inner), ids))
  {
    LoopBuild(s, ids);
    HeadedFits(Build(Tree(s), ids), At(ids, s.uid), Build(Tree(s.inner), ids), NOTHING, NodesOf(Owners(s.inner), ids), {});
  }

  lemma {:induction false} UntilFits(s: Stmt, ids: map<nat, Id>)
    requires s.Until? && Lawful(s) && s.uid in ids
    requires BodyIs(BuildBody(s.body, ids), OccupiedAll(s.body), NodesOf(OwnersAll(s.body), ids))
    ensures Fits(Build(Tree(s), ids), true, {At(ids, s.uid)} + NodesOf(OwnersAll(s.body), ids))
  {
    UntilBuild(s, ids);
    if OccupiedAll(s.body) {
      UntilOccupiedFits(s, ids);
    }
  }

  lemma {:induction false} UntilOccupiedFits(s: Stmt, ids: map<nat, Id>)
    requires s.Until? && Lawful(s) && s.uid in ids
    requires BodyIs(BuildBody(s.body, ids), true, NodesOf(OwnersAll(s.body), ids))
    ensures Fits(Build(Tree(s), ids), true, {At(ids, s.uid)} + NodesOf(OwnersAll(s.body), ids))
  {
    UntilBuild(s, ids);
    TailedFits(Build(Tree(s), ids), At(ids, s.uid), Chain(BuildBody(s.body, ids)), NodesOf(OwnersAll(s.body), ids));
  }

  /** A test in front of two parts adds its own node. */
  lemma {:induction false} HeadedFits(f: Flow, c: Id, a: Flow, b: Flow, ns: set<Id>, ms: set<Id>)
    requires Within(a, ns) && Within(b, ms)
    requires f.entries == [c]
    requires forall x :: x in f.exits ==> x in a.exits || x in b.exits || x.node == c
    requires forall e :: e in f.edges ==> e in a.edges || e in b.edges ||
                                          (e.source == c && (e.target in a.entries || e.target in b.entries)) ||
                                          (e.target == c && exists x :: x in a.exits && x.node == e.source)
    ensures Fits(f, true, {c} + ns + ms)
  {
  }

  lemma {:induction false} TailedFits(f: Flow, c: Id, a: Flow, ns: set<Id>)
    requires Within(a, ns) && a.entries != []
    requires f.entries == a.entries && f.exits == [Step(c, True)]
    requires forall e :: e in f.edges ==> e in a.edges || (e.source == c && e.target in a.entries) ||
                                          (e.target == c && exists x :: x in a.exits && x.node == e.source)
    ensures Fits(f, true, {c} + ns)
  {
  }

  lemma {:induction false} PlacedHead(u: nat, us: seq<nat>, ids: map<nat, Id>)
    requires Placed([u] + us, ids)
    ensures u in ids && Placed(us, ids) && At(ids, u) !in NodesOf(us, ids)
    ensures NodesOf([u] + us, ids) == {At(ids, u)} + NodesOf(us, ids)
  {
    PlacedSplit([u], us, ids);
    assert u in [u] + us;
    assert At(ids, u) in NodesOf([u], ids);
    assert NodesOf([u], ids) == {At(ids, u)};
  }

  lemma {:induction false} IfThenBuild(s: Stmt, ids: map<nat, Id>)
    requires s.IfThen? && Lawful(s) && s.uid in ids
    ensures var node, a := At(ids, s.uid), Build(Tree(s.then_), ids);
            Build(Tree(s), ids) == Flow([node], a.exits + [Step(node, False)], a.edges + Fan(node, a.entries, True))
  {
    assert Build(Tree(s), ids) == Deciding(ids[s.uid], BranchNodes(Tree(s).children), ids);
    BranchNodesAppend(s.cond, [Tree(s.then_)]);
    InertHasNoBranches(s.cond);
    TreeKind(s.then_);
    assert BranchNodes(Tree(s).children) == [Tree(s.then_)];
  }

  lemma {:induction false} IfElseBuild(s: Stmt, ids: map<nat, Id>)
    requires s.IfElse? && Lawful(s) && s.uid in ids
    ensures var node, a, b := At(ids, s.uid), Build(Tree(s.then_), ids), Build(Tree(s.else_), ids);
            Build(Tree(s), ids) ==
            Flow([node], a.exits + b.exits, a.edges + Fan(node, a.entries, True) + b.edges + Fan(node, b.entries, False))
  {
    assert Build(Tree(s), ids) == Deciding(ids[s.uid], BranchNodes(Tree(s).children), ids);
    IfElseBranches(s);
  }

  lemma {:induction false} IfElseBranches(s: Stmt)
    requires s.IfElse? && Lawful(s)
    ensures BranchNodes(Tree(s).children) == [Tree(s.then_), Tree(s.else_)]
  {
    var other := Node(s.elseUid, Else, "", [Tree(s.else_)]);
    TreeKind(s.then_);
    TreeKind(s.else_);
    BranchNodesAppend(s.cond, [Tree(s.then_), other]);
    InertHasNoBranches(s.cond);
    assert [Tree(s.then_), other] == [Tree(s.then_)] + [other];
    BranchNodesAppend([Tree(s.then_)], [other]);
    assert Executables([Tree(s.else_)]) == [Tree(s.else_)];
    assert BranchNodes([other]) == [Tree(s.else_)] + BranchNodes([]);
  }

  lemma {:induction false} LoopBuild(s: Stmt, ids: map<nat, Id>)
    requires s.Loop? && Lawful(s) && s.uid in ids
    ensures var node, a := At(ids, s.uid), Build(Tree(s.inner), ids);
            Build(Tree(s), ids) ==
            Flow([node], [Step(node, False)], a.edges + Fan(node, a.entries, True) + Back(a.exits, node, LoopBack))
  {
    assert Build(Tree(s), ids) == Looping(ids[s.uid], BranchNodes(Tree(s).children), ids);
    BranchNodesAppend(s.cond, [Tree(s.inner)]);
    InertHasNoBranches(s.cond);
    TreeKind(s.inner);
    assert BranchNodes(Tree(s).children) == [Tree(s.inner)];
  }

  lemma {:induction false} UntilBuild(s: Stmt, ids: map<nat, Id>)
    requires s.Until? && Lawful(s) && s.uid in ids
    ensures var node, f := At(ids, s.uid), Chain(BuildBody(s.body, ids));
            Build(Tree(s), ids) ==
            if BuildBody(s.body, ids).parts == [] then Flow([node], [Step(node, True)], BuildBody(s.body, ids).edges)
            else Flow(f.entries, [Step(node, True)], f.edges + Back(f.exits, node, LoopTest) + Fan(node, f.entries, LoopBack))
  {
    assert Build(Tree(s), ids) == Repeating(ids[s.uid], BranchNodes(Tree(s).children), ids);
    BodyBranches(s.body, s.cond);
  }

  // ----- the paths are the executions -----

  /** The paths of `f` are the words that satisfy `s`, or there are none and `s` runs silently. */
  ghost predicate Agrees(s: Stmt, ids: map<nat, Id>, w: Word) {
    if Occupied(s) then Path(Build(Tree(s), ids), w) <==> Executes(s, ids, w)
    else Executes(s, ids, w) <==> w == []
  }

  ghost predicate AgreesAll(body: seq<Stmt>, ids: map<nat, Id>, w: Word) {
    if OccupiedAll(body) then Path(Chain(BuildBody(body, ids)), w) <==> ExecutesAll(body, ids, w)
    else ExecutesAll(body, ids, w) <==> w == []
  }

  ghost predicate AlwaysAgrees(s: Stmt, ids: map<nat, Id>) {
    forall w :: Agrees(s, ids, w)
  }

  ghost predicate AlwaysAgreesAll(body: seq<Stmt>, ids: map<nat, Id>) {
    forall w :: AgreesAll(body, ids, w)
  }

  lemma {:induction false} BodyAgrees(body: seq<Stmt>, ids: map<nat, Id>, w: Word)
    requires forall t :: t in body ==> Lawful(t)
    requires FilledAll(body) && Placed(OwnersAll(body), ids)
    ensures AgreesAll(body, ids, w)
    decreases body, 0, 0
  {
    if body != [] {
      var init, last := body[..|body| - 1], body[|body| - 1];
      assert last in body;
      PlacedSplit(OwnersAll(init), Owners(last), ids);
      forall v: Word
        ensures AgreesAll(init, ids, v) && Agrees(last, ids, v)
      {
        BodyAgrees(init, ids, v);
        TreeAgrees(last, ids, v);
      }
      BodyFits(init, ids);
      if !last.Silent? {
        TreeFits(last, ids);
      }
      BodySnocAgrees(body, ids, w);
    }
  }

  lemma {:induction false} BodySnocAgrees(body: seq<Stmt>, ids: map<nat, Id>, w: Word)
    requires body != [] && forall t :: t in body ==> Lawful(t)
    requires var init, last := body[..|body| - 1], body[|body| - 1];
             && AlwaysAgreesAll(init, ids) && AlwaysAgrees(last, ids)
             && BodyIs(BuildBody(init, ids), OccupiedAll(init), NodesOf(OwnersAll(init), ids))
             && (!last.Silent? ==> Fits(Build(Tree(last), ids), Occupied(last), NodesOf(Owners(last), ids)))
             && NodesOf(OwnersAll(init), ids) !! NodesOf(Owners(last), ids)
    ensures AgreesAll(body, ids, w)
  {
    var init, last := body[..|body| - 1], body[|body| - 1];
    var rest, f := BuildBody(init, ids), Build(Tree(last), ids);
    BuildBodySnoc(body, ids);
    if !last.Silent? {
      ChainSnoc(rest, f);
    }
    if OccupiedAll(init) && Occupied(last) {
      ThenAgrees(body, ids, Chain(BuildBody(body, ids)), w);
    } else if OccupiedAll(init) {
      SilentLast(body, ids, w);
      assert AgreesAll(init, ids, w);
    } else {
      SilentInit(body, ids, w);
      assert Agrees(last, ids, w);
    }
  }

  lemma {:induction false} SilentLast(body: seq<Stmt>, ids: map<nat, Id>, w: Word)
    requires body != []
    requires AlwaysAgrees(body[|body| - 1], ids)
    requires !Occupied(body[|body| - 1])
    ensures ExecutesAll(body, ids, w) <==> ExecutesAll(body[..|body| - 1], ids, w)
  {
    assert w[..|w|] == w && w[|w|..] == [];
    if ExecutesAll(body[..|body| - 1], ids, w) {
      assert Agrees(body[|body| - 1], ids, []);
      assert ExecutesSplit(body, ids, w[..|w|], w[|w|..]);
    }
    if k: nat :| k <= |w| && ExecutesSplit(body, ids, w[..k], w[k..]) {
      assert Agrees(body[|body| - 1], ids, w[k..]);
      assert w[..k] == w;
    }
  }

  lemma {:induction false} SilentInit(body: seq<Stmt>, ids: map<nat, Id>, w: Word)
    requires body != []
    requires AlwaysAgreesAll(body[..|body| - 1], ids)
    requires !OccupiedAll(body[..|body| - 1])
    ensures ExecutesAll(body, ids, w) <==> Executes(body[|body| - 1], ids, w)
  {
    assert w[..0] == [] && w[0..] == w;
    if Executes(body[|body| - 1], ids, w) {
      assert AgreesAll(body[..|body| - 1], ids, []);
      assert ExecutesSplit(body, ids, w[..0], w[0..]);
    }
    if k: nat :| k <= |w| && ExecutesSplit(body, ids, w[..k], w[k..]) {
      assert AgreesAll(body[..|body| - 1], ids, w[..k]);
      assert w[k..] == w;
    }
  }

  /** Two occupied parts one after the other. */
  lemma {:induction false} ThenAgrees(body: seq<Stmt>, ids: map<nat, Id>, f: Flow, w: Word)
    requires body != []
    requires var init, last := body[..|body| - 1], body[|body| - 1];
             var a, b := Chain(BuildBody(init, ids)), Build(Tree(last), ids);
             && AlwaysAgreesAll(init, ids) && AlwaysAgrees(last, ids) && OccupiedAll(init) && Occupied(last)
             && IsThen(f, a, b)
             && Within(a, NodesOf(OwnersAll(init), ids)) && Within(b, NodesOf(Owners(last), ids))
             && NodesOf(OwnersAll(init), ids) !! NodesOf(Owners(last), ids)
    ensures Path(f, w) <==> ExecutesAll(body, ids, w)
  {
    var init, last := body[..|body| - 1], body[|body| - 1];
    var a, b := Chain(BuildBody(init, ids)), Build(Tree(last), ids);
    forall k: nat | k <= |w|
      ensures SplitsAt(a, b, w, k) <==> ExecutesSplit(body, ids, w[..k], w[k..])
    {
      assert AgreesAll(init, ids, w[..k]) && Agrees(last, ids, w[k..]);
    }
    if Path(f, w) {
      var k := ThenSplits(f, a, b, NodesOf(OwnersAll(init), ids), NodesOf(Owners(last), ids), w);
      assert ExecutesSplit(body, ids, w[..k], w[k..]);
    }
    if k: nat :| k <= |w| && ExecutesSplit(body, ids, w[..k], w[k..]) {
      ThenJoins(f, a, b, w, k);
    }
  }

  /** On the stated shapes the graph's paths through a statement are its executions. */
  lemma {:induction false} TreeAgrees(s: Stmt, ids: map<nat, Id>, w: Word)
    requires Lawful(s) && Filled(s) && Placed(Owners(s), ids)
    ensures Agrees(s, ids, w)
    decreases s, 1, 0
  {
    match s
    case Simple(uid, _, _, _) =>
      SimpleAgrees(s, ids, w);
    case Silent(_) =>
    case Block(_, body) =>
      BodyAgrees(body, ids, w);
    case IfThen(uid, _, a) =>
      PlacedHead(uid, Owners(a), ids);
      TreeFits(a, ids);
      if w != [] {
        TreeAgrees(a, ids, w[1..]);
      }
      IfThenAgrees(s, ids, w);
    case IfElse(uid, _, a, _, b) =>
      PlacedSplit([uid] + Owners(a), Owners(b), ids);
      PlacedHead(uid, Owners(a), ids);
      assert At(ids, uid) in NodesOf([uid] + Owners(a), ids);
      TreeFits(a, ids);
      TreeFits(b, ids);
      if w != [] {
        TreeAgrees(a, ids, w[1..]);
        TreeAgrees(b, ids, w[1..]);
      }
      IfElseAgrees(s, ids, w);
    case Loop(uid, _, _, a) =>
      PlacedHead(uid, Owners(a), ids);
      TreeFits(a, ids);
      forall v: Word
        ensures Agrees(a, ids, v)
      {
        TreeAgrees(a, ids, v);
      }
      LoopAgrees(s, ids, w);
    case Until(uid, body, _) =>
      PlacedHead(uid, OwnersAll(body), ids);
      BodyFits(body, ids);
      forall v: Word
        ensures AgreesAll(body, ids, v)
      {
        BodyAgrees(body, ids, v);
      }
      UntilAgrees(s, ids, w);
  }

  lemma {:induction false} SimpleAgrees(s: Stmt, ids: map<nat, Id>, w: Word)
    requires s.Simple? && Lawful(s) && Placed(Owners(s), ids)
    ensures Agrees(s, ids, w)
  {
    assert s.uid in Owners(s);
    var f := Build(Tree(s), ids);
    var step := Step(At(ids, s.uid), if s.kind in {Raise, Goto} then Terminal else Next);
    assert f == Control(s.kind, ids[s.uid], BranchNodes(Tree(s).children), ids);
    assert f == Flow([step.node], [step], []);
    if |w| > 1 {
      var i, j := 0, 1;
      assert Edge(w[i].node, w[j].node, w[i].kind) !in f.edges;
    }
  }

  lemma {:induction false} IfThenAgrees(s: Stmt, ids: map<nat, Id>, w: Word)
    requires s.IfThen? && Lawful(s) && s.uid in ids
    requires At(ids, s.uid) !in NodesOf(Owners(s.then_), ids)
    requires Fits(Build(Tree(s.then_), ids), Occupied(s.then_), NodesOf(Owners(s.then_), ids))
    requires w != [] ==> Agrees(s.then_, ids, w[1..])
    ensures Agrees(s, ids, w)
  {
    IfThenIsBranch(s, ids);
    BranchPaths(Build(Tree(s), ids), At(ids, s.uid), Build(Tree(s.then_), ids), NOTHING, true, NodesOf(Owners(s.then_), ids), {}, w);
  }

  lemma {:induction false} IfElseAgrees(s: Stmt, ids: map<nat, Id>, w: Word)
    requires s.IfElse? && Lawful(s) && s.uid in ids
    requires Occupied(s.then_) && Occupied(s.else_)
    requires At(ids, s.uid) !in NodesOf(Owners(s.then_), ids) && At(ids, s.uid) !in NodesOf(Owners(s.else_), ids)
    requires NodesOf(Owners(s.then_), ids) !! NodesOf(Owners(s.else_), ids)
    requires Within(Build(Tree(s.then_), ids), NodesOf(Owners(s.then_), ids))
    requires Within(Build(Tree(s.else_), ids), NodesOf(Owners(s.else_), ids))
    requires w != [] ==> Agrees(s.then_, ids, w[1..]) && Agrees(s.else_, ids, w[1..])
    ensures Agrees(s, ids, w)
  {
    var f, a, b := Build(Tree(s), ids), Build(Tree(s.then_), ids), Build(Tree(s.else_), ids);
    IfElseIsBranch(s, ids);
    BranchPaths(f, At(ids, s.uid), a, b, false, NodesOf(Owners(s.then_), ids), NodesOf(Owners(s.else_), ids), w);
  }

  lemma {:induction false} LoopAgrees(s: Stmt, ids: map<nat, Id>, w: Word)
    requires s.Loop? && Lawful(s) && s.uid in ids && Occupied(s.inner)
    requires At(ids, s.uid) !in NodesOf(Owners(s.inner), ids)
    requires Within(Build(Tree(s.inner), ids), NodesOf(Owners(s.inner), ids))
    requires AlwaysAgrees(s.inner, ids)
    ensures Agrees(s, ids, w)
    decreases |w|
  {
    LoopBuild(s, ids);
    var f, c, a := Build(Tree(s), ids), At(ids, s.uid), Build(Tree(s.inner), ids);
    HeadLoopPaths(f, c, a, NodesOf(Owners(s.inner), ids), w);
    forall k: nat
      ensures HeadSplit(f, c, a, w, k) <==> LoopsAt(s, ids, w, k)
    {
      if 1 <= k < |w| {
        LoopAgrees(s, ids, w[k..]);
        assert Agrees(s, ids, w[k..]);
        LoopRoundAgrees(s, ids, w, k);
      }
    }
    assert ExecutesLoop(s, ids, w) <==> w == [Step(c, False)] || exists k: nat :: LoopsAt(s, ids, w, k);
  }

  lemma {:induction false} LoopRoundAgrees(s: Stmt, ids: map<nat, Id>, w: Word, k: nat)
    requires s.Loop? && Occupied(s.inner) && 1 <= k < |w|
    requires AlwaysAgrees(s.inner, ids)
    requires Path(Build(Tree(s), ids), w[k..]) <==> ExecutesLoop(s, ids, w[k..])
    ensures HeadSplit(Build(Tree(s), ids), At(ids, s.uid), Build(Tree(s.inner), ids), w, k) <==> LoopsAt(s, ids, w, k)
  {
    var a := Build(Tree(s.inner), ids);
    assert Agrees(s.inner, ids, []);
    forall q
      ensures Path(a, Relast(w[1..k], q)) <==> Executes(s.inner, ids, Relast(w[1..k], q))
    {
      assert Agrees(s.inner, ids, Relast(w[1..k], q));
    }
  }

  lemma {:induction false} UntilAgrees(s: Stmt, ids: map<nat, Id>, w: Word)
    requires s.Until? && Lawful(s) && s.uid in ids && OccupiedAll(s.body)
    requires At(ids, s.uid) !in NodesOf(OwnersAll(s.body), ids)
    requires BodyIs(BuildBody(s.body, ids), true, NodesOf(OwnersAll(s.body), ids))
    requires AlwaysAgreesAll(s.body, ids)
    ensures Agrees(s, ids, w)
    decreases |w|
  {
    UntilBuild(s, ids);
    var f, c, a := Build(Tree(s), ids), At(ids, s.uid), Chain(BuildBody(s.body, ids));
    TailLoopPaths(f, c, a, NodesOf(OwnersAll(s.body), ids), w);
    forall k: nat
      ensures TailSplit(f, c, a, w, k) <==> TestsAt(s, ids, w, k)
    {
      if k < |w| {
        UntilAgrees(s, ids, w[k + 1..]);
        assert Agrees(s, ids, w[k + 1..]);
        UntilRoundAgrees(s, ids, w, k);
      }
    }
    assert ExecutesUntil(s, ids, w) <==> exists k: nat :: TestsAt(s, ids, w, k);
  }

  lemma {:induction false} UntilRoundAgrees(s: Stmt, ids: map<nat, Id>, w: Word, k: nat)
    requires s.Until? && OccupiedAll(s.body) && k < |w|
    requires AlwaysAgreesAll(s.body, ids)
    requires Path(Build(Tree(s), ids), w[k + 1..]) <==> ExecutesUntil(s, ids, w[k + 1..])
    ensures TailSplit(Build(Tree(s), ids), At(ids, s.uid), Chain(BuildBody(s.body, ids)), w, k) <==> TestsAt(s, ids, w, k)
  {
    var a := Chain(BuildBody(s.body, ids));
    assert AgreesAll(s.body, ids, []);
    forall q
      ensures Path(a, Relast(w[..k], q)) <==> ExecutesAll(s.body, ids, Relast(w[..k], q))
    {
      assert AgreesAll(s.body, ids, Relast(w[..k], q));
    }
  }

  // ----- and only on those shapes -----

  /** Executions touch only the statement's own nodes, and are empty only when silent. */
  ghost predicate Touches(w: Word, occupied: bool, ns: set<Id>) {
    AllIn(w, ns) && (w == [] <==> !occupied)
  }

  lemma {:induction false} BodyTouches(body: seq<Stmt>, ids: map<nat, Id>, w: Word)
    requires ExecutesAll(body, ids, w)
    ensures Touches(w, OccupiedAll(body), NodesOf(OwnersAll(body), ids))
    decreases body, 0, 0
  {
    if body != [] {
      var init, last := body[..|body| - 1], body[|body| - 1];
      var k: nat :| k <= |w| && ExecutesSplit(body, ids, w[..k], w[k..]);
      BodyTouches(init, ids, w[..k]);
      StmtTouches(last, ids, w[k..]);
      assert w == w[..k] + w[k..];
      TouchesJoin(w[..k], w[k..], OwnersAll(init), Owners(last), ids);
    }
  }

  lemma {:induction false} TouchesJoin(u: Word, v: Word, a: seq<nat>, b: seq<nat>, ids: map<nat, Id>)
    requires AllIn(u, NodesOf(a, ids)) && AllIn(v, NodesOf(b, ids))
    ensures AllIn(u + v, NodesOf(a + b, ids))
  {
    forall x | x in a || x in b
      ensures At(ids, x) in NodesOf(a + b, ids)
    {
      assert x in a + b;
    }
  }

  lemma {:induction false} StmtTouches(s: Stmt, ids: map<nat, Id>, w: Word)
    requires Executes(s, ids, w)
    ensures Touches(w, Occupied(s), NodesOf(Owners(s), ids))
    decreases s, 1, 0
  {
    match s
    case Simple(uid, _, _, _) =>
      assert uid in Owners(s);
    case Silent(_) =>
    case Block(_, body) =>
      BodyTouches(body, ids, w);
    case IfThen(uid, _, a) =>
      assert uid in Owners(s);
      if |w| > 1 {
        StmtTouches(a, ids, w[1..]);
        TestTouches(w, uid, Owners(a), ids);
      }
    case IfElse(uid, _, a, _, b) =>
      assert uid in Owners(s);
      if w[0].kind == True {
        StmtTouches(a, ids, w[1..]);
        TestTouches(w, uid, Owners(a), ids);
        TouchesJoin(w, [], [uid] + Owners(a), Owners(b), ids);
        assert w + [] == w;
      } else {
        StmtTouches(b, ids, w[1..]);
        TestTouches(w, uid, Owners(b), ids);
        assert forall x :: x in [uid] + Owners(b) ==> x in Owners(s);
      }
    case Loop(_, _, _, _) =>
      LoopTouches(s, ids, w);
    case Until(_, _, _) =>
      UntilTouches(s, ids, w);
  }

  lemma {:induction false} TestTouches(w: Word, uid: nat, us: seq<nat>, ids: map<nat, Id>)
    requires w != [] && w[0].node == At(ids, uid) && AllIn(w[1..], NodesOf(us, ids))
    ensures AllIn(w, NodesOf([uid] + us, ids))
  {
    assert uid in [uid];
    assert AllIn([w[0]], NodesOf([uid], ids));
    TouchesJoin([w[0]], w[1..], [uid], us, ids);
    assert w == [w[0]] + w[1..];
  }

  lemma {:induction false} LoopTouches(s: Stmt, ids: map<nat, Id>, w: Word)
    requires s.Loop? && ExecutesLoop(s, ids, w)
    ensures Touches(w, true, NodesOf(Owners(s), ids))
    decreases s, 0, |w|
  {
    assert s.uid in Owners(s);
    if w != [Step(At(ids, s.uid), False)] {
      var k: nat :| LoopsAt(s, ids, w, k);
      LoopTouches(s, ids, w[k..]);
      if k > 1 {
        var q :| Executes(s.inner, ids, Relast(w[1..k], q));
        StmtTouches(s.inner, ids, Relast(w[1..k], q));
        RelastIn(w[1..k], q, NodesOf(Owners(s.inner), ids));
      }
      assert w[..k][1..] == w[1..k];
      TestTouches(w[..k], s.uid, Owners(s.inner), ids);
      JoinIn(w[..k], w[k..], NodesOf(Owners(s), ids));
      assert w == w[..k] + w[k..];
    }
  }

  lemma {:induction false} UntilTouches(s: Stmt, ids: map<nat, Id>, w: Word)
    requires s.Until? && ExecutesUntil(s, ids, w)
    ensures Touches(w, true, NodesOf(Owners(s), ids))
    decreases s, 0, |w|
  {
    assert s.uid in Owners(s);
    var k: nat :| TestsAt(s, ids, w, k);
    if k > 0 {
      var q :| ExecutesAll(s.body, ids, Relast(w[..k], q));
      BodyTouches(s.body, ids, Relast(w[..k], q));
      RelastIn(w[..k], q, NodesOf(OwnersAll(s.body), ids));
    }
    assert forall x :: x in OwnersAll(s.body) ==> x in Owners(s);
    assert AllIn(w[..k], NodesOf(Owners(s), ids));
    assert AllIn([w[k]], NodesOf(Owners(s), ids));
    JoinIn(w[..k], [w[k]], NodesOf(Owners(s), ids));
    if k + 1 < |w| {
      UntilTouches(s, ids, w[k + 1..]);
    }
    JoinIn(w[..k] + [w[k]], w[k + 1..], NodesOf(Owners(s), ids));
    Reassemble(w, k);
  }

  lemma {:induction false} RelastIn(w: Word, q: EdgeKind, ns: set<Id>)
    requires AllIn(Relast(w, q), ns)
    ensures AllIn(w, ns)
  {
    assert forall i :: 0 <= i < |w| ==> Relast(w, q)[i].node == w[i].node;
  }

  lemma {:induction false} JoinIn(u: Word, v: Word, ns: set<Id>)
    requires AllIn(u, ns) && AllIn(v, ns)
    ensures AllIn(u + v, ns)
  {
  }

  /** Every statement has an execution. */
  lemma {:induction false} SomeExecution(s: Stmt, ids: map<nat, Id>) returns (w: Word)
    ensures Executes(s, ids, w)
    decreases s, 1
  {
    match s
    case Simple(uid, kind, _, _) =>
      w := [Step(At(ids, uid), if kind in {Raise, Goto} then Terminal else Next)];
    case Silent(_) =>
      w := [];
    case Block(_, body) =>
      w := SomeBodyExecution(body, ids);
    case IfThen(uid, _, _) =>
      w := [Step(At(ids, uid), False)];
    case IfElse(uid, _, a, _, _) =>
      var v := SomeExecution(a, ids);
      w := [Step(At(ids, uid), True)] + v;
    case Loop(uid, _, _, _) =>
      w := [Step(At(ids, uid), False)];
      assert ExecutesLoop(s, ids, w);
    case Until(_, body, _) =>
      var v := SomeBodyExecution(body, ids);
      w := UntilOnce(s, ids, v);
  }

  lemma {:induction false} SomeBodyExecution(body: seq<Stmt>, ids: map<nat, Id>) returns (w: Word)
    ensures ExecutesAll(body, ids, w)
    decreases body, 0
  {
    if body == [] {
      w := [];
    } else {
      var u := SomeBodyExecution(body[..|body| - 1], ids);
      var v := SomeExecution(body[|body| - 1], ids);
      w := u + v;
      assert w[..|u|] == u && w[|u|..] == v;
      assert ExecutesSplit(body, ids, w[..|u|], w[|u|..]);
    }
  }

  lemma {:induction false} RelastBack(v: Word, k: EdgeKind, q: EdgeKind)
    ensures Relast(Relast(v, k), q) == Relast(v, q)
    ensures v != [] ==> Relast(v, v[|v| - 1].kind) == v
  {
  }

  /** One run of the body and the test left as true. */
  lemma {:induction false} UntilOnce(s: Stmt, ids: map<nat, Id>, v: Word) returns (w: Word)
    requires s.Until? && ExecutesAll(s.body, ids, v)
    ensures w == Relast(v, LoopTest) + [Step(At(ids, s.uid), True)] && ExecutesUntil(s, ids, w)
  {
    w := Relast(v, LoopTest) + [Step(At(ids, s.uid), True)];
    assert w[..|v|] == Relast(v, LoopTest);
    if v != [] {
      RelastBack(v, LoopTest, v[|v| - 1].kind);
      assert ExecutesAll(s.body, ids, Relast(w[..|v|], v[|v| - 1].kind));
    }
    assert TestsAt(s, ids, w, |v|);
  }

  /** One run of the body between the test left as true and the test left as false. */
  lemma {:induction false} LoopOnce(s: Stmt, ids: map<nat, Id>, v: Word) returns (w: Word)
    requires s.Loop? && Executes(s.inner, ids, v)
    ensures w == [Step(At(ids, s.uid), True)] + Relast(v, LoopBack) + [Step(At(ids, s.uid), False)] && ExecutesLoop(s, ids, w)
  {
    w := [Step(At(ids, s.uid), True)] + Relast(v, LoopBack) + [Step(At(ids, s.uid), False)];
    assert w[1..|v| + 1] == Relast(v, LoopBack);
    assert w[|v| + 1..] == [Step(At(ids, s.uid), False)];
    if v != [] {
      RelastBack(v, LoopBack, v[|v| - 1].kind);
      assert Executes(s.inner, ids, Relast(w[1..|v| + 1], v[|v| - 1].kind));
    }
    assert ExecutesLoop(s, ids, w[|v| + 1..]);
    assert LoopsAt(s, ids, w, |v| + 1);
  }

  /** An execution the graph has no path for, by whatever edge it is left. */
  ghost predicate Lost(f: Flow, w: Word) {
    w != [] && forall k :: !Path(f, Relast(w, k))
  }

  lemma {:induction false} LostBody(body: seq<Stmt>, ids: map<nat, Id>) returns (w: Word)
    requires forall t :: t in body ==> Lawful(t)
    requires Placed(OwnersAll(body), ids) && !FilledAll(body)
    ensures ExecutesAll(body, ids, w) && Lost(Chain(BuildBody(body, ids)), w)
    decreases body, 0
  {
    var init, last := body[..|body| - 1], body[|body| - 1];
    assert last in body;
    PlacedSplit(OwnersAll(init), Owners(last), ids);
    BodyFits(init, ids);
    BuildBodySnoc(body, ids);
    var u, v: Word;
    if FilledAll(init) {
      u := SomeBodyExecution(init, ids);
      v := LostStmt(last, ids);
    } else {
      u := LostBody(init, ids);
      v := SomeExecution(last, ids);
    }
    w := u + v;
    BodyTouches(init, ids, u);
    StmtTouches(last, ids, v);
    assert w[..|u|] == u && w[|u|..] == v;
    assert ExecutesSplit(body, ids, w[..|u|], w[|u|..]);
    if !last.Silent? {
      TreeFits(last, ids);
      ChainSnoc(BuildBody(init, ids), Build(Tree(last), ids));
    }
    if OccupiedAll(init) && Occupied(last) {
      LostThen(Chain(BuildBody(body, ids)), Chain(BuildBody(init, ids)), Build(Tree(last), ids),
               NodesOf(OwnersAll(init), ids), NodesOf(Owners(last), ids), u, v);
    } else if OccupiedAll(init) {
      assert w == u;
    } else {
      assert w == v;
    }
  }

  lemma {:induction false} LostThen(f: Flow, a: Flow, b: Flow, na: set<Id>, nb: set<Id>, u: Word, v: Word)
    requires IsThen(f, a, b) && Within(a, na) && Within(b, nb) && na !! nb
    requires u != [] && v != [] && AllIn(u, na) && AllIn(v, nb)
    requires Lost(a, u) || Lost(b, v)
    ensures Lost(f, u + v)
  {
    forall k
      ensures !Path(f, Relast(u + v, k))
    {
      var w := Relast(u + v, k);
      assert w == u + Relast(v, k);
      if Path(f, w) {
        var i := ThenSplits(f, a, b, na, nb, w);
        PathWithin(a, na, w[..i]);
        PathWithin(b, nb, w[i..]);
        assert AllIn(w[..|u|], na) && AllIn(w[|u|..], nb);
        assert i == |u|;
        assert w[..i] == u && w[i..] == Relast(v, k);
        RelastBack(u, k, k);
      }
    }
  }

  lemma {:induction false} LostStmt(s: Stmt, ids: map<nat, Id>) returns (w: Word)
    requires Lawful(s) && Placed(Owners(s), ids) && !Filled(s)
    ensures Executes(s, ids, w) && Lost(Build(Tree(s), ids), w)
    decreases s, 1
  {
    match s
    case Block(_, body) =>
      w := LostBody(body, ids);
    case IfThen(uid, _, a) =>
      PlacedHead(uid, Owners(a), ids);
      var v := LostStmt(a, ids);
      w := LostIfThen(s, ids, v);
    case IfElse(uid, _, a, _, b) =>
      PlacedSplit([uid] + Owners(a), Owners(b), ids);
      PlacedHead(uid, Owners(a), ids);
      if !Occupied(a) || !Occupied(b) {
        w := LostEmptyPart(s, ids);
      } else if !Filled(a) {
        var v := LostStmt(a, ids);
        w := LostPart(s, ids, True, v);
      } else {
        var v := LostStmt(b, ids);
        w := LostPart(s, ids, False, v);
      }
    case Loop(uid, _, _, a) =>
      PlacedHead(uid, Owners(a), ids);
      if Occupied(a) {
        var v := LostStmt(a, ids);
        w := LostAround(s, ids, v);
      } else {
        w := LostEmptyLoop(s, ids);
      }
    case Until(uid, body, _) =>
      PlacedHead(uid, OwnersAll(body), ids);
      if OccupiedAll(body) {
        var v := LostBody(body, ids);
        w := LostBefore(s, ids, v);
      } else {
        w := LostEmptyUntil(s, ids);
      }
  }

  lemma {:induction false} IfThenIsBranch(s: Stmt, ids: map<nat, Id>)
    requires s.IfThen? && Lawful(s) && s.uid in ids
    ensures IsBranch(Build(Tree(s), ids), At(ids, s.uid), Build(Tree(s.then_), ids), NOTHING, true)
  {
    IfThenBuild(s, ids);
  }

  lemma {:induction false} IfThenShape(s: Stmt, ids: map<nat, Id>)
    requires s.IfThen? && Lawful(s) && Placed(Owners(s), ids)
    ensures At(ids, s.uid) !in NodesOf(Owners(s.then_), ids)
    ensures Fits(Build(Tree(s.then_), ids), Occupied(s.then_), NodesOf(Owners(s.then_), ids))
    ensures IsBranch(Build(Tree(s), ids), At(ids, s.uid), Build(Tree(s.then_), ids), NOTHING, true)
  {
    PlacedHead(s.uid, Owners(s.then_), ids);
    IfThenIsBranch(s, ids);
    TreeFits(s.then_, ids);
  }

  lemma {:induction false} LostIfThen(s: Stmt, ids: map<nat, Id>, v: Word) returns (w: Word)
    requires s.IfThen? && Lawful(s) && Placed(Owners(s), ids)
    requires Executes(s.then_, ids, v) && Lost(Build(Tree(s.then_), ids), v)
    ensures Executes(s, ids, w) && Lost(Build(Tree(s), ids), w)
  {
    var c, a := At(ids, s.uid), s.then_;
    IfThenShape(s, ids);
    StmtTouches(a, ids, v);
    w := [Step(c, True)] + v;
    assert w[1..] == v;
    LostBranch(Build(Tree(s), ids), c, Build(Tree(a), ids), NOTHING, true, NodesOf(Owners(a), ids), {}, True, v);
  }

  lemma {:induction false} LostAround(s: Stmt, ids: map<nat, Id>, v: Word) returns (w: Word)
    requires s.Loop? && Lawful(s) && Placed(Owners(s), ids)
    requires Executes(s.inner, ids, v) && Lost(Build(Tree(s.inner), ids), v)
    ensures Executes(s, ids, w) && Lost(Build(Tree(s), ids), w)
  {
    var a := s.inner;
    PlacedHead(s.uid, Owners(a), ids);
    TreeFits(a, ids);
    StmtTouches(a, ids, v);
    w := LoopOnce(s, ids, v);
    LoopBuild(s, ids);
    LostLoop(Build(Tree(s), ids), At(ids, s.uid), Build(Tree(a), ids), NodesOf(Owners(a), ids), v);
  }

  lemma {:induction false} LostEmptyLoop(s: Stmt, ids: map<nat, Id>) returns (w: Word)
    requires s.Loop? && Lawful(s) && Placed(Owners(s), ids) && !Occupied(s.inner)
    ensures Executes(s, ids, w) && Lost(Build(Tree(s), ids), w)
  {
    PlacedHead(s.uid, Owners(s.inner), ids);
    TreeFits(s.inner, ids);
    var v := SomeExecution(s.inner, ids);
    w := LoopOnce(s, ids, v);
    LoopBuild(s, ids);
    NoEdges(Build(Tree(s), ids), w);
  }

  lemma {:induction false} LostBefore(s: Stmt, ids: map<nat, Id>, v: Word) returns (w: Word)
    requires s.Until? && Lawful(s) && Placed(Owners(s), ids) && OccupiedAll(s.body)
    requires ExecutesAll(s.body, ids, v) && Lost(Chain(BuildBody(s.body, ids)), v)
    ensures Executes(s, ids, w) && Lost(Build(Tree(s), ids), w)
  {
    var body := s.body;
    PlacedHead(s.uid, OwnersAll(body), ids);
    BodyFits(body, ids);
    BodyTouches(body, ids, v);
    w := UntilOnce(s, ids, v);
    UntilBuild(s, ids);
    LostUntil(Build(Tree(s), ids), At(ids, s.uid), Chain(BuildBody(body, ids)), NodesOf(OwnersAll(body), ids), v);
  }

  lemma {:induction false} LostEmptyUntil(s: Stmt, ids: map<nat, Id>) returns (w: Word)
    requires s.Until? && Lawful(s) && Placed(Owners(s), ids) && !OccupiedAll(s.body)
    ensures Executes(s, ids, w) && Lost(Build(Tree(s), ids), w)
  {
    PlacedHead(s.uid, OwnersAll(s.body), ids);
    BodyFits(s.body, ids);
    UntilBuild(s, ids);
    w := UntilTwice(s, ids);
    NoEdges(Build(Tree(s), ids), w);
  }

  lemma {:induction false} NoEdges(f: Flow, w: Word)
    requires f.edges == [] && |w| > 1
    ensures Lost(f, w)
  {
    forall k
      ensures !Path(f, Relast(w, k))
    {
      var u, i, j := Relast(w, k), 0, 1;
      assert Edge(u[i].node, u[j].node, u[i].kind) !in f.edges;
    }
  }

  /** A silent body, the test looping back, and again. */
  lemma {:induction false} UntilTwice(s: Stmt, ids: map<nat, Id>) returns (w: Word)
    requires s.Until? && !OccupiedAll(s.body)
    ensures |w| == 2 && ExecutesUntil(s, ids, w)
  {
    var v := SomeBodyExecution(s.body, ids);
    BodyTouches(s.body, ids, v);
    var u := UntilOnce(s, ids, v);
    w := [Step(At(ids, s.uid), LoopBack)] + u;
    assert w[1..] == u;
    assert TestsAt(s, ids, w, 0);
  }

  lemma {:induction false} LostBranch(f: Flow, c: Id, a: Flow, b: Flow, skips: bool, na: set<Id>, nb: set<Id>, k: EdgeKind, v: Word)
    requires IsBranch(f, c, a, b, skips) && Within(a, na) && Within(b, nb)
    requires na !! nb && c !in na && c !in nb
    requires v != [] && ((k == True && Lost(a, v)) || (k == False && Lost(b, v)))
    ensures Lost(f, [Step(c, k)] + v)
  {
    forall q
      ensures !Path(f, Relast([Step(c, k)] + v, q))
    {
      var w := Relast([Step(c, k)] + v, q);
      assert w == [Step(c, k)] + Relast(v, q);
      assert w[1..] == Relast(v, q);
      assert |w| > 1 && w[0] == Step(c, k);
      BranchPaths(f, c, a, b, skips, na, nb, w);
    }
  }

  lemma {:induction false} IfElseIsBranch(s: Stmt, ids: map<nat, Id>)
    requires s.IfElse? && Lawful(s) && s.uid in ids
    ensures IsBranch(Build(Tree(s), ids), At(ids, s.uid), Build(Tree(s.then_), ids), Build(Tree(s.else_), ids), false)
  {
    IfElseBuild(s, ids);
  }

  lemma {:induction false} IfElseShape(s: Stmt, ids: map<nat, Id>)
    requires s.IfElse? && Lawful(s) && Placed(Owners(s), ids)
    ensures var c, na, nb := At(ids, s.uid), NodesOf(Owners(s.then_), ids), NodesOf(Owners(s.else_), ids);
            var a, b := Build(Tree(s.then_), ids), Build(Tree(s.else_), ids);
            && na !! nb && c !in na && c !in nb
            && Fits(a, Occupied(s.then_), na) && Fits(b, Occupied(s.else_), nb)
            && IsBranch(Build(Tree(s), ids), c, a, b, false)
  {
    var a, b := s.then_, s.else_;
    PlacedSplit([s.uid] + Owners(a), Owners(b), ids);
    PlacedHead(s.uid, Owners(a), ids);
    assert At(ids, s.uid) in NodesOf([s.uid] + Owners(a), ids);
    IfElseIsBranch(s, ids);
    TreeFits(a, ids);
    TreeFits(b, ids);
  }

  /** The part that has nothing to execute is not reached by any edge. */
  lemma {:induction false} LostEmptyPart(s: Stmt, ids: map<nat, Id>) returns (w: Word)
    requires s.IfElse? && Lawful(s) && Placed(Owners(s), ids) && !(Occupied(s.then_) && Occupied(s.else_))
    ensures Executes(s, ids, w) && Lost(Build(Tree(s), ids), w)
  {
    var c := At(ids, s.uid);
    IfElseShape(s, ids);
    var part, k := if Occupied(s.then_) then s.else_ else s.then_, if Occupied(s.then_) then False else True;
    var v := SomeExecution(part, ids);
    StmtTouches(part, ids, v);
    w := [Step(c, k)];
    assert w[1..] == v;
    forall q
      ensures !Path(Build(Tree(s), ids), Relast(w, q))
    {
      assert Relast(w, q) == [Step(c, q)];
    }
  }

  lemma {:induction false} LostPart(s: Stmt, ids: map<nat, Id>, k: EdgeKind, v: Word) returns (w: Word)
    requires s.IfElse? && Lawful(s) && Placed(Owners(s), ids) && k in {True, False}
    requires var part := if k == True then s.then_ else s.else_;
             Executes(part, ids, v) && Lost(Build(Tree(part), ids), v)
    ensures Executes(s, ids, w) && Lost(Build(Tree(s), ids), w)
  {
    IfElseShape(s, ids);
    w := [Step(At(ids, s.uid), k)] + v;
    assert w[1..] == v;
    LostBranch(Build(Tree(s), ids), At(ids, s.uid), Build(Tree(s.then_), ids), Build(Tree(s.else_), ids), false,
               NodesOf(Owners(s.then_), ids), NodesOf(Owners(s.else_), ids), k, v);
  }

  lemma {:induction false} LostLoop(f: Flow, c: Id, a: Flow, na: set<Id>, v: Word)
    requires IsLoop(f, c, a, true) && Within(a, na) && c !in na
    requires AllIn(v, na) && Lost(a, v)
    ensures Lost(f, [Step(c, True)] + Relast(v, LoopBack) + [Step(c, False)])
  {
    var w := [Step(c, True)] + Relast(v, LoopBack) + [Step(c, False)];
    forall q
      ensures !Path(f, Relast(w, q))
    {
      var u := Relast(w, q);
      HeadLoopPaths(f, c, a, na, u);
      if k: nat :| HeadSplit(f, c, a, u, k) {
        assert u[k..][0] == u[k];
        assert k == |v| + 1;
        assert u[1..k] == Relast(v, LoopBack);
        var p :| Path(a, Relast(u[1..k], p));
        RelastBack(v, LoopBack, p);
      }
    }
  }

  lemma {:induction false} LostUntil(f: Flow, c: Id, a: Flow, na: set<Id>, v: Word)
    requires IsLoop(f, c, a, false) && Within(a, na) && c !in na
    requires AllIn(v, na) && Lost(a, v)
    ensures Lost(f, Relast(v, LoopTest) + [Step(c, True)])
  {
    var w := Relast(v, LoopTest) + [Step(c, True)];
    forall q
      ensures !Path(f, Relast(w, q))
    {
      var u := Relast(w, q);
      TailLoopPaths(f, c, a, na, u);
      if k: nat :| TailSplit(f, c, a, u, k) {
        assert k == |v|;
        assert u[..k] == Relast(v, LoopTest);
        var p :| Path(a, Relast(u[..k], p));
        RelastBack(v, LoopTest, p);
      }
    }
  }

  lemma {:induction false} UnfilledLoses(s: Stmt, ids: map<nat, Id>) returns (w: Word)
    requires Lawful(s) && Placed(Owners(s), ids) && !Filled(s)
    ensures Executes(s, ids, w) && !Path(Build(Tree(s), ids), w)
  {
    w := LostStmt(s, ids);
    RelastBack(w, Next, Next);
    assert !Path(Build(Tree(s), ids), Relast(w, w[|w| - 1].kind));
  }

  /** The paths of the graph built for a statement are its executions exactly when every
      loop body and both parts of every if-else have something to execute. */
  lemma {:induction false} PathsAreExecutions(s: Stmt, ids: map<nat, Id>)
    requires Lawful(s) && Placed(Owners(s), ids) && Occupied(s)
    ensures (forall w :: Path(Build(Tree(s), ids), w) <==> Executes(s, ids, w)) <==> Filled(s)
  {
    if Filled(s) {
      forall w
        ensures Path(Build(Tree(s), ids), w) <==> Executes(s, ids, w)
      {
        TreeAgrees(s, ids, w);
      }
    } else {
      var w := UnfilledLoses(s, ids);
    }
  }
}
