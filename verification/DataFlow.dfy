/** The data-flow edges of the code property graph: which identifiers a routine's tree
    defines and uses, and which definition reaches which use. */
module DataFlow {
  import opened ReachingDefinitions
  import opened Sequences
  import opened SyntaxTree
  import opened Wrappers

  datatype Label = Def | Use | ReachingDef

  datatype FlowEdge = FlowEdge(tag: Label, source: Id, target: Id, name: string, owner: Id)

  /** The definition and use records collected per executable node. */
  datatype Tables = Tables(defs: map<Id, seq<Record>>, uses: map<Id, seq<Record>>)

  // ----- collecting records from the tree -----

  /** What the collection reads: the graph node of each tree node that was retained, and
      the case folding of names. */
  datatype Lookup = Lookup(ids: map<nat, Id>, fold: string -> string)

  predicate IsNamed(n: Node, at: Lookup) {
    n.kind in {Identifier, Name} && n.name != "" && n.uid in at.ids
  }

  /** The records of the named identifiers among the nodes, in order. */
  function NamedIn(nodes: seq<Node>, at: Lookup): seq<Record> {
    if nodes == [] then []
    else
      var first := nodes[0];
      (if IsNamed(first, at) then [Record(at.fold(first.name), at.ids[first.uid])] else [])
      + NamedIn(nodes[1..], at)
  }

  lemma {:induction false} NamedInAppend(a: seq<Node>, b: seq<Node>, at: Lookup)
    ensures NamedIn(a + b, at) == NamedIn(a, at) + NamedIn(b, at)
  {
    if a == [] {
      assert a + b == b;
    } else {
      assert (a + b)[1..] == a[1..] + b;
      NamedInAppend(a[1..], b, at);
    }
  }

  function NamedUnder(root: Option<Node>, at: Lookup): seq<Record> {
    match root
    case None => []
    case Some(n) => NamedIn(Preorder(n), at)
  }

  method NamedIdentifiers(root: Option<Node>, at: Lookup) returns (result: seq<Record>)
    ensures result == NamedUnder(root, at)
  {
    result := [];
    if root.None? {
      return;
    }
    var stack := [root.value];
    assert Pending(stack) == Preorder(root.value);
    while stack != []
      invariant result + NamedIn(Pending(stack), at) == NamedUnder(root, at)
      decreases |Pending(stack)|
    {
      var current := stack[|stack| - 1];
      PendingStep(stack);
      NamedInAppend([current], Pending(stack[..|stack| - 1] + Reversed(current.children)), at);
      stack := stack[..|stack| - 1] + Reversed(current.children);
      if IsNamed(current, at) {
        result := result + [Record(at.fold(current.name), at.ids[current.uid])];
      }
    }
  }

  /** The records of a control statement: those under its non-executable children. */
  function ConditionRecords(children: seq<Node>, at: Lookup): seq<Record> {
    if children == [] then []
    else
      var last := children[|children| - 1];
      ConditionRecords(children[..|children| - 1], at)
      + (if IsExecutable(last.kind) then [] else NamedIn(Preorder(last), at))
  }

  function DefsOf(n: Node, at: Lookup): Option<seq<Record>> {
    if n.kind == Assign then Some(NamedUnder(FindChild(n.children, Lhs), at)) else None
  }

  function UsesOf(n: Node, at: Lookup): Option<seq<Record>> {
    if n.kind == Assign then Some(NamedUnder(FindChild(n.children, Rhs), at))
    else if n.kind == Call then
      var all := NamedIn(Preorder(n), at);
      Some(if all == [] then [] else all[1..])
    else if IsControl(n.kind) then Some(ConditionRecords(n.children, at))
    else None
  }

  function Put(m: map<Id, seq<Record>>, key: Id, records: Option<seq<Record>>): map<Id, seq<Record>> {
    if records.Some? then m[key := records.value] else m
  }

  function Gather(nodes: seq<Node>, at: Lookup): Tables {
    if nodes == [] then Tables(map[], map[])
    else
      var n := nodes[|nodes| - 1];
      var t := Gather(nodes[..|nodes| - 1], at);
      if n.uid in at.ids then
        Tables(Put(t.defs, at.ids[n.uid], DefsOf(n, at)), Put(t.uses, at.ids[n.uid], UsesOf(n, at)))
      else t
  }

  method ConditionIdentifiers(children: seq<Node>, at: Lookup) returns (identifiers: seq<Record>)
    ensures identifiers == ConditionRecords(children, at)
  {
    identifiers := [];
    for i := 0 to |children|
      invariant identifiers == ConditionRecords(children[..i], at)
    {
      assert children[..i + 1][..i] == children[..i];
      if !IsExecutable(children[i].kind) {
        var more := NamedIdentifiers(Some(children[i]), at);
        identifiers := identifiers + more;
      }
    }
    assert children[..|children|] == children;
  }

  lemma {:induction false} GatherSnoc(done: seq<Node>, n: Node, at: Lookup)
    ensures var t := Gather(done, at);
            Gather(done + [n], at) ==
            if n.uid in at.ids then
              Tables(Put(t.defs, at.ids[n.uid], DefsOf(n, at)), Put(t.uses, at.ids[n.uid], UsesOf(n, at)))
            else t
  {
    assert (done + [n])[..|done|] == done;
  }

  method Collect(selected: Node, at: Lookup) returns (t: Tables)
    ensures t == Gather(Preorder(selected), at)
    ensures ToldBy(t, selected, at)
  {
    var defs: map<Id, seq<Record>>, uses: map<Id, seq<Record>> := map[], map[];
    var stack := [selected];
    ghost var done: seq<Node> := [];
    assert Pending(stack) == Preorder(selected);
    while stack != []
      invariant done + Pending(stack) == Preorder(selected)
      invariant Tables(defs, uses) == Gather(done, at)
      decreases |Pending(stack)|
    {
      var current := stack[|stack| - 1];
      PendingStep(stack);
      stack := stack[..|stack| - 1] + Reversed(current.children);
      GatherSnoc(done, current, at);
      assert done + ([current] + Pending(stack)) == (done + [current]) + Pending(stack);
      done := done + [current];
      if current.uid !in at.ids || !IsExecutable(current.kind) {
        continue;
      }
      var owner := at.ids[current.uid];
      if current.kind == Assign {
        var lhs := NamedIdentifiers(FindChild(current.children, Lhs), at);
        var rhs := NamedIdentifiers(FindChild(current.children, Rhs), at);
        defs := defs[owner := lhs];
        uses := uses[owner := rhs];
      } else if current.kind == Call {
        var identifiers := NamedIdentifiers(Some(current), at);
        uses := uses[owner := if identifiers == [] then [] else identifiers[1..]];
      } else if IsControl(current.kind) {
        var identifiers := ConditionIdentifiers(current.children, at);
        uses := uses[owner := identifiers];
      }
    }
    assert done == Preorder(selected);
    t := Tables(defs, uses);
    if Faithful(done, at) {
      GatherTells(done, at);
    }
  }

  /** The tree nodes are distinct objects and distinct objects have distinct ids. */
  ghost predicate Faithful(nodes: seq<Node>, at: Lookup) {
    && Distinct(nodes)
    && forall m, n :: m in nodes && n in nodes && m.uid in at.ids && n.uid in at.ids && at.ids[m.uid] == at.ids[n.uid] ==> m == n
  }

  /** No node owns records but a retained one. */
  lemma {:induction false} GatherOwners(nodes: seq<Node>, at: Lookup, o: Id)
    requires o in Gather(nodes, at).defs || o in Gather(nodes, at).uses
    ensures exists n :: n in nodes && n.uid in at.ids && at.ids[n.uid] == o
  {
    if nodes != [] {
      var init, last := nodes[..|nodes| - 1], nodes[|nodes| - 1];
      if last.uid in at.ids && o == at.ids[last.uid] {
        assert last in nodes;
      } else {
        GatherOwners(init, at, o);
        var n :| n in init && n.uid in at.ids && at.ids[n.uid] == o;
        assert n in nodes;
      }
    }
  }

  ghost predicate HoldsOf(t: Tables, n: Node, o: Id, at: Lookup) {
    && (o in t.defs <==> DefsOf(n, at).Some?) && (o in t.defs ==> t.defs[o] == DefsOf(n, at).value)
    && (o in t.uses <==> UsesOf(n, at).Some?) && (o in t.uses ==> t.uses[o] == UsesOf(n, at).value)
  }

  lemma {:induction false} GatherAt(nodes: seq<Node>, at: Lookup, n: Node)
    requires Faithful(nodes, at) && n in nodes && n.uid in at.ids
    ensures HoldsOf(Gather(nodes, at), n, at.ids[n.uid], at)
  {
    var init, last := nodes[..|nodes| - 1], nodes[|nodes| - 1];
    var o := at.ids[n.uid];
    if n == last {
      if o in Gather(init, at).defs || o in Gather(init, at).uses {
        GatherOwners(init, at, o);
      }
    } else {
      assert n in init;
      GatherAt(init, at, n);
    }
  }

  /** The tables say of every retained node what it defines and uses, and nothing else. */
  lemma {:induction false} GatherExact(nodes: seq<Node>, at: Lookup)
    requires Faithful(nodes, at)
    ensures var t := Gather(nodes, at);
            && (forall n :: n in nodes && n.uid in at.ids ==> HoldsOf(t, n, at.ids[n.uid], at))
            && (forall o :: o in t.defs || o in t.uses ==> exists n :: n in nodes && n.uid in at.ids && at.ids[n.uid] == o)
  {
    forall n | n in nodes && n.uid in at.ids
      ensures HoldsOf(Gather(nodes, at), n, at.ids[n.uid], at)
    {
      GatherAt(nodes, at, n);
    }
    forall o | o in Gather(nodes, at).defs || o in Gather(nodes, at).uses
      ensures exists n :: n in nodes && n.uid in at.ids && at.ids[n.uid] == o
    {
      GatherOwners(nodes, at, o);
    }
  }

  // ----- the tables, told from the tree -----

  /** The records of the retained named identifiers among the nodes, each once and in order. */
  ghost predicate Lists(nodes: seq<Node>, at: Lookup, records: seq<Record>) {
    exists places: seq<nat> :: ListsAt(nodes, at, records, places)
  }

  ghost predicate ListsAt(nodes: seq<Node>, at: Lookup, records: seq<Record>, places: seq<nat>) {
    && |places| == |records|
    && (forall j, k :: 0 <= j < k < |places| ==> places[j] < places[k])
    && (forall p: nat :: p in places <==>
          p < |nodes| && (nodes[p].kind == Identifier || nodes[p].kind == Name) && nodes[p].name != "" && nodes[p].uid in at.ids)
    && forall j :: 0 <= j < |places| ==>
         places[j] < |nodes| && nodes[places[j]].uid in at.ids
         && records[j] == Record(at.fold(nodes[places[j]].name), at.ids[nodes[places[j]].uid])
  }

  lemma {:induction false} NamedInLists(nodes: seq<Node>, at: Lookup) returns (places: seq<nat>)
    ensures ListsAt(nodes, at, NamedIn(nodes, at), places)
  {
    places := [];
    if nodes != [] {
      var init, last := nodes[..|nodes| - 1], nodes[|nodes| - 1];
      assert nodes == init + [last];
      NamedInAppend(init, [last], at);
      places := NamedInLists(init, at);
      if IsNamed(last, at) {
        places := places + [|init|];
      }
    }
  }

  /** What a side of an assignment lists: the identifiers under the first child of the kind, if any. */
  ghost predicate ListsSide(children: seq<Node>, kind: Kind, at: Lookup, records: seq<Record>) {
    && (NoneOf(children, kind) ==> records == [])
    && forall i: nat :: IsFirst(children, kind, i) ==> Lists(Preorder(children[i]), at, records)
  }

  /** What the conditions of a control statement list: the identifiers under each child that executes
      nothing, child by child. */
  ghost predicate ListsConditions(children: seq<Node>, at: Lookup, records: seq<Record>) {
    exists parts: seq<seq<Record>> :: ListsParts(children, at, records, parts)
  }

  ghost predicate ListsParts(children: seq<Node>, at: Lookup, records: seq<Record>, parts: seq<seq<Record>>) {
    && |parts| == |children| && records == Flatten(parts)
    && forall i :: 0 <= i < |parts| ==>
         if children[i].kind in {Statements, Statement, Assign, EmptyStatement, Call, If, While, For, Repeat, Case, CaseElse, Try,
                                 Except, ExceptionHandler, Finally, Raise, Goto, With}
         then parts[i] == [] else Lists(Preorder(children[i]), at, parts[i])
  }

  /** What the tables say of the owner `o` of a retained node: an assignment defines the identifiers
      of its left side and uses those of its right side; a call uses all but the first, the one that is
      called; a control statement uses those of its conditions; nothing else has records. */
  ghost predicate Tells(t: Tables, n: Node, o: Id, at: Lookup) {
    && (o in t.defs <==> n.kind == Assign)
    && (n.kind == Assign ==> ListsSide(n.children, Lhs, at, t.defs[o]))
    && (o in t.uses <==>
          n.kind in {Assign, Call, If, While, For, Repeat, Case, CaseElse, Try, Except, ExceptionHandler, Finally, Raise, Goto, With})
    && (n.kind == Assign ==> ListsSide(n.children, Rhs, at, t.uses[o]))
    && (n.kind == Call ==>
          exists all :: Lists(Preorder(n), at, all) && t.uses[o] == if all == [] then [] else all[1..])
    && (o in t.uses && n.kind != Assign && n.kind != Call ==> ListsConditions(n.children, at, t.uses[o]))
  }

  /** The tables tell of every retained node, and of nothing else. */
  ghost predicate TellAll(t: Tables, nodes: seq<Node>, at: Lookup) {
    && (forall n :: n in nodes && n.uid in at.ids ==> Tells(t, n, at.ids[n.uid], at))
    && forall o :: o in t.defs || o in t.uses ==> exists n :: n in nodes && n.uid in at.ids && at.ids[n.uid] == o
  }

  /** They do if the nodes are distinct objects. */
  ghost predicate ToldBy(t: Tables, selected: Node, at: Lookup) {
    Faithful(Preorder(selected), at) ==> TellAll(t, Preorder(selected), at)
  }

  lemma {:induction false} SideLists(children: seq<Node>, kind: Kind, at: Lookup)
    ensures ListsSide(children, kind, at, NamedUnder(FindChild(children, kind), at))
  {
    forall i: nat | IsFirst(children, kind, i)
      ensures Lists(Preorder(children[i]), at, NamedUnder(FindChild(children, kind), at))
    {
      var places := NamedInLists(Preorder(children[i]), at);
    }
  }

  lemma {:induction false} ConditionsList(children: seq<Node>, at: Lookup) returns (parts: seq<seq<Record>>)
    ensures ListsParts(children, at, ConditionRecords(children, at), parts)
  {
    parts := [];
    if children != [] {
      var init, last := children[..|children| - 1], children[|children| - 1];
      var before := ConditionsList(init, at);
      var more := if IsExecutable(last.kind) then [] else NamedIn(Preorder(last), at);
      var places := NamedInLists(Preorder(last), at);
      assert children == init + [last];
      parts := before + [more];
      PartsGrow(init, last, at, ConditionRecords(init, at), before, more);
    }
  }

  lemma {:induction false} PartsGrow(init: seq<Node>, last: Node, at: Lookup, records: seq<Record>, parts: seq<seq<Record>>, more: seq<Record>)
    requires ListsParts(init, at, records, parts)
    requires if IsExecutable(last.kind) then more == [] else Lists(Preorder(last), at, more)
    ensures ListsParts(init + [last], at, records + more, parts + [more])
  {
    FlattenAppend(parts, more);
  }

  lemma {:induction false} UsesList(n: Node, at: Lookup)
    ensures n.kind == Call ==>
              exists all :: Lists(Preorder(n), at, all) && UsesOf(n, at).value == if all == [] then [] else all[1..]
    ensures IsControl(n.kind) ==> ListsConditions(n.children, at, UsesOf(n, at).value)
  {
    if n.kind == Call {
      var places := NamedInLists(Preorder(n), at);
      assert Lists(Preorder(n), at, NamedIn(Preorder(n), at));
    }
    if IsControl(n.kind) {
      var parts := ConditionsList(n.children, at);
    }
  }

  /** The collected tables are those that the tree tells. */
  lemma {:induction false} GatherTells(nodes: seq<Node>, at: Lookup)
    requires Faithful(nodes, at)
    ensures TellAll(Gather(nodes, at), nodes, at)
  {
    GatherExact(nodes, at);
    forall n | n in nodes && n.uid in at.ids
      ensures Tells(Gather(nodes, at), n, at.ids[n.uid], at)
    {
      assert HoldsOf(Gather(nodes, at), n, at.ids[n.uid], at);
      if n.kind == Assign {
        SideLists(n.children, Lhs, at);
        SideLists(n.children, Rhs, at);
      } else {
        UsesList(n, at);
      }
    }
  }

  // ----- the flow graph -----

  function PredsOver(cfg: seq<(Id, Id)>): map<Id, set<Id>> {
    if cfg == [] then map[]
    else
      var m := PredsOver(cfg[..|cfg| - 1]);
      var (source, target) := cfg[|cfg| - 1];
      m[target := (if target in m then m[target] else {}) + {source}]
  }

  function Sources(cfg: seq<(Id, Id)>): set<Id> {
    set e | e in cfg :: e.0
  }

  function Targets(cfg: seq<(Id, Id)>): set<Id> {
    set e | e in cfg :: e.1
  }

  lemma {:induction false} EndsSnoc(cfg: seq<(Id, Id)>, e: (Id, Id))
    ensures Sources(cfg + [e]) == Sources(cfg) + {e.0}
    ensures Targets(cfg + [e]) == Targets(cfg) + {e.1}
  {
    assert forall f :: f in cfg + [e] <==> f in cfg || f == e;
  }

  lemma {:induction false} PredsOverSnoc(cfg: seq<(Id, Id)>, e: (Id, Id))
    ensures var m := PredsOver(cfg);
            PredsOver(cfg + [e]) == m[e.1 := (if e.1 in m then m[e.1] else {}) + {e.0}]
  {
    assert (cfg + [e])[..|cfg|] == cfg;
  }

  function NodesOver(t: Tables, cfg: seq<(Id, Id)>): set<Id> {
    t.defs.Keys + t.uses.Keys + Sources(cfg) + Targets(cfg)
  }

  function GraphOver(t: Tables, cfg: seq<(Id, Id)>): FlowGraph {
    FlowGraph(NodesOver(t, cfg), PredsOver(cfg), t.defs)
  }

  lemma {:induction false} PredsOverExact(cfg: seq<(Id, Id)>)
    ensures forall x: Id, y: Id :: x in PredsOver(cfg) && y in PredsOver(cfg)[x] <==> (y, x) in cfg
    ensures PredsOver(cfg).Keys == Targets(cfg)
  {
    if cfg != [] {
      var init, last := cfg[..|cfg| - 1], cfg[|cfg| - 1];
      assert cfg == init + [last];
      assert forall e :: e in cfg <==> e in init || e == last;
      PredsOverExact(init);
      EndsSnoc(init, last);
    }
  }

  lemma {:induction false} GraphOverValid(t: Tables, cfg: seq<(Id, Id)>)
    ensures GraphOver(t, cfg).Valid()
  {
    PredsOverExact(cfg);
    var g := GraphOver(t, cfg);
    forall x | x in g.preds
      ensures x in g.nodes && g.preds[x] <= g.nodes
    {
      forall y | y in g.preds[x]
        ensures y in g.nodes
      {
        assert (y, x) in cfg && (y, x).0 == y;
      }
    }
  }

  method BuildGraph(t: Tables, cfg: seq<(Id, Id)>) returns (g: FlowGraph)
    ensures g == GraphOver(t, cfg)
  {
    var predecessors: map<Id, set<Id>> := map[];
    var flowNodes := t.defs.Keys + t.uses.Keys;
    for i := 0 to |cfg|
      invariant predecessors == PredsOver(cfg[..i])
      invariant flowNodes == NodesOver(t, cfg[..i])
    {
      var (source, target) := cfg[i];
      assert cfg[..i + 1] == cfg[..i] + [cfg[i]];
      PredsOverSnoc(cfg[..i], cfg[i]);
      EndsSnoc(cfg[..i], cfg[i]);
      predecessors := predecessors[target := (if target in predecessors then predecessors[target] else {}) + {source}];
      flowNodes := flowNodes + {source, target};
    }
    assert cfg[..|cfg|] == cfg;
    g := FlowGraph(flowNodes, predecessors, t.defs);
  }

  // ----- the edges -----

  /** A control-flow path from a node whose last record for `name` is `definition` to
      `owner`, with no node strictly between that has a record for `name`. */
  ghost predicate ReachingPath(t: Tables, cfg: seq<(Id, Id)>, name: string, definition: Id, owner: Id, p: seq<Id>) {
    && |p| >= 2 && p[|p| - 1] == owner
    && (forall i, j :: 0 <= i && j == i + 1 < |p| ==> (p[i], p[j]) in cfg)
    && p[0] in t.defs && LeavesDefinition(t.defs[p[0]], name, definition)
    && (forall i :: 0 < i < |p| - 1 && p[i] in t.defs ==> forall r :: r in t.defs[p[i]] ==> r.name != name)
  }

  /** The last record for the name is the definition. */
  ghost predicate LeavesDefinition(records: seq<Record>, name: string, definition: Id) {
    exists k: nat :: IsLastRecord(records, name, k) && records[k].id == definition
  }

  lemma {:induction false} LeavesLast(records: seq<Record>, name: string, definition: Id)
    ensures LeavesDefinition(records, name, definition) <==> LastDef(records, name) == Some(definition)
  {
    LastDefHolds(records, name);
  }

  ghost predicate IsReachingEdge(t: Tables, cfg: seq<(Id, Id)>, e: FlowEdge) {
    && e.tag == ReachingDef
    && e.owner in t.uses && Record(e.name, e.target) in t.uses[e.owner]
    && exists p :: ReachingPath(t, cfg, e.name, e.source, e.owner, p)
  }

  ghost predicate IsRecordEdge(tag: Label, m: map<Id, seq<Record>>, root: Id, e: FlowEdge) {
    && e.tag == tag && e.source == root
    && e.owner in m && Record(e.name, e.target) in m[e.owner]
  }

  lemma {:induction false} NoRecordNoDef(records: seq<Record>, name: string)
    ensures LastDef(records, name) == None <==> forall r :: r in records ==> r.name != name
  {
    if records != [] {
      var init, last := records[..|records| - 1], records[|records| - 1];
      assert records == init + [last];
      NoRecordNoDef(init, name);
    }
  }

  lemma {:induction false} ReachingPathCarries(t: Tables, cfg: seq<(Id, Id)>, name: string, d: Id, owner: Id, p: seq<Id>)
    ensures ReachingPath(t, cfg, name, d, owner, p) <==> Carries(GraphOver(t, cfg), name, d, p, owner)
  {
    var g := GraphOver(t, cfg);
    if p != [] && p[0] in t.defs {
      LeavesLast(t.defs[p[0]], name, d);
    }
    PredsOverExact(cfg);
    assert forall x: Id, y: Id :: y in g.Preds(x) <==> (y, x) in cfg;
    assert (forall i, j :: 0 <= i && j == i + 1 < |p| ==> (p[i], p[j]) in cfg) <==> IsPath(g, p);
    forall x: Id
      ensures LastDef(g.DefsAt(x), name) == None <==> (x in t.defs ==> forall r :: r in t.defs[x] ==> r.name != name)
    {
      NoRecordNoDef(g.DefsAt(x), name);
    }
  }

  /** One edge for every record of every owner. */
  method RecordEdges(tag: Label, m: map<Id, seq<Record>>, root: Id) returns (result: seq<FlowEdge>)
    ensures forall e :: e in result <==> IsRecordEdge(tag, m, root, e)
  {
    result := [];
    var todo := m.Keys;
    while todo != {}
      invariant todo <= m.Keys
      invariant forall e :: e in result <==> IsRecordEdge(tag, m, root, e) && e.owner !in todo
    {
      var owner :| owner in todo;
      for i := 0 to |m[owner]|
        invariant forall e :: e in result <==>
                    IsRecordEdge(tag, m, root, e) && (e.owner !in todo || (e.owner == owner && Record(e.name, e.target) in m[owner][..i]))
      {
        assert m[owner][..i + 1] == m[owner][..i] + [m[owner][i]];
        result := result + [FlowEdge(tag, root, m[owner][i].id, m[owner][i].name, owner)];
      }
      assert m[owner][..|m[owner]|] == m[owner];
      todo := todo - {owner};
    }
  }

  /** One edge for every use of a name at an owner and every definition recorded as
      available there, the definitions in ascending order. */
  method ReachingEdges(uses: map<Id, seq<Record>>, incoming: map<Id, Facts>) returns (result: seq<FlowEdge>)
    ensures forall e :: e in result <==> IsAvailable(uses, incoming, e)
  {
    result := [];
    var todo := uses.Keys;
    while todo != {}
      invariant todo <= uses.Keys
      invariant forall e :: e in result <==> IsAvailable(uses, incoming, e) && e.owner !in todo
    {
      var owner :| owner in todo;
      var available := if owner in incoming then incoming[owner] else map[];
      for i := 0 to |uses[owner]|
        invariant forall e :: e in result <==>
                    IsAvailable(uses, incoming, e) && (e.owner !in todo || (e.owner == owner && Record(e.name, e.target) in uses[owner][..i]))
      {
        var use := uses[owner][i];
        assert uses[owner][..i + 1] == uses[owner][..i] + [use];
        var edges := UseEdges(owner, use, if use.name in available then available[use.name] else {});
        result := result + edges;
      }
      assert uses[owner][..|uses[owner]|] == uses[owner];
      todo := todo - {owner};
    }
  }

  ghost predicate IsAvailable(uses: map<Id, seq<Record>>, incoming: map<Id, Facts>, e: FlowEdge) {
    && e.tag == ReachingDef
    && e.owner in uses && Record(e.name, e.target) in uses[e.owner]
    && e.owner in incoming && Has(incoming[e.owner], e.name, e.source)
  }

  method UseEdges(owner: Id, use: Record, definitions: set<Id>) returns (result: seq<FlowEdge>)
    ensures forall e :: e in result <==>
              e.tag == ReachingDef && e.owner == owner && e.name == use.name && e.target == use.id && e.source in definitions
  {
    result := [];
    var sorted := Ascending(definitions);
    AscendingSorts(definitions);
    for i := 0 to |sorted|
      invariant forall e :: e in result <==>
                  e.tag == ReachingDef && e.owner == owner && e.name == use.name && e.target == use.id && e.source in sorted[..i]
    {
      assert sorted[..i + 1] == sorted[..i] + [sorted[i]];
      result := result + [FlowEdge(ReachingDef, sorted[i], use.id, use.name, owner)];
    }
    assert sorted[..|sorted|] == sorted;
  }

  /** The solved sets give exactly the reaching-definition edges the paths justify. */
  lemma {:induction false} AvailableIsReaching(t: Tables, cfg: seq<(Id, Id)>, incoming: map<Id, Facts>, outgoing: map<Id, Facts>, e: FlowEdge)
    requires Exact(GraphOver(t, cfg), State(incoming, outgoing))
    ensures IsAvailable(t.uses, incoming, e) <==> IsReachingEdge(t, cfg, e)
  {
    var g := GraphOver(t, cfg);
    if e.owner in t.uses {
      assert e.owner in g.nodes;
      assert Has(incoming[e.owner], e.name, e.source) <==> Reaches(g, e.name, e.source, e.owner);
      if p :| Carries(g, e.name, e.source, p, e.owner) {
        ReachingPathCarries(t, cfg, e.name, e.source, e.owner, p);
      }
      if p :| ReachingPath(t, cfg, e.name, e.source, e.owner, p) {
        ReachingPathCarries(t, cfg, e.name, e.source, e.owner, p);
      }
    }
  }

  /** The data-flow edges of a routine. There is a reaching-definition edge from a definition
      to a use exactly when some non-empty control-flow path runs from the definition's owner
      to the use's owner without passing another definition of the name in between. What is
      defined and used is told from the tree, if its nodes are distinct. */
  method BuildDataFlow(selected: Node, at: Lookup, cfg: seq<(Id, Id)>, root: Id) returns (result: seq<FlowEdge>)
    ensures ToldBy(Gather(Preorder(selected), at), selected, at)
    ensures var t := Gather(Preorder(selected), at);
            forall e :: e in result <==>
              || IsRecordEdge(Def, t.defs, root, e)
              || IsRecordEdge(Use, t.uses, root, e)
              || IsReachingEdge(t, cfg, e)
  {
    var t := Collect(selected, at);
    var defEdges := RecordEdges(Def, t.defs, root);
    var useEdges := RecordEdges(Use, t.uses, root);
    var g := BuildGraph(t, cfg);
    GraphOverValid(t, cfg);
    AscendingSorts(g.nodes);
    var incoming, outgoing, changed, remaining := Solve(g, Ascending(g.nodes));
    var reaching := ReachingEdges(t.uses, incoming);
    forall e
      ensures e in reaching <==> IsReachingEdge(t, cfg, e)
    {
      AvailableIsReaching(t, cfg, incoming, outgoing, e);
    }
    result := defEdges + useEdges + reaching;
  }
}
