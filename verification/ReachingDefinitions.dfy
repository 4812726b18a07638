/** The round-robin reaching-definitions solver of the code property graph and its
    specification by control-flow paths. Node and definition ids are hashes; they are
    numbers here, ordered as their fixed-width hexadecimal forms are. */
module ReachingDefinitions {
  import opened Sequences
  import opened Wrappers

  type Id = nat

  /** One identifier occurrence: a (folded) name and the id of its node. */
  datatype Record = Record(name: string, id: Id)

  /** For each name the definitions that may hold its value. */
  type Facts = map<string, set<Id>>

  datatype FlowGraph = FlowGraph(nodes: set<Id>, preds: map<Id, set<Id>>, defs: map<Id, seq<Record>>) {
    predicate Valid() {
      && defs.Keys <= nodes
      && preds.Keys <= nodes
      && forall x :: x in preds ==> preds[x] <= nodes
    }

    function Preds(x: Id): set<Id> {
      if x in preds then preds[x] else {}
    }

    function DefsAt(x: Id): seq<Record> {
      if x in defs then defs[x] else []
    }
  }

  /** The definition a record list leaves for `v`: its last record. */
  function LastDef(records: seq<Record>, v: string): Option<Id> {
    if records == [] then None
    else
      var last := records[|records| - 1];
      if last.name == v then Some(last.id) else LastDef(records[..|records| - 1], v)
  }

  /** The k-th record is the last for `v`. */
  ghost predicate IsLastRecord(records: seq<Record>, v: string, k: nat) {
    k < |records| && records[k].name == v && forall j :: k < j < |records| ==> records[j].name != v
  }

  lemma {:induction false} LastDefHolds(records: seq<Record>, v: string)
    ensures LastDef(records, v) == None <==> forall k :: 0 <= k < |records| ==> records[k].name != v
    ensures forall k: nat :: IsLastRecord(records, v, k) ==> LastDef(records, v) == Some(records[k].id)
    ensures LastDef(records, v).Some? ==> exists k: nat :: IsLastRecord(records, v, k)
  {
    if records != [] {
      var init, last := records[..|records| - 1], records[|records| - 1];
      LastDefHolds(init, v);
      assert records == init + [last];
      if last.name == v {
        assert IsLastRecord(records, v, |init|);
      } else {
        if k: nat :| IsLastRecord(init, v, k) {
          assert IsLastRecord(records, v, k);
        }
        forall k: nat | IsLastRecord(records, v, k)
          ensures LastDef(records, v) == Some(records[k].id)
        {
          assert IsLastRecord(init, v, k);
        }
      }
    }
  }

  // ----- the specification: definition-clear paths -----

  ghost predicate IsPath(g: FlowGraph, p: seq<Id>) {
    forall i, j :: 0 <= i && j == i + 1 < |p| ==> p[i] in g.Preds(p[j])
  }

  /** `p` is a non-empty control-flow path that carries definition `d` of `v` to `x`: its
      first node leaves `d` as the value of `v` and no node strictly between defines `v`. */
  ghost predicate Carries(g: FlowGraph, v: string, d: Id, p: seq<Id>, x: Id) {
    && |p| >= 2
    && p[|p| - 1] == x
    && IsPath(g, p)
    && LastDef(g.DefsAt(p[0]), v) == Some(d)
    && forall i :: 0 < i < |p| - 1 ==> LastDef(g.DefsAt(p[i]), v) == None
  }

  ghost predicate Reaches(g: FlowGraph, v: string, d: Id, x: Id) {
    exists p :: Carries(g, v, d, p, x)
  }

  /** Reached along a path of fewer than `k` edges. */
  ghost predicate ReachesBelow(g: FlowGraph, v: string, d: Id, x: Id, k: nat) {
    exists p :: Carries(g, v, d, p, x) && |p| - 1 < k
  }

  /** What leaves a node: its own definition, or what reached it when it has none. */
  ghost predicate Leaves(g: FlowGraph, v: string, d: Id, x: Id) {
    var own := LastDef(g.DefsAt(x), v);
    own == Some(d) || (own == None && Reaches(g, v, d, x))
  }

  ghost predicate LeavesBelow(g: FlowGraph, v: string, d: Id, x: Id, k: nat) {
    var own := LastDef(g.DefsAt(x), v);
    (own == Some(d) && k >= 1) || (own == None && ReachesBelow(g, v, d, x, k))
  }

  /** A definition that leaves a predecessor reaches the node. */
  lemma {:induction false} ReachesFromPred(g: FlowGraph, v: string, d: Id, x: Id, y: Id)
    requires y in g.Preds(x) && Leaves(g, v, d, y)
    ensures Reaches(g, v, d, x)
  {
    if LastDef(g.DefsAt(y), v) == Some(d) {
      assert Carries(g, v, d, [y, x], x);
    } else {
      var p :| Carries(g, v, d, p, y);
      assert Carries(g, v, d, p + [x], x);
    }
  }

  /** A definition that reaches a node leaves one of its predecessors, one edge earlier. */
  lemma {:induction false} PredOfReached(g: FlowGraph, v: string, d: Id, x: Id, p: seq<Id>)
    requires Carries(g, v, d, p, x)
    ensures p[|p| - 2] in g.Preds(x)
    ensures LeavesBelow(g, v, d, p[|p| - 2], |p| - 1)
    ensures Leaves(g, v, d, p[|p| - 2])
  {
    var y := p[|p| - 2];
    assert p[|p| - 1] == x;
    if |p| > 2 {
      assert Carries(g, v, d, p[..|p| - 1], y);
    }
  }

  /** Cutting a loop out of a carrying path leaves a carrying path. */
  lemma {:induction false} CutLoop(g: FlowGraph, v: string, d: Id, x: Id, p: seq<Id>, i: nat, j: nat)
    requires Carries(g, v, d, p, x)
    requires 0 < i < j < |p| && p[i] == p[j]
    ensures Carries(g, v, d, p[..i + 1] + p[j + 1..], x)
  {
    var q := p[..i + 1] + p[j + 1..];
    assert q[|q| - 1] == x;
    forall h, k | 0 <= h && k == h + 1 < |q|
      ensures q[h] in g.Preds(q[k])
      ensures k < |q| - 1 ==> LastDef(g.DefsAt(q[k]), v) == None
    {
      if k <= i {
        assert q[k] == p[k] && q[h] == p[h];
      } else {
        assert q[k] == p[k + j - i] && q[h] == p[h + j - i];
      }
    }
  }

  lemma {:induction false} TargetsAreNodes(g: FlowGraph, p: seq<Id>)
    requires g.Valid() && IsPath(g, p) && p != []
    ensures forall k :: 0 <= k < |p[1..]| ==> p[1..][k] in g.nodes
  {
    forall k | 0 <= k < |p[1..]|
      ensures p[1..][k] in g.nodes
    {
      var j := k + 1;
      assert p[k] in g.Preds(p[j]);
    }
  }

  /** Cutting the loops out of a carrying path: as many edges as there are nodes suffice. */
  lemma {:induction false} ShortPath(g: FlowGraph, v: string, d: Id, x: Id, p: seq<Id>)
    requires g.Valid() && Carries(g, v, d, p, x)
    ensures ReachesBelow(g, v, d, x, |g.nodes| + 1)
    decreases |p|
  {
    if |p| - 1 > |g.nodes| {
      TargetsAreNodes(g, p);
      var i, j := Repeats(p[1..], g.nodes);
      var q := p[..i + 2] + p[j + 2..];
      assert Carries(g, v, d, q, x) by {
        CutLoop(g, v, d, x, p, i + 1, j + 1);
      }
      ShortPath(g, v, d, x, q);
    }
  }

  // ----- facts -----

  predicate Has(m: Facts, v: string, d: Id) {
    v in m && d in m[v]
  }

  /** No name is recorded with an empty set. */
  ghost predicate Tidy(m: Facts) {
    forall v :: v in m ==> m[v] != {}
  }

  ghost predicate Leq(a: Facts, b: Facts) {
    forall v, d: Id :: Has(a, v, d) ==> Has(b, v, d)
  }

  lemma {:induction false} SameFacts(a: Facts, b: Facts)
    requires Tidy(a) && Tidy(b) && Leq(a, b) && Leq(b, a)
    ensures a == b
  {
    forall v | v in a
      ensures v in b && a[v] == b[v]
    {
      var d :| d in a[v];
      assert Has(a, v, d);
      assert forall e :: e in a[v] <==> Has(a, v, e);
      assert forall e :: e in b[v] <==> Has(b, v, e);
    }
    forall v | v in b
      ensures v in a
    {
      var d :| d in b[v];
      assert Has(b, v, d);
    }
  }

  /** The union of what leaves the given predecessors. */
  function Merge(preds: set<Id>, out: map<Id, Facts>): Facts {
    map v | v in MergedNames(preds, out) :: MergedFor(preds, out, v)
  }

  function MergedNames(preds: set<Id>, out: map<Id, Facts>): set<string> {
    set p, v | p in preds && p in out && v in out[p] :: v
  }

  function MergedFor(preds: set<Id>, out: map<Id, Facts>, v: string): set<Id> {
    set p, d | p in preds && p in out && v in out[p] && d in out[p][v] :: d
  }

  lemma {:induction false} MergeExact(preds: set<Id>, out: map<Id, Facts>)
    ensures forall v, d: Id :: Has(Merge(preds, out), v, d) <==> exists p :: p in preds && p in out && Has(out[p], v, d)
    ensures (forall p :: p in out ==> Tidy(out[p])) ==> Tidy(Merge(preds, out))
  {
    var m := Merge(preds, out);
    forall v, d: Id
      ensures Has(m, v, d) <==> exists p :: p in preds && p in out && Has(out[p], v, d)
    {
      if Has(m, v, d) {
        var p :| p in preds && p in out && v in out[p] && d in out[p][v];
        assert Has(out[p], v, d);
      }
    }
    if forall p :: p in out ==> Tidy(out[p]) {
      forall v | v in m
        ensures m[v] != {}
      {
        var p :| p in preds && p in out && v in out[p];
        var d :| d in out[p][v];
        assert d in m[v];
      }
    }
  }

  /** A node's own records replace what reached it, later records replacing earlier ones. */
  function Transfer(m: Facts, records: seq<Record>): Facts {
    if records == [] then m
    else
      var last := records[|records| - 1];
      Transfer(m, records[..|records| - 1])[last.name := {last.id}]
  }

  lemma {:induction false} TransferExact(m: Facts, records: seq<Record>)
    ensures forall v, d: Id :: Has(Transfer(m, records), v, d) <==>
              LastDef(records, v) == Some(d) || (LastDef(records, v) == None && Has(m, v, d))
    ensures Tidy(m) ==> Tidy(Transfer(m, records))
  {
    if records != [] {
      TransferExact(m, records[..|records| - 1]);
    }
  }

  // ----- the iteration -----

  datatype State = State(inc: map<Id, Facts>, out: map<Id, Facts>) {
    ghost predicate Over(nodes: set<Id>) {
      inc.Keys == nodes && out.Keys == nodes
    }
  }

  function Empty(nodes: set<Id>): map<Id, Facts> {
    map x | x in nodes :: map[]
  }

  function Bottom(nodes: set<Id>): (s: State)
    ensures s.Over(nodes)
  {
    State(Empty(nodes), Empty(nodes))
  }

  function Visit(g: FlowGraph, s: State, x: Id): (r: State)
    ensures s.Over(g.nodes) && x in g.nodes ==> r.Over(g.nodes)
  {
    var reached := Merge(g.Preds(x), s.out);
    State(s.inc[x := reached], s.out[x := Transfer(reached, g.DefsAt(x))])
  }

  /** One round-robin pass: later nodes already see what earlier ones changed. */
  function Pass(g: FlowGraph, s: State, order: seq<Id>): State {
    if order == [] then s
    else Visit(g, Pass(g, s, order[..|order| - 1]), order[|order| - 1])
  }

  function Run(g: FlowGraph, order: seq<Id>, k: nat): State {
    if k == 0 then Bottom(g.nodes) else Pass(g, Run(g, order, k - 1), order)
  }

  ghost predicate Enumerates(order: seq<Id>, nodes: set<Id>) {
    forall x :: x in order <==> x in nodes
  }

  /** Nothing is recorded that no path carries. */
  ghost predicate Sound(g: FlowGraph, s: State) {
    && s.Over(g.nodes)
    && (forall x :: x in g.nodes ==> Tidy(s.inc[x]) && Tidy(s.out[x]))
    && (forall x, v, d: Id :: x in g.nodes && Has(s.inc[x], v, d) ==> Reaches(g, v, d, x))
    && (forall x, v, d: Id :: x in g.nodes && Has(s.out[x], v, d) ==> Leaves(g, v, d, x))
  }

  ghost predicate CompleteAt(g: FlowGraph, s: State, x: Id, k: nat)
    requires s.Over(g.nodes) && x in g.nodes
  {
    && (forall v, d: Id :: ReachesBelow(g, v, d, x, k) ==> Has(s.inc[x], v, d))
    && (forall v, d: Id :: LeavesBelow(g, v, d, x, k) ==> Has(s.out[x], v, d))
  }

  /** Everything carried along fewer than `k` edges is recorded. */
  ghost predicate Complete(g: FlowGraph, s: State, k: nat)
    requires s.Over(g.nodes)
  {
    forall x :: x in g.nodes ==> CompleteAt(g, s, x, k)
  }

  /** The state records exactly the definitions that reach and leave each node. */
  ghost predicate Exact(g: FlowGraph, s: State) {
    && Sound(g, s)
    && (forall x, v, d: Id :: x in g.nodes && Reaches(g, v, d, x) ==> Has(s.inc[x], v, d))
    && (forall x, v, d: Id :: x in g.nodes && Leaves(g, v, d, x) ==> Has(s.out[x], v, d))
  }

  /** The state solves the data-flow equations. */
  ghost predicate Solves(g: FlowGraph, s: State) {
    && s.Over(g.nodes)
    && forall x :: x in g.nodes ==> Stable(g, s, x)
  }

  ghost predicate Stable(g: FlowGraph, s: State, x: Id) {
    Visit(g, s, x) == s
  }

  lemma {:induction false} VisitSound(g: FlowGraph, s: State, x: Id)
    requires g.Valid() && Sound(g, s) && x in g.nodes
    ensures Sound(g, Visit(g, s, x))
  {
    var reached := Merge(g.Preds(x), s.out);
    MergeExact(g.Preds(x), s.out);
    forall v, d: Id | Has(reached, v, d)
      ensures Reaches(g, v, d, x)
    {
      var p :| p in g.Preds(x) && p in s.out && Has(s.out[p], v, d);
      ReachesFromPred(g, v, d, x, p);
    }
    TransferExact(reached, g.DefsAt(x));
  }

  lemma {:induction false} VisitComplete(g: FlowGraph, s: State, x: Id, k: nat)
    requires g.Valid() && s.Over(g.nodes) && Complete(g, s, k) && x in g.nodes
    ensures CompleteAt(g, Visit(g, s, x), x, k + 1)
  {
    var reached := Merge(g.Preds(x), s.out);
    MergeExact(g.Preds(x), s.out);
    forall v, d: Id | ReachesBelow(g, v, d, x, k + 1)
      ensures Has(reached, v, d)
    {
      var p :| Carries(g, v, d, p, x) && |p| - 1 < k + 1;
      PredOfReached(g, v, d, x, p);
      var y := p[|p| - 2];
      assert LeavesBelow(g, v, d, y, k) by {
        if LastDef(g.DefsAt(y), v) == None {
          var q :| Carries(g, v, d, q, y) && |q| - 1 < |p| - 1;
        }
      }
      assert CompleteAt(g, s, y, k);
    }
    TransferExact(reached, g.DefsAt(x));
  }

  lemma {:induction false} CompleteWeaken(g: FlowGraph, s: State, x: Id, k: nat)
    requires s.Over(g.nodes) && x in g.nodes && CompleteAt(g, s, x, k + 1)
    ensures CompleteAt(g, s, x, k)
  {
    forall v, d: Id | ReachesBelow(g, v, d, x, k)
      ensures ReachesBelow(g, v, d, x, k + 1)
    {
      var p :| Carries(g, v, d, p, x) && |p| - 1 < k;
    }
  }

  /** Within a pass: the nodes already visited are one edge ahead of the others. */
  ghost predicate Advancing(g: FlowGraph, s: State, done: seq<Id>, k: nat)
    requires s.Over(g.nodes)
  {
    forall x :: x in g.nodes ==> CompleteAt(g, s, x, if x in done then k + 1 else k)
  }

  lemma {:induction false} AdvancingIsComplete(g: FlowGraph, s: State, done: seq<Id>, k: nat)
    requires s.Over(g.nodes) && Advancing(g, s, done, k)
    ensures Complete(g, s, k)
  {
    forall x | x in g.nodes
      ensures CompleteAt(g, s, x, k)
    {
      if x in done {
        CompleteWeaken(g, s, x, k);
      }
    }
  }

  lemma {:induction false} VisitKeeps(g: FlowGraph, s: State, x: Id, y: Id, k: nat)
    requires s.Over(g.nodes) && x in g.nodes && y in g.nodes && y != x
    requires CompleteAt(g, s, y, k)
    ensures CompleteAt(g, Visit(g, s, x), y, k)
  {
    assert Visit(g, s, x).inc[y] == s.inc[y] && Visit(g, s, x).out[y] == s.out[y];
  }

  lemma {:induction false} VisitAdvances(g: FlowGraph, s: State, done: seq<Id>, x: Id, k: nat)
    requires g.Valid() && s.Over(g.nodes) && Advancing(g, s, done, k) && x in g.nodes
    ensures Visit(g, s, x).Over(g.nodes)
    ensures Advancing(g, Visit(g, s, x), done + [x], k)
  {
    AdvancingIsComplete(g, s, done, k);
    VisitComplete(g, s, x, k);
    forall y | y in g.nodes && y != x
      ensures CompleteAt(g, Visit(g, s, x), y, if y in done then k + 1 else k)
    {
      VisitKeeps(g, s, x, y, if y in done then k + 1 else k);
    }
  }

  lemma {:induction false} PassProgress(g: FlowGraph, s: State, order: seq<Id>, k: nat)
    requires g.Valid() && Sound(g, s) && Complete(g, s, k)
    requires forall x :: x in order ==> x in g.nodes
    ensures Sound(g, Pass(g, s, order)) && Advancing(g, Pass(g, s, order), order, k)
  {
    if order != [] {
      var init, x := order[..|order| - 1], order[|order| - 1];
      PassProgress(g, s, init, k);
      assert order == init + [x];
      VisitSound(g, Pass(g, s, init), x);
      VisitAdvances(g, Pass(g, s, init), init, x, k);
    }
  }

  lemma {:induction false} BottomSound(g: FlowGraph)
    requires g.Valid()
    ensures Sound(g, Bottom(g.nodes)) && Complete(g, Bottom(g.nodes), 0)
  {
    forall x, v, d: Id
      ensures !LeavesBelow(g, v, d, x, 0) && !ReachesBelow(g, v, d, x, 0)
    {
    }
  }

  /** After `k` passes everything carried along fewer than `k` edges is recorded. */
  lemma {:induction false} RunProgress(g: FlowGraph, order: seq<Id>, k: nat)
    requires g.Valid() && Enumerates(order, g.nodes)
    ensures Sound(g, Run(g, order, k)) && Complete(g, Run(g, order, k), k)
  {
    if k == 0 {
      BottomSound(g);
    } else {
      RunProgress(g, order, k - 1);
      PassProgress(g, Run(g, order, k - 1), order, k - 1);
    }
  }

  /** One pass more than there are nodes reaches the exact solution, whatever the order. */
  lemma {:induction false} ExactAfter(g: FlowGraph, order: seq<Id>, k: nat)
    requires g.Valid() && Enumerates(order, g.nodes) && k >= |g.nodes| + 1
    ensures Exact(g, Run(g, order, k))
  {
    RunProgress(g, order, k);
    var s := Run(g, order, k);
    forall x, v, d: Id | x in g.nodes && Reaches(g, v, d, x)
      ensures Has(s.inc[x], v, d)
    {
      var p :| Carries(g, v, d, p, x);
      ShortPath(g, v, d, x, p);
      var q :| Carries(g, v, d, q, x) && |q| - 1 < |g.nodes| + 1;
      assert ReachesBelow(g, v, d, x, k);
      assert CompleteAt(g, s, x, k);
    }
    forall x, v, d: Id | x in g.nodes && Leaves(g, v, d, x)
      ensures Has(s.out[x], v, d)
    {
      assert CompleteAt(g, s, x, k);
      if LastDef(g.DefsAt(x), v) == None {
        var p :| Carries(g, v, d, p, x);
        ShortPath(g, v, d, x, p);
        var q :| Carries(g, v, d, q, x) && |q| - 1 < |g.nodes| + 1;
        assert ReachesBelow(g, v, d, x, k);
      }
      assert LeavesBelow(g, v, d, x, k);
    }
  }

  /** The exact state is stable: visiting any node changes nothing. */
  lemma {:induction false} ExactSolves(g: FlowGraph, s: State)
    requires g.Valid() && Exact(g, s)
    ensures Solves(g, s)
  {
    forall x | x in g.nodes
      ensures Stable(g, s, x)
    {
      var reached := Merge(g.Preds(x), s.out);
      MergeExact(g.Preds(x), s.out);
      VisitSound(g, s, x);
      forall v, d: Id | Has(s.inc[x], v, d)
        ensures Has(reached, v, d)
      {
        var p :| Carries(g, v, d, p, x);
        PredOfReached(g, v, d, x, p);
        var y := p[|p| - 2];
        assert y in s.out && Has(s.out[y], v, d);
      }
      forall v, d: Id | Has(reached, v, d)
        ensures Has(s.inc[x], v, d)
      {
        assert Has(Visit(g, s, x).inc[x], v, d);
      }
      SameFacts(s.inc[x], reached);
      TransferExact(reached, g.DefsAt(x));
      SameFacts(s.out[x], Transfer(reached, g.DefsAt(x)));
    }
  }

  /** Every solution of the equations contains everything the paths carry ... */
  lemma {:induction false} SolutionContains(g: FlowGraph, s: State, v: string, d: Id, p: seq<Id>, x: Id)
    requires g.Valid() && Solves(g, s) && Carries(g, v, d, p, x)
    ensures x in g.nodes && Has(s.inc[x], v, d)
    decreases |p|
  {
    PredOfReached(g, v, d, x, p);
    var y := p[|p| - 2];
    assert x in g.preds;
    if LastDef(g.DefsAt(y), v) == None {
      assert Carries(g, v, d, p[..|p| - 1], y);
      SolutionContains(g, s, v, d, p[..|p| - 1], y);
    }
    assert Stable(g, s, y) && Stable(g, s, x);
    MergeExact(g.Preds(x), s.out);
    TransferExact(Merge(g.Preds(y), s.out), g.DefsAt(y));
    assert Has(s.out[y], v, d);
  }

  /** ... so a sound solution is the exact one, and the exact one is the least. */
  lemma {:induction false} SoundSolutionIsExact(g: FlowGraph, s: State)
    requires g.Valid() && Sound(g, s) && Solves(g, s)
    ensures Exact(g, s)
  {
    forall x, v, d: Id | x in g.nodes && Reaches(g, v, d, x)
      ensures Has(s.inc[x], v, d)
    {
      var p :| Carries(g, v, d, p, x);
      SolutionContains(g, s, v, d, p, x);
    }
    forall x, v, d: Id | x in g.nodes && Leaves(g, v, d, x)
      ensures Has(s.out[x], v, d)
    {
      assert Stable(g, s, x);
      TransferExact(Merge(g.Preds(x), s.out), g.DefsAt(x));
    }
  }

  lemma {:induction false} ExactIsLeast(g: FlowGraph, s: State, t: State)
    requires g.Valid() && Exact(g, s) && Solves(g, t)
    ensures forall x :: x in g.nodes ==> Leq(s.inc[x], t.inc[x]) && Leq(s.out[x], t.out[x])
  {
    forall x, v, d: Id | x in g.nodes && Has(s.inc[x], v, d)
      ensures Has(t.inc[x], v, d)
    {
      var p :| Carries(g, v, d, p, x);
      SolutionContains(g, t, v, d, p, x);
    }
    forall x | x in g.nodes
      ensures Leq(s.out[x], t.out[x])
    {
      assert Stable(g, t, x);
      TransferExact(Merge(g.Preds(x), t.out), g.DefsAt(x));
    }
  }

  // ----- the sets only grow -----

  ghost predicate Below(s: State, t: State, nodes: set<Id>) {
    && s.Over(nodes) && t.Over(nodes)
    && forall x :: x in nodes ==> Leq(s.inc[x], t.inc[x]) && Leq(s.out[x], t.out[x])
  }

  /** Visiting any node can only add to it. */
  ghost predicate Rising(g: FlowGraph, s: State) {
    && s.Over(g.nodes)
    && forall x :: x in g.nodes ==> RisingAt(g, s, x)
  }

  ghost predicate RisingAt(g: FlowGraph, s: State, x: Id)
    requires s.Over(g.nodes) && x in g.nodes
  {
    Leq(s.inc[x], Visit(g, s, x).inc[x]) && Leq(s.out[x], Visit(g, s, x).out[x])
  }

  lemma {:induction false} RisingBelow(g: FlowGraph, s: State, x: Id)
    requires s.Over(g.nodes) && x in g.nodes && RisingAt(g, s, x)
    ensures Below(s, Visit(g, s, x), g.nodes)
  {
  }

  /** Visiting is monotone. */
  lemma {:induction false} VisitMonotone(g: FlowGraph, s: State, t: State, x: Id)
    requires g.Valid() && Below(s, t, g.nodes) && x in g.nodes
    ensures Leq(Visit(g, s, x).inc[x], Visit(g, t, x).inc[x])
    ensures Leq(Visit(g, s, x).out[x], Visit(g, t, x).out[x])
  {
    var a, b := Merge(g.Preds(x), s.out), Merge(g.Preds(x), t.out);
    MergeExact(g.Preds(x), s.out);
    MergeExact(g.Preds(x), t.out);
    assert Leq(a, b);
    TransferExact(a, g.DefsAt(x));
    TransferExact(b, g.DefsAt(x));
  }

  lemma {:induction false} LeqTrans(a: Facts, b: Facts, c: Facts)
    requires Leq(a, b) && Leq(b, c)
    ensures Leq(a, c)
  {
  }

  lemma {:induction false} VisitRising(g: FlowGraph, s: State, x: Id, y: Id)
    requires g.Valid() && Rising(g, s) && x in g.nodes && y in g.nodes
    ensures Visit(g, s, x).Over(g.nodes) && RisingAt(g, Visit(g, s, x), y)
  {
    assert RisingAt(g, s, x) && RisingAt(g, s, y);
    RisingBelow(g, s, x);
    VisitMonotone(g, s, Visit(g, s, x), y);
    if y != x {
      OtherRising(g, s, Visit(g, s, x), y);
    }
  }

  lemma {:induction false} OtherRising(g: FlowGraph, s: State, t: State, y: Id)
    requires s.Over(g.nodes) && t.Over(g.nodes) && y in g.nodes && RisingAt(g, s, y)
    requires t.inc[y] == s.inc[y] && t.out[y] == s.out[y]
    requires Leq(Visit(g, s, y).inc[y], Visit(g, t, y).inc[y]) && Leq(Visit(g, s, y).out[y], Visit(g, t, y).out[y])
    ensures RisingAt(g, t, y)
  {
    LeqTrans(s.inc[y], Visit(g, s, y).inc[y], Visit(g, t, y).inc[y]);
    LeqTrans(s.out[y], Visit(g, s, y).out[y], Visit(g, t, y).out[y]);
  }

  lemma {:induction false} PassRising(g: FlowGraph, s: State, order: seq<Id>)
    requires g.Valid() && Rising(g, s)
    requires forall x :: x in order ==> x in g.nodes
    ensures Below(s, Pass(g, s, order), g.nodes) && Rising(g, Pass(g, s, order))
  {
    if order != [] {
      var x, mid := order[|order| - 1], Pass(g, s, order[..|order| - 1]);
      PassRising(g, s, order[..|order| - 1]);
      forall y | y in g.nodes
        ensures RisingAt(g, Visit(g, mid, x), y)
      {
        VisitRising(g, mid, x, y);
      }
      RisingBelow(g, mid, x);
    }
  }

  lemma {:induction false} BottomRising(g: FlowGraph)
    requires g.Valid()
    ensures Rising(g, Bottom(g.nodes))
  {
  }

  /** From one pass to the next no recorded definition is ever dropped. */
  lemma {:induction false} RunGrows(g: FlowGraph, order: seq<Id>, k: nat)
    requires g.Valid() && Enumerates(order, g.nodes)
    ensures Below(Run(g, order, k), Run(g, order, k + 1), g.nodes) && Rising(g, Run(g, order, k))
  {
    if k == 0 {
      BottomRising(g);
    } else {
      RunGrows(g, order, k - 1);
      PassRising(g, Run(g, order, k - 1), order);
    }
    PassRising(g, Run(g, order, k), order);
  }

  // ----- the solver -----

  function PassBudget(n: nat): nat {
    if n * 4 > 1 then n * 4 else 1
  }

  lemma {:induction false} PassSnoc(g: FlowGraph, s: State, order: seq<Id>, i: nat)
    requires i < |order|
    ensures Pass(g, s, order[..i + 1]) == Visit(g, Pass(g, s, order[..i]), order[i])
  {
    assert order[..i + 1][..i] == order[..i];
  }

  lemma {:induction false} PassAll(g: FlowGraph, s: State, order: seq<Id>)
    ensures Pass(g, s, order[..|order|]) == Pass(g, s, order)
  {
    assert order[..|order|] == order;
  }

  /** The test that a pass makes at each node asks whether visiting it changes the state. */
  lemma {:induction false} VisitChanges(g: FlowGraph, s: State, x: Id)
    requires s.Over(g.nodes) && x in g.nodes
    ensures s.inc[x] == Merge(g.Preds(x), s.out) && s.out[x] == Transfer(s.inc[x], g.DefsAt(x)) <==> Visit(g, s, x) == s
  {
    var t := Visit(g, s, x);
    assert t.inc[x] == Merge(g.Preds(x), s.out) && t.out[x] == Transfer(t.inc[x], g.DefsAt(x));
    if s.inc[x] == t.inc[x] && s.out[x] == t.out[x] {
      assert t.inc == s.inc && t.out == s.out;
    }
  }

  /** What a pass from `before` knows after visiting the first `i` nodes: the state so far,
      and whether one of them changed it. */
  ghost predicate Passing(g: FlowGraph, before: State, order: seq<Id>, i: nat, s: State, changed: bool)
    requires i <= |order|
  {
    && before.Over(g.nodes) && s.Over(g.nodes)
    && s == Pass(g, before, order[..i])
    && (if changed then !Solves(g, before)
        else s == before && forall j :: 0 <= j < i ==> Stable(g, before, order[j]))
  }

  lemma {:induction false} PassingStep(g: FlowGraph, before: State, order: seq<Id>, i: nat, s: State, changed: bool)
    requires i < |order| && Enumerates(order, g.nodes) && Passing(g, before, order, i, s, changed)
    ensures order[i] in g.nodes
    ensures var x := order[i];
            var same := s.inc[x] == Merge(g.Preds(x), s.out) && s.out[x] == Transfer(s.inc[x], g.DefsAt(x));
            && Passing(g, before, order, i + 1, Visit(g, s, x), changed || !same)
            && (same ==> Visit(g, s, x) == s)
  {
    assert order[i] in order;
    PassSnoc(g, before, order, i);
    VisitChanges(g, s, order[i]);
  }

  lemma {:induction false} PassingAll(g: FlowGraph, before: State, order: seq<Id>, s: State, changed: bool)
    requires Enumerates(order, g.nodes) && Passing(g, before, order, |order|, s, changed)
    ensures s == Pass(g, before, order)
    ensures !changed <==> Solves(g, before)
    ensures !changed ==> s == before
  {
    PassAll(g, before, order);
  }

  /** The body of the loop: one pass over the nodes. It reports a change exactly when the
      state it started from did not solve the equations. */
  method SolvePass(g: FlowGraph, order: seq<Id>, incoming: map<Id, Facts>, outgoing: map<Id, Facts>)
      returns (nextIncoming: map<Id, Facts>, nextOutgoing: map<Id, Facts>, changed: bool)
    requires g.Valid() && Enumerates(order, g.nodes)
    requires State(incoming, outgoing).Over(g.nodes)
    ensures State(nextIncoming, nextOutgoing) == Pass(g, State(incoming, outgoing), order)
    ensures State(nextIncoming, nextOutgoing).Over(g.nodes)
    ensures !changed <==> Solves(g, State(incoming, outgoing))
    ensures !changed ==> State(nextIncoming, nextOutgoing) == State(incoming, outgoing)
  {
    nextIncoming, nextOutgoing, changed := incoming, outgoing, false;
    ghost var before := State(incoming, outgoing);
    for i := 0 to |order|
      invariant Passing(g, before, order, i, State(nextIncoming, nextOutgoing), changed)
    {
      var x := order[i];
      PassingStep(g, before, order, i, State(nextIncoming, nextOutgoing), changed);
      var reached := Merge(g.Preds(x), nextOutgoing);
      var left := Transfer(reached, g.DefsAt(x));
      if nextIncoming[x] != reached || nextOutgoing[x] != left {
        nextIncoming := nextIncoming[x := reached];
        nextOutgoing := nextOutgoing[x := left];
        changed := true;
      }
    }
    PassingAll(g, before, order, State(nextIncoming, nextOutgoing), changed);
  }

  lemma {:induction false} StableAfter(g: FlowGraph, order: seq<Id>, k: nat)
    requires g.Valid() && Enumerates(order, g.nodes) && (k >= |g.nodes| + 1 || g.nodes == {})
    ensures Solves(g, Run(g, order, k))
  {
    if g.nodes == {} {
      RunProgress(g, order, k);
    } else {
      ExactAfter(g, order, k);
      ExactSolves(g, Run(g, order, k));
    }
  }

  /** What the loop knows after `passes` passes. */
  ghost predicate Solving(g: FlowGraph, order: seq<Id>, passes: nat, s: State, changed: bool) {
    && s.Over(g.nodes)
    && s == Run(g, order, passes)
    && (if changed then passes > 0 ==> !Solves(g, Run(g, order, passes - 1)) else Solves(g, s))
    && passes <= |g.nodes| + 2
  }

  lemma {:induction false} SolvingStart(g: FlowGraph, order: seq<Id>)
    ensures Solving(g, order, 0, State(Empty(g.nodes), Empty(g.nodes)), true)
  {
  }

  lemma {:induction false} SolvingStep(g: FlowGraph, order: seq<Id>, passes: nat, s: State, t: State, changed: bool)
    requires g.Valid() && Enumerates(order, g.nodes) && Solving(g, order, passes, s, true)
    requires t == Pass(g, s, order) && t.Over(g.nodes)
    requires !changed <==> Solves(g, s)
    requires !changed ==> t == s
    ensures Solving(g, order, passes + 1, t, changed)
  {
    SolvingBound(g, order, passes, s);
  }

  lemma {:induction false} SolvingBound(g: FlowGraph, order: seq<Id>, passes: nat, s: State)
    requires g.Valid() && Enumerates(order, g.nodes) && Solving(g, order, passes, s, true)
    ensures passes <= |g.nodes| + 1
    ensures g.nodes == {} ==> passes == 0
  {
    if passes > |g.nodes| + 1 || (g.nodes == {} && passes > 0) {
      StableAfter(g, order, passes - 1);
    }
  }

  lemma {:induction false} SolvingEnd(g: FlowGraph, order: seq<Id>, passes: nat, s: State, changed: bool)
    requires g.Valid() && Enumerates(order, g.nodes) && Solving(g, order, passes, s, changed)
    requires changed ==> passes == PassBudget(|g.nodes|)
    ensures !changed && Exact(g, s) && passes <= |g.nodes| + 2
  {
    if changed {
      SolvingBound(g, order, passes, s);
    }
    RunProgress(g, order, passes);
    SoundSolutionIsExact(g, s);
  }

  /** The round-robin loop under its pass guard. Whatever the graph and the visiting order,
      it stops because nothing changed, after at most two passes more than there are nodes,
      and its sets are exactly the definitions that control-flow paths carry. */
  method Solve(g: FlowGraph, order: seq<Id>)
      returns (incoming: map<Id, Facts>, outgoing: map<Id, Facts>, changed: bool, remaining: nat)
    requires g.Valid() && Enumerates(order, g.nodes)
    ensures !changed
    ensures PassBudget(|g.nodes|) <= remaining + |g.nodes| + 2
    ensures Exact(g, State(incoming, outgoing))
  {
    incoming, outgoing := Empty(g.nodes), Empty(g.nodes);
    changed := true;
    remaining := PassBudget(|g.nodes|);
    ghost var passes: nat := 0;
    SolvingStart(g, order);
    while changed && remaining > 0
      invariant remaining + passes == PassBudget(|g.nodes|)
      invariant Solving(g, order, passes, State(incoming, outgoing), changed)
      decreases remaining
    {
      ghost var before := State(incoming, outgoing);
      incoming, outgoing, changed := SolvePass(g, order, incoming, outgoing);
      SolvingStep(g, order, passes, before, State(incoming, outgoing), changed);
      remaining, passes := remaining - 1, passes + 1;
    }
    SolvingEnd(g, order, passes, State(incoming, outgoing), changed);
  }
}
