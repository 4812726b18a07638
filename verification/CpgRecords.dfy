/** Graph records, and the bounded, closed subgraph made of them. */
module CpgRecords {
  import opened Sequences

  /** Stable ids are digests, compared as fixed-width text: numbers with their order. */
  type Id = nat

  /** The tag is the record's label. */
  datatype CpgNode = CpgNode(id: Id, tag: string)

  datatype CpgEdge = CpgEdge(id: Id, tag: string, source: Id, target: Id)

  datatype CpgProblem = CpgProblem(kind: string, message: string, path: string, line: int, column: int)

  datatype Graph = Ast | Cfg | Dfg | Calls | Full

  datatype CpgSubgraph = CpgSubgraph(
    graph: Graph, root: Id, nodes: seq<CpgNode>, edges: seq<CpgEdge>, problems: seq<CpgProblem>,
    truncated: bool, unresolved: int)

  const RECORD_LIMIT := 50_000

  function NodeId(n: CpgNode): Id {
    n.id
  }

  function EdgeId(e: CpgEdge): Id {
    e.id
  }

  ghost predicate AscendingBy<T(!new)>(items: seq<T>, id: T -> Id) {
    forall i, j :: 0 <= i < j < |items| ==> id(items[i]) < id(items[j])
  }

  ghost predicate HasId<T(!new)>(items: seq<T>, id: T -> Id, k: Id) {
    exists x :: x in items && id(x) == k
  }

  ghost predicate Closed(nodes: seq<CpgNode>, edges: seq<CpgEdge>) {
    forall e :: e in edges ==> HasId(nodes, NodeId, e.source) && HasId(nodes, NodeId, e.target)
  }

  /** What every created subgraph satisfies. */
  ghost predicate WellFormed(g: CpgSubgraph) {
    AscendingBy(g.nodes, NodeId) && AscendingBy(g.edges, EdgeId) && Closed(g.nodes, g.edges)
  }

  // ----- unique, ordered records -----

  /** The records by id; the last one with an id wins. */
  function ById<T>(items: seq<T>, id: T -> Id): map<Id, T> {
    if items == [] then map[]
    else ById(items[..|items| - 1], id)[id(items[|items| - 1]) := items[|items| - 1]]
  }

  function InOrder<T>(m: map<Id, T>, keys: seq<Id>): (r: seq<T>)
    requires forall k :: k in keys ==> k in m
    ensures |r| == |keys| && forall i :: 0 <= i < |r| ==> r[i] == m[keys[i]]
  {
    if keys == [] then [] else [m[keys[0]]] + InOrder(m, keys[1..])
  }

  /** The distinct records in the order of their ids. */
  function Sorted<T>(items: seq<T>, id: T -> Id): seq<T> {
    var m := ById(items, id);
    AscendingSorts(m.Keys);
    InOrder(m, Ascending(m.Keys))
  }

  lemma {:induction false} ByIdHolds<T(!new)>(items: seq<T>, id: T -> Id)
    ensures forall k :: k in ById(items, id) <==> HasId(items, id, k)
    ensures forall k :: k in ById(items, id) ==> ById(items, id)[k] in items && id(ById(items, id)[k]) == k
  {
    if items != [] {
      var rest, last := items[..|items| - 1], items[|items| - 1];
      ByIdHolds(rest, id);
      assert forall x :: x in items <==> x in rest || x == last;
      assert HasId(items, id, id(last));
    }
  }

  lemma {:induction false} SortedHolds<T(!new)>(items: seq<T>, id: T -> Id)
    ensures AscendingBy(Sorted(items, id), id)
    ensures forall x :: x in Sorted(items, id) ==> x in items
    ensures forall k :: HasId(Sorted(items, id), id, k) <==> HasId(items, id, k)
  {
    var m := ById(items, id);
    var keys := Ascending(m.Keys);
    AscendingSorts(m.Keys);
    ByIdHolds(items, id);
    var s := Sorted(items, id);
    assert forall i :: 0 <= i < |s| ==> s[i] == m[keys[i]] && keys[i] in m;
    forall k | HasId(items, id, k)
      ensures HasId(s, id, k)
    {
      assert k in keys;
      var i :| 0 <= i < |keys| && keys[i] == k;
      assert s[i] in s && id(s[i]) == k;
    }
    forall k | HasId(s, id, k)
      ensures HasId(items, id, k)
    {
      var x :| x in s && id(x) == k;
    }
  }

  /** No two records share an id. */
  ghost predicate UniqueIds<T(!new)>(items: seq<T>, id: T -> Id) {
    forall x, y :: x in items && y in items && id(x) == id(y) ==> x == y
  }

  /** Records whose ids are unique survive sorting, and nothing is added. */
  lemma {:induction false} SortedUnique<T(!new)>(items: seq<T>, id: T -> Id)
    requires UniqueIds(items, id)
    ensures forall x :: x in Sorted(items, id) <==> x in items
    ensures |Sorted(items, id)| == |set x | x in items|
  {
    var s := Sorted(items, id);
    SortedHolds(items, id);
    forall x | x in items
      ensures x in s
    {
      assert HasId(items, id, id(x));
      assert HasId(s, id, id(x));
      var y :| y in s && id(y) == id(x);
    }
    CountDistinct(s);
    assert (set x | x in s) == (set x | x in items);
  }

  lemma {:induction false} CountDistinct<T>(s: seq<T>)
    requires Distinct(s)
    ensures |set x | x in s| == |s|
  {
    if s != [] {
      CountDistinct(s[1..]);
      assert (set x | x in s) == {s[0]} + (set x | x in s[1..]);
    } else {
      assert (set x | x in s) == {};
    }
  }

  lemma {:induction false} AscendingIsUnique<T(!new)>(items: seq<T>, id: T -> Id)
    requires AscendingBy(items, id)
    ensures UniqueIds(items, id) && Distinct(items)
  {
  }

  // ----- unique, ordered problems -----

  /** The problem behind those that do not come after it. */
  function Insert(p: CpgProblem, sorted: seq<CpgProblem>, rank: CpgProblem -> nat): seq<CpgProblem> {
    if sorted == [] || rank(p) < rank(sorted[|sorted| - 1]) then
      if sorted == [] then [p] else Insert(p, sorted[..|sorted| - 1], rank) + [sorted[|sorted| - 1]]
    else sorted + [p]
  }

  /** The distinct problems in the order of their keys, those of one key as they came. `rank` is
      the place of a problem's key among all keys. */
  function SortedProblems(problems: seq<CpgProblem>, rank: CpgProblem -> nat): seq<CpgProblem> {
    if problems == [] then []
    else
      var before, p := SortedProblems(problems[..|problems| - 1], rank), problems[|problems| - 1];
      if p in problems[..|problems| - 1] then before else Insert(p, before, rank)
  }

  ghost predicate InRank(ps: seq<CpgProblem>, rank: CpgProblem -> nat) {
    forall i, j :: 0 <= i < j < |ps| ==> rank(ps[i]) <= rank(ps[j])
  }

  lemma {:induction false} InsertHolds(p: CpgProblem, sorted: seq<CpgProblem>, rank: CpgProblem -> nat)
    requires InRank(sorted, rank) && Distinct(sorted) && p !in sorted
    ensures InRank(Insert(p, sorted, rank), rank) && Distinct(Insert(p, sorted, rank))
    ensures forall x :: x in Insert(p, sorted, rank) <==> x in sorted || x == p
  {
    if sorted != [] && rank(p) < rank(sorted[|sorted| - 1]) {
      var init, last := sorted[..|sorted| - 1], sorted[|sorted| - 1];
      InsertHolds(p, init, rank);
      var r := Insert(p, init, rank);
      assert sorted == init + [last];
      forall i | 0 <= i < |r|
        ensures rank(r[i]) <= rank(last) && r[i] != last
      {
        assert r[i] in r;
      }
    }
  }

  /** Sorting keeps each problem once and adds none. */
  lemma {:induction false} ProblemsHold(problems: seq<CpgProblem>, rank: CpgProblem -> nat)
    ensures InRank(SortedProblems(problems, rank), rank) && Distinct(SortedProblems(problems, rank))
    ensures forall p :: p in SortedProblems(problems, rank) <==> p in problems
  {
    if problems != [] {
      var init, last := problems[..|problems| - 1], problems[|problems| - 1];
      ProblemsHold(init, rank);
      assert problems == init + [last];
      if last !in init {
        InsertHolds(last, SortedProblems(init, rank), rank);
      }
    }
  }

  /** Problems that are distinct and in order stay as they are. */
  lemma {:induction false} ProblemsStay(problems: seq<CpgProblem>, rank: CpgProblem -> nat)
    requires InRank(problems, rank) && Distinct(problems)
    ensures SortedProblems(problems, rank) == problems
  {
    if problems != [] {
      var init, last := problems[..|problems| - 1], problems[|problems| - 1];
      ProblemsStay(init, rank);
      assert last !in init;
      assert problems == init + [last];
    }
  }

  /** The edges whose two ends are among `ids`. */
  function Within(edges: seq<CpgEdge>, ids: set<Id>): seq<CpgEdge> {
    if edges == [] then []
    else (if edges[0].source in ids && edges[0].target in ids then [edges[0]] else []) + Within(edges[1..], ids)
  }

  lemma {:induction false} WithinHolds(edges: seq<CpgEdge>, ids: set<Id>)
    requires AscendingBy(edges, EdgeId)
    ensures forall e :: e in Within(edges, ids) <==> e in edges && e.source in ids && e.target in ids
    ensures AscendingBy(Within(edges, ids), EdgeId)
    ensures |Within(edges, ids)| <= |edges|
  {
    if edges != [] {
      WithinHolds(edges[1..], ids);
      assert edges == [edges[0]] + edges[1..];
      var rest := Within(edges[1..], ids);
      forall i | 0 <= i < |rest|
        ensures edges[0].id < rest[i].id
      {
        assert rest[i] in edges[1..];
      }
    }
  }

  // ----- creation -----

  /** The subgraph that overflow leaves: the first nodes, the root among them, and then edges. */
  ghost predicate Bounded(r: CpgSubgraph, nodes: seq<CpgNode>, edges: seq<CpgEdge>, limit: nat)
    requires limit >= 1
  {
    && |r.nodes| + |r.edges| <= limit
    && (|nodes| + |edges| <= limit ==>
          && r.nodes == nodes
          && forall e :: e in r.edges <==> e in edges && HasId(nodes, NodeId, e.source) && HasId(nodes, NodeId, e.target))
    && (|nodes| <= limit < |nodes| + |edges| ==>
          && r.nodes == nodes
          && forall e :: e in r.edges <==>
               e in edges[..limit - |nodes|] && HasId(nodes, NodeId, e.source) && HasId(nodes, NodeId, e.target))
    && (|nodes| > limit ==>
          r.edges == [] && IsFirst(nodes, r.root, limit, r.nodes))
  }

  method Create(graph: Graph, root: Id, nodes: seq<CpgNode>, edges: seq<CpgEdge>, problems: seq<CpgProblem>,
                truncated: bool, unresolved: int, recordLimit: int, rank: CpgProblem -> nat) returns (r: CpgSubgraph)
    ensures WellFormed(r) && r.root == root && r.graph == graph
    ensures Bounded(r, Sorted(nodes, NodeId), Sorted(edges, EdgeId), if recordLimit < 1 then 1 else recordLimit)
    ensures HasId(nodes, NodeId, root) ==> HasId(r.nodes, NodeId, root)
    ensures r.truncated == (truncated || |Sorted(nodes, NodeId)| + |Sorted(edges, EdgeId)| > if recordLimit < 1 then 1 else recordLimit)
    ensures r.unresolved == if unresolved < 0 then 0 else unresolved
    ensures InRank(r.problems, rank) && Distinct(r.problems) && forall p :: p in r.problems <==> p in problems
    ensures InRank(problems, rank) && Distinct(problems) ==> r.problems == problems
  {
    var limit := if recordLimit < 1 then 1 else recordLimit;
    SortedHolds(nodes, NodeId);
    SortedHolds(edges, EdgeId);
    var orderedNodes, orderedEdges := Trim(Sorted(nodes, NodeId), Sorted(edges, EdgeId), root, limit);
    var overflow := |Sorted(nodes, NodeId)| + |Sorted(edges, EdgeId)| > limit;
    var retained := set n | n in orderedNodes :: n.id;
    var unresolvedCount := if unresolved < 0 then 0 else unresolved;
    r := CpgSubgraph(graph, root, orderedNodes, Within(orderedEdges, retained), SortedProblems(problems, rank),
                     truncated || overflow, unresolvedCount);
    ProblemsHold(problems, rank);
    if InRank(problems, rank) && Distinct(problems) {
      ProblemsStay(problems, rank);
    }
    Fitted(r, Sorted(nodes, NodeId), Sorted(edges, EdgeId), orderedEdges, retained, limit);
  }

  /** What overflow leaves of the records. */
  ghost predicate Trimmed(nodes: seq<CpgNode>, edges: seq<CpgEdge>, root: Id, limit: nat, n: seq<CpgNode>, e: seq<CpgEdge>) {
    if |nodes| + |edges| <= limit then n == nodes && e == edges
    else if |nodes| <= limit then n == nodes && e == edges[..limit - |nodes|]
    else e == [] && IsFirst(nodes, root, limit, n)
  }

  ghost predicate IsFirst(nodes: seq<CpgNode>, root: Id, limit: nat, n: seq<CpgNode>) {
    && 1 <= limit < |nodes| && |n| == limit && nodes[..limit - 1] <= n && n[limit - 1] in nodes
    && (n[limit - 1] == nodes[limit - 1] || n[limit - 1].id == root)
  }

  method Trim(nodes: seq<CpgNode>, edges: seq<CpgEdge>, root: Id, limit: nat) returns (n: seq<CpgNode>, e: seq<CpgEdge>)
    requires AscendingBy(nodes, NodeId) && AscendingBy(edges, EdgeId) && limit >= 1
    ensures Trimmed(nodes, edges, root, limit, n, e) && AscendingBy(n, NodeId) && AscendingBy(e, EdgeId)
    ensures HasId(nodes, NodeId, root) ==> HasId(n, NodeId, root)
  {
    n, e := nodes, edges;
    if |nodes| + |edges| > limit {
      if |nodes| > limit {
        n := FirstNodes(nodes, root, limit);
        e := [];
      } else {
        var remaining := limit - |nodes|;
        e := edges[..remaining];
      }
    }
  }

  lemma {:induction false} Fitted(r: CpgSubgraph, nodes: seq<CpgNode>, edges: seq<CpgEdge>, e: seq<CpgEdge>, retained: set<Id>, limit: nat)
    requires limit >= 1 && Trimmed(nodes, edges, r.root, limit, r.nodes, e) && AscendingBy(r.nodes, NodeId) && AscendingBy(e, EdgeId)
    requires retained == (set n | n in r.nodes :: n.id) && r.edges == Within(e, retained)
    ensures WellFormed(r) && Bounded(r, nodes, edges, limit)
  {
    WithinHolds(e, retained);
    assert forall k :: k in retained <==> HasId(r.nodes, NodeId, k);
  }

  /** The first `limit` nodes, the last of them given up for the root if the root is missing. The root then
      comes after all of them, so no sorting is left to do. */
  method FirstNodes(nodes: seq<CpgNode>, root: Id, limit: nat) returns (r: seq<CpgNode>)
    requires AscendingBy(nodes, NodeId) && 1 <= limit < |nodes|
    ensures IsFirst(nodes, root, limit, r) && AscendingBy(r, NodeId)
    ensures HasId(nodes, NodeId, root) ==> HasId(r, NodeId, root)
  {
    r := nodes[..limit];
    if (exists n :: n in nodes && n.id == root) && forall n :: n in r ==> n.id != root {
      var n :| n in nodes && n.id == root;
      Replaced(nodes, n, limit);
      r := r[limit - 1 := n];
    } else if HasId(nodes, NodeId, root) {
      assert HasId(r, NodeId, root);
    }
  }

  lemma {:induction false} Replaced(nodes: seq<CpgNode>, n: CpgNode, limit: nat)
    requires AscendingBy(nodes, NodeId) && 1 <= limit < |nodes| && n in nodes && n !in nodes[..limit]
    ensures AscendingBy(nodes[..limit][limit - 1 := n], NodeId)
    ensures HasId(nodes[..limit][limit - 1 := n], NodeId, n.id)
  {
    var r := nodes[..limit][limit - 1 := n];
    var i :| 0 <= i < |nodes| && nodes[i] == n;
    assert forall k :: 0 <= k < limit ==> nodes[..limit][k] in nodes[..limit];
    assert i >= limit;
    assert r[limit - 1] == n && NodeId(n) == n.id;
    forall k, m | 0 <= k < m < |r|
      ensures NodeId(r[k]) < NodeId(r[m])
    {
      assert NodeId(nodes[k]) < NodeId(nodes[if m == limit - 1 then i else m]);
    }
  }
}
