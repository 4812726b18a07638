/** Selecting the part of a graph within a number of steps of a root: breadth-first search
    against the distance that walks define. */
module CpgSelection {
  import opened Wrappers
  import opened Sequences
  import opened CpgRecords

  datatype Direction = Out | In | Both

  /** The edge labels that a graph view keeps. */
  predicate Allowed(graph: Graph, tag: string) {
    match graph
    case Ast => tag == "AST" || tag == "CONTAINS"
    case Cfg => tag == "CFG"
    case Dfg => tag == "DEF" || tag == "USE" || tag == "REACHING_DEF"
    case Calls => tag == "CALL"
    case Full => true
  }

  /** The edges that may be walked, and in which direction. */
  datatype View = View(edges: seq<CpgEdge>, direction: Direction)

  predicate Crosses(e: CpgEdge, d: Direction, u: Id, v: Id) {
    (d != In && e.source == u && e.target == v) || (d != Out && e.target == u && e.source == v)
  }

  /** The edge can be walked from `u`. */
  predicate Leaves(e: CpgEdge, d: Direction, u: Id) {
    (d != In && e.source == u) || (d != Out && e.target == u)
  }

  ghost predicate Linked(view: View, u: Id, v: Id) {
    exists e :: e in view.edges && Crosses(e, view.direction, u, v)
  }

  // ----- distance -----

  ghost predicate IsWalk(view: View, p: seq<Id>) {
    p != [] && forall i, j :: 0 <= i && j == i + 1 < |p| ==> Linked(view, p[i], p[j])
  }

  /** Some walk of at most `k` steps leads from the root to `v`. */
  ghost predicate Within(view: View, root: Id, v: Id, k: nat) {
    exists p :: IsWalk(view, p) && p[0] == root && p[|p| - 1] == v && |p| <= k + 1
  }

  /** The same, step by step. */
  ghost predicate Near(view: View, root: Id, v: Id, k: nat)
    decreases k
  {
    if k == 0 then v == root
    else Near(view, root, v, k - 1) || exists u :: Near(view, root, u, k - 1) && Linked(view, u, v)
  }

  lemma {:induction false} NearIsWithin(view: View, root: Id, v: Id, k: nat)
    ensures Near(view, root, v, k) <==> Within(view, root, v, k)
  {
    if Near(view, root, v, k) {
      NearHasWalk(view, root, v, k);
    }
    if Within(view, root, v, k) {
      var p :| IsWalk(view, p) && p[0] == root && p[|p| - 1] == v && |p| <= k + 1;
      WalkIsNear(view, p);
      NearGrows(view, root, v, |p| - 1, k);
    }
  }

  lemma {:induction false} NearHasWalk(view: View, root: Id, v: Id, k: nat)
    requires Near(view, root, v, k)
    ensures Within(view, root, v, k)
    decreases k
  {
    if v == root {
      assert IsWalk(view, [root]) && [root][0] == root && [root][|[root]| - 1] == v;
    } else if Near(view, root, v, k - 1) {
      NearHasWalk(view, root, v, k - 1);
      var p :| IsWalk(view, p) && p[0] == root && p[|p| - 1] == v && |p| <= k;
      assert |p| <= k + 1;
    } else {
      var u :| Near(view, root, u, k - 1) && Linked(view, u, v);
      NearHasWalk(view, root, u, k - 1);
      var p :| IsWalk(view, p) && p[0] == root && p[|p| - 1] == u && |p| <= k;
      var q := p + [v];
      assert IsWalk(view, q) && q[0] == root && q[|q| - 1] == v && |q| <= k + 1;
    }
  }

  lemma {:induction false} WalkIsNear(view: View, p: seq<Id>)
    requires IsWalk(view, p)
    ensures Near(view, p[0], p[|p| - 1], |p| - 1)
  {
    if |p| > 1 {
      var q := p[..|p| - 1];
      WalkIsNear(view, q);
      assert Linked(view, p[|p| - 2], p[|p| - 1]);
    }
  }

  lemma {:induction false} NearGrows(view: View, root: Id, v: Id, k: nat, m: nat)
    requires Near(view, root, v, k) && k <= m
    ensures Near(view, root, v, m)
    decreases m - k
  {
    if k < m {
      NearGrows(view, root, v, k + 1, m);
    }
  }

  // ----- adjacency -----

  function WithSource(edges: seq<CpgEdge>, u: Id): seq<CpgEdge> {
    if edges == [] then []
    else WithSource(edges[..|edges| - 1], u) + if edges[|edges| - 1].source == u then [edges[|edges| - 1]] else []
  }

  function WithTarget(edges: seq<CpgEdge>, u: Id): seq<CpgEdge> {
    if edges == [] then []
    else WithTarget(edges[..|edges| - 1], u) + if edges[|edges| - 1].target == u then [edges[|edges| - 1]] else []
  }

  lemma {:induction false} WithHolds(edges: seq<CpgEdge>, u: Id)
    ensures forall e :: e in WithSource(edges, u) <==> e in edges && e.source == u
    ensures forall e :: e in WithTarget(edges, u) <==> e in edges && e.target == u
  {
    if edges != [] {
      WithHolds(edges[..|edges| - 1], u);
      assert edges == edges[..|edges| - 1] + [edges[|edges| - 1]];
    }
  }

  function At(m: map<Id, seq<CpgEdge>>, u: Id): seq<CpgEdge> {
    if u in m then m[u] else []
  }

  /** The candidate edges grouped by their source and by their target. */
  method Index(edges: seq<CpgEdge>) returns (outgoing: map<Id, seq<CpgEdge>>, incoming: map<Id, seq<CpgEdge>>)
    ensures forall u :: At(outgoing, u) == WithSource(edges, u) && At(incoming, u) == WithTarget(edges, u)
  {
    outgoing, incoming := map[], map[];
    for k := 0 to |edges|
      invariant forall u :: At(outgoing, u) == WithSource(edges[..k], u) && At(incoming, u) == WithTarget(edges[..k], u)
    {
      var edge := edges[k];
      assert edges[..k + 1][..k] == edges[..k] && edges[..k + 1][k] == edge;
      outgoing := outgoing[edge.source := At(outgoing, edge.source) + [edge]];
      incoming := incoming[edge.target := At(incoming, edge.target) + [edge]];
    }
    assert edges[..|edges|] == edges;
  }

  /** Exactly the edges that can be walked from `u`, each with its far end. */
  ghost predicate ListsAdjacent(view: View, u: Id, adjacent: seq<(CpgEdge, Id)>) {
    forall e: CpgEdge, v: Id :: (e, v) in adjacent <==> e in view.edges && Crosses(e, view.direction, u, v)
  }

  /** The edges to walk from `u`, with the ends they lead to. */
  method Adjacent(outgoing: map<Id, seq<CpgEdge>>, incoming: map<Id, seq<CpgEdge>>, view: View, u: Id)
    returns (adjacent: seq<(CpgEdge, Id)>)
    requires At(outgoing, u) == WithSource(view.edges, u) && At(incoming, u) == WithTarget(view.edges, u)
    ensures ListsAdjacent(view, u, adjacent)
  {
    WithHolds(view.edges, u);
    var forth, back: seq<(CpgEdge, Id)> := [], [];
    if view.direction != In {
      forth := Paired(At(outgoing, u), true);
      PairedHolds(At(outgoing, u), true);
    }
    if view.direction != Out {
      back := Paired(At(incoming, u), false);
      PairedHolds(At(incoming, u), false);
    }
    adjacent := forth + back;
  }

  /** The edges with the end that walking them forth or back leads to. */
  function Paired(edges: seq<CpgEdge>, forth: bool): seq<(CpgEdge, Id)> {
    if edges == [] then []
    else [(edges[0], if forth then edges[0].target else edges[0].source)] + Paired(edges[1..], forth)
  }

  lemma {:induction false} PairedHolds(edges: seq<CpgEdge>, forth: bool)
    ensures forall e: CpgEdge, v: Id :: (e, v) in Paired(edges, forth) <==> e in edges && v == if forth then e.target else e.source
  {
    if edges != [] {
      PairedHolds(edges[1..], forth);
      assert edges == [edges[0]] + edges[1..];
    }
  }

  // ----- the search -----

  /** The nodes in the order of their discovery with their distances; `done` of them are expanded. */
  datatype Search = Search(order: seq<Id>, dist: map<Id, nat>, done: nat)

  ghost predicate Queued(s: Search) {
    && s.done <= |s.order|
    && Distinct(s.order)
    && (forall v :: v in s.dist <==> v in s.order)
    && (forall i, j :: 0 <= i < j < |s.order| ==> s.dist[s.order[i]] <= s.dist[s.order[j]])
    && (s.done < |s.order| ==> forall j :: 0 <= j < |s.order| ==> s.dist[s.order[j]] <= s.dist[s.order[s.done]] + 1)
  }

  /** The queue of the source: the discovered nodes that are not expanded, with their distances. */
  ghost predicate IsFrontier(s: Search, frontier: seq<(Id, nat)>)
    requires Queued(s)
  {
    && |frontier| == |s.order| - s.done
    && forall i :: 0 <= i < |frontier| ==> frontier[i] == (s.order[s.done + i], s.dist[s.order[s.done + i]])
  }

  ghost predicate Sound(view: View, root: Id, bound: nat, s: Search) {
    && root in s.dist && s.dist[root] == 0
    && forall v :: v in s.dist ==> s.dist[v] <= bound && Near(view, root, v, s.dist[v])
  }

  ghost predicate Follows(view: View, s: Search, u: Id)
    requires u in s.dist
  {
    forall v: Id :: Linked(view, u, v) ==> v in s.dist && s.dist[v] <= s.dist[u] + 1
  }

  /** The first `done` nodes that are near enough have all their neighbours discovered. */
  ghost predicate Expanded(view: View, bound: nat, s: Search)
    requires Queued(s)
  {
    forall i :: 0 <= i < s.done && s.dist[s.order[i]] < bound ==> Follows(view, s, s.order[i])
  }

  /** The edge leaves one of the first `done` nodes that are near enough. */
  ghost predicate Left(view: View, bound: nat, s: Search, e: CpgEdge)
    requires Queued(s)
  {
    exists i :: 0 <= i < s.done && s.dist[s.order[i]] < bound && Leaves(e, view.direction, s.order[i])
  }

  /** The chosen edges are those that leave an expanded node, and `more`. */
  ghost predicate Chose(view: View, bound: nat, s: Search, chosen: map<Id, CpgEdge>, more: set<CpgEdge>)
    requires Queued(s)
  {
    && (forall k :: k in chosen ==> chosen[k] in view.edges && chosen[k].id == k)
    && forall e :: e in view.edges ==> (e.id in chosen <==> Left(view, bound, s, e) || e in more)
  }

  lemma {:induction false} Starts(view: View, root: Id, bound: nat)
    ensures var s := Search([root], map[root := 0], 0);
            Queued(s) && IsFrontier(s, [(root, 0)]) && Sound(view, root, bound, s) && Expanded(view, bound, s)
            && Chose(view, bound, s, map[], {})
  {
  }

  /** The state once `v` is discovered from the head of the queue. */
  ghost function Grown(s: Search, v: Id): Search
    requires Queued(s) && s.done < |s.order|
  {
    Search(s.order + [v], s.dist[v := s.dist[s.order[s.done]] + 1], s.done)
  }

  lemma {:induction false} GrownAgrees(s: Search, v: Id)
    requires Queued(s) && s.done < |s.order| && v !in s.dist
    ensures |Grown(s, v).order| == |s.order| + 1 && Grown(s, v).order[|s.order|] == v
    ensures var t := Grown(s, v);
            forall i :: 0 <= i < |s.order| ==> t.order[i] == s.order[i] && s.order[i] in s.dist && t.dist[s.order[i]] == s.dist[s.order[i]]
  {
  }

  lemma {:induction false} GrownListed(s: Search, v: Id)
    requires Queued(s) && s.done < |s.order| && v !in s.dist
    ensures Distinct(Grown(s, v).order)
    ensures forall u :: u in Grown(s, v).dist <==> u in Grown(s, v).order
  {
    assert v !in s.order;
  }

  lemma {:induction false} GrownLevelled(s: Search, v: Id, i: nat, j: nat)
    requires Queued(s) && s.done < |s.order| && v !in s.dist && i <= j <= |s.order|
    ensures var t := Grown(s, v); t.order[i] in t.dist && t.order[j] in t.dist && t.dist[t.order[i]] <= t.dist[t.order[j]] <= s.dist[s.order[s.done]] + 1
  {
    var t := Grown(s, v);
    assert t.order[i] == if i < |s.order| then s.order[i] else v;
    assert t.order[j] == if j < |s.order| then s.order[j] else v;
    assert i < |s.order| ==> s.order[i] in s.dist;
    assert j < |s.order| ==> s.order[j] in s.dist;
  }

  lemma {:induction false} GrownQueued(s: Search, v: Id)
    requires Queued(s) && s.done < |s.order| && v !in s.dist
    ensures Queued(Grown(s, v))
  {
    var t := Grown(s, v);
    GrownListed(s, v);
    forall i, j | 0 <= i < j < |t.order|
      ensures t.dist[t.order[i]] <= t.dist[t.order[j]]
    {
      GrownLevelled(s, v, i, j);
    }
    GrownAgrees(s, v);
    forall j | 0 <= j < |t.order|
      ensures t.dist[t.order[j]] <= t.dist[t.order[t.done]] + 1
    {
      GrownLevelled(s, v, j, j);
    }
  }

  lemma {:induction false} GrownLeft(view: View, bound: nat, s: Search, v: Id, e: CpgEdge)
    requires Queued(s) && s.done < |s.order| && v !in s.dist && Queued(Grown(s, v))
    ensures Left(view, bound, Grown(s, v), e) <==> Left(view, bound, s, e)
  {
    GrownAgrees(s, v);
    var t := Grown(s, v);
    assert forall i :: 0 <= i < s.done ==> t.order[i] == s.order[i] && t.dist[t.order[i]] == s.dist[s.order[i]];
  }

  lemma {:induction false} GrownExpanded(view: View, bound: nat, s: Search, v: Id)
    requires Queued(s) && s.done < |s.order| && v !in s.dist && Queued(Grown(s, v))
    requires Expanded(view, bound, s)
    ensures Expanded(view, bound, Grown(s, v))
  {
    var t := Grown(s, v);
    GrownAgrees(s, v);
    forall i | 0 <= i < t.done && t.dist[t.order[i]] < bound
      ensures Follows(view, t, t.order[i])
    {
      assert Follows(view, s, s.order[i]);
    }
  }

  /** A neighbour of the node at the head that is not known yet joins the queue. */
  lemma {:induction false} Discovers(view: View, root: Id, bound: nat, s: Search, e: CpgEdge, v: Id)
    requires Queued(s) && Sound(view, root, bound, s) && Expanded(view, bound, s)
    requires s.done < |s.order| && s.dist[s.order[s.done]] < bound
    requires e in view.edges && Crosses(e, view.direction, s.order[s.done], v) && v !in s.dist
    ensures Queued(Grown(s, v)) && Sound(view, root, bound, Grown(s, v)) && Expanded(view, bound, Grown(s, v))
    ensures forall f :: Left(view, bound, Grown(s, v), f) <==> Left(view, bound, s, f)
  {
    GrownQueued(s, v);
    GrownExpanded(view, bound, s, v);
    assert Linked(view, s.order[s.done], v);
    assert Near(view, root, v, s.dist[s.order[s.done]] + 1);
    forall f
      ensures Left(view, bound, Grown(s, v), f) <==> Left(view, bound, s, f)
    {
      GrownLeft(view, bound, s, v, f);
    }
  }

  ghost function Next(s: Search): Search {
    s.(done := s.done + 1)
  }

  lemma {:induction false} NextQueued(s: Search)
    requires Queued(s) && s.done < |s.order|
    ensures Queued(Next(s))
  {
  }

  lemma {:induction false} NextLeftBack(view: View, bound: nat, s: Search, e: CpgEdge)
    requires Queued(s) && s.done < |s.order| && Queued(Next(s)) && Left(view, bound, Next(s), e)
    ensures Left(view, bound, s, e) || (s.dist[s.order[s.done]] < bound && Leaves(e, view.direction, s.order[s.done]))
  {
    var t := Next(s);
    var i :| 0 <= i < t.done && t.dist[t.order[i]] < bound && Leaves(e, view.direction, t.order[i]);
    assert Leaves(e, view.direction, s.order[i]);
  }

  lemma {:induction false} NextLeft(view: View, bound: nat, s: Search, e: CpgEdge)
    requires Queued(s) && s.done < |s.order| && Queued(Next(s))
    ensures Left(view, bound, Next(s), e)
            <==> Left(view, bound, s, e) || (s.dist[s.order[s.done]] < bound && Leaves(e, view.direction, s.order[s.done]))
  {
    if Left(view, bound, Next(s), e) {
      NextLeftBack(view, bound, s, e);
    }
    if s.dist[s.order[s.done]] < bound && Leaves(e, view.direction, s.order[s.done]) {
      assert Leaves(e, view.direction, Next(s).order[s.done]);
    } else if Left(view, bound, s, e) {
      var i :| 0 <= i < s.done && s.dist[s.order[i]] < bound && Leaves(e, view.direction, s.order[i]);
      assert Leaves(e, view.direction, Next(s).order[i]);
    }
  }

  /** The head of the queue is expanded once all its neighbours are known. */
  lemma {:induction false} NextExpanded(view: View, bound: nat, s: Search)
    requires Queued(s) && Expanded(view, bound, s) && s.done < |s.order| && Queued(Next(s))
    requires s.dist[s.order[s.done]] < bound ==> Follows(view, s, s.order[s.done])
    ensures Expanded(view, bound, Next(s))
  {
    var t := Next(s);
    forall i | 0 <= i < t.done && t.dist[t.order[i]] < bound
      ensures Follows(view, t, t.order[i])
    {
      assert s.order[i] in s.dist && Follows(view, s, s.order[i]);
    }
  }

  lemma {:induction false} NextChose(view: View, bound: nat, s: Search, chosen: map<Id, CpgEdge>, more: set<CpgEdge>)
    requires Queued(s) && s.done < |s.order| && Queued(Next(s)) && Chose(view, bound, s, chosen, more)
    requires forall e :: e in view.edges ==> (e in more <==> s.dist[s.order[s.done]] < bound && Leaves(e, view.direction, s.order[s.done]))
    ensures Chose(view, bound, Next(s), chosen, {})
  {
    forall e | e in view.edges
      ensures Left(view, bound, Next(s), e) <==> Left(view, bound, s, e) || e in more
    {
      NextLeft(view, bound, s, e);
    }
  }

  /** Everything near enough has been found at its distance. */
  lemma {:induction false} FindsNear(view: View, root: Id, bound: nat, s: Search, v: Id, k: nat)
    requires Queued(s) && Sound(view, root, bound, s) && Expanded(view, bound, s) && s.done == |s.order|
    requires k <= bound && Near(view, root, v, k)
    ensures v in s.dist && s.dist[v] <= k
    decreases k
  {
    if k > 0 && Near(view, root, v, k - 1) {
      FindsNear(view, root, bound, s, v, k - 1);
    } else if k > 0 {
      var u :| Near(view, root, u, k - 1) && Linked(view, u, v);
      FindsNear(view, root, bound, s, u, k - 1);
      var i :| 0 <= i < |s.order| && s.order[i] == u;
      assert Follows(view, s, s.order[i]);
    }
  }

  /** A node from which a walk may go on: it is nearer than the bound. */
  ghost predicate Inner(view: View, root: Id, bound: nat, u: Id) {
    bound > 0 && Near(view, root, u, bound - 1)
  }

  ghost predicate Crossed(view: View, root: Id, bound: nat, e: CpgEdge) {
    exists u :: Inner(view, root, bound, u) && Leaves(e, view.direction, u)
  }

  lemma {:induction false} FindsAll(view: View, root: Id, bound: nat, s: Search, v: Id)
    requires Queued(s) && Sound(view, root, bound, s) && Expanded(view, bound, s) && s.done == |s.order|
    ensures v in s.dist <==> Near(view, root, v, bound)
    ensures v in s.dist && s.dist[v] < bound <==> Inner(view, root, bound, v)
  {
    if v in s.dist {
      NearGrows(view, root, v, s.dist[v], bound);
      if s.dist[v] < bound {
        NearGrows(view, root, v, s.dist[v], bound - 1);
      }
    }
    if Near(view, root, v, bound) {
      FindsNear(view, root, bound, s, v, bound);
    }
    if Inner(view, root, bound, v) {
      FindsNear(view, root, bound, s, v, bound - 1);
    }
  }

  lemma {:induction false} LeftIsCrossed(view: View, root: Id, bound: nat, s: Search, e: CpgEdge)
    requires Queued(s) && Sound(view, root, bound, s) && Expanded(view, bound, s) && s.done == |s.order|
    ensures Left(view, bound, s, e) <==> Crossed(view, root, bound, e)
  {
    if Crossed(view, root, bound, e) {
      var u :| Inner(view, root, bound, u) && Leaves(e, view.direction, u);
      FindsAll(view, root, bound, s, u);
      var i :| 0 <= i < |s.order| && s.order[i] == u;
      assert Leaves(e, view.direction, s.order[i]);
    }
    if Left(view, bound, s, e) {
      var i :| 0 <= i < s.done && s.dist[s.order[i]] < bound && Leaves(e, view.direction, s.order[i]);
      FindsAll(view, root, bound, s, s.order[i]);
    }
  }

  lemma {:induction false} Finds(view: View, root: Id, bound: nat, s: Search, chosen: map<Id, CpgEdge>)
    requires Queued(s) && Sound(view, root, bound, s) && Expanded(view, bound, s) && s.done == |s.order|
    requires Chose(view, bound, s, chosen, {})
    ensures forall v :: v in s.dist <==> Near(view, root, v, bound)
    ensures forall e :: e in view.edges ==> (e.id in chosen <==> Crossed(view, root, bound, e))
  {
    forall v
      ensures v in s.dist <==> Near(view, root, v, bound)
    {
      FindsAll(view, root, bound, s, v);
    }
    forall e | e in view.edges
      ensures e.id in chosen <==> Crossed(view, root, bound, e)
    {
      LeftIsCrossed(view, root, bound, s, e);
    }
  }

  // ----- termination -----

  ghost function Universe(view: View, root: Id): set<Id> {
    {root} + (set e | e in view.edges :: e.source) + (set e | e in view.edges :: e.target)
  }

  ghost predicate Placed(view: View, root: Id, s: Search) {
    forall i :: 0 <= i < |s.order| ==> s.order[i] in Universe(view, root)
  }

  lemma {:induction false} QueueBound(view: View, root: Id, s: Search)
    requires Queued(s) && Placed(view, root, s)
    ensures |s.order| <= |Universe(view, root)|
  {
    DistinctBound(s.order, Universe(view, root));
  }

  // ----- the loop -----

  /** The state between two nodes of the queue. */
  ghost predicate Between(view: View, root: Id, bound: nat, s: Search, frontier: seq<(Id, nat)>, reached: set<Id>,
                          chosen: map<Id, CpgEdge>)
  {
    && Queued(s) && Sound(view, root, bound, s) && Expanded(view, bound, s) && Placed(view, root, s)
    && IsFrontier(s, frontier) && (forall v :: v in reached <==> v in s.dist)
    && Chose(view, bound, s, chosen, {})
  }

  ghost function Edges(adjacent: seq<(CpgEdge, Id)>): set<CpgEdge> {
    set a | a in adjacent :: a.0
  }

  /** The node that is being expanded, with its distance. */
  ghost predicate IsHead(s: Search, head: (Id, nat)) {
    s.done < |s.order| && s.order[s.done] == head.0 && head.0 in s.dist && s.dist[head.0] == head.1
  }

  /** The edges lead from `u` to the neighbours beside them. */
  ghost predicate AllCross(view: View, u: Id, adjacent: seq<(CpgEdge, Id)>) {
    forall i :: 0 <= i < |adjacent| ==> adjacent[i].0 in view.edges && Crosses(adjacent[i].0, view.direction, u, adjacent[i].1)
  }

  /** The first `j` neighbours are known, no further than `far`. */
  ghost predicate AllKnown(s: Search, adjacent: seq<(CpgEdge, Id)>, j: nat, far: nat) {
    j <= |adjacent| && forall i :: 0 <= i < j ==> adjacent[i].1 in s.dist && s.dist[adjacent[i].1] <= far
  }

  /** The state within the neighbours of the node at the head of the queue, `j` of them behind. */
  ghost predicate Amid(view: View, root: Id, bound: nat, s: Search, head: (Id, nat), frontier: seq<(Id, nat)>, reached: set<Id>,
                       chosen: map<Id, CpgEdge>, adjacent: seq<(CpgEdge, Id)>, j: nat)
  {
    && Queued(s) && Sound(view, root, bound, s) && Expanded(view, bound, s) && Placed(view, root, s)
    && IsHead(s, head) && head.1 < bound
    && IsFrontier(s, [head] + frontier)
    && (forall v :: v in reached <==> v in s.dist)
    && AllCross(view, head.0, adjacent) && AllKnown(s, adjacent, j, head.1 + 1)
    && Chose(view, bound, s, chosen, Edges(adjacent[..j]))
  }

  lemma {:induction false} KnownNear(s: Search, v: Id)
    requires Queued(s) && s.done < |s.order| && v in s.dist
    ensures s.dist[v] <= s.dist[s.order[s.done]] + 1
  {
    var i :| 0 <= i < |s.order| && s.order[i] == v;
  }

  lemma {:induction false} ChoseMore(view: View, bound: nat, s: Search, chosen: map<Id, CpgEdge>, adjacent: seq<(CpgEdge, Id)>, j: nat)
    requires Queued(s) && UniqueIds(view.edges, EdgeId) && j < |adjacent| && adjacent[j].0 in view.edges
    requires Chose(view, bound, s, chosen, Edges(adjacent[..j]))
    ensures Chose(view, bound, s, chosen[adjacent[j].0.id := adjacent[j].0], Edges(adjacent[..j + 1]))
  {
    var e := adjacent[j].0;
    assert adjacent[..j + 1] == adjacent[..j] + [adjacent[j]];
    assert forall f :: f in Edges(adjacent[..j + 1]) <==> f in Edges(adjacent[..j]) || f == e;
    forall f | f in view.edges
      ensures f.id in chosen[e.id := e] <==> Left(view, bound, s, f) || f in Edges(adjacent[..j + 1])
    {
      assert EdgeId(f) == EdgeId(e) ==> f == e;
    }
  }

  lemma {:induction false} ChoseGrown(view: View, bound: nat, s: Search, v: Id, chosen: map<Id, CpgEdge>, more: set<CpgEdge>)
    requires Queued(s) && s.done < |s.order| && v !in s.dist && Queued(Grown(s, v))
    requires Chose(view, bound, s, chosen, more)
    requires forall f :: Left(view, bound, Grown(s, v), f) <==> Left(view, bound, s, f)
    ensures Chose(view, bound, Grown(s, v), chosen, more)
  {
  }

  lemma {:induction false} GrownFrontier(s: Search, v: Id, frontier: seq<(Id, nat)>)
    requires Queued(s) && s.done < |s.order| && v !in s.dist && Queued(Grown(s, v))
    requires IsFrontier(s, frontier)
    ensures IsFrontier(Grown(s, v), frontier + [(v, s.dist[s.order[s.done]] + 1)])
  {
    GrownAgrees(s, v);
  }

  /** One neighbour that is known already. */
  lemma {:induction false} PassKnown(view: View, root: Id, bound: nat, s: Search, head: (Id, nat), frontier: seq<(Id, nat)>, reached: set<Id>,
                                     chosen: map<Id, CpgEdge>, adjacent: seq<(CpgEdge, Id)>, j: nat)
    requires Amid(view, root, bound, s, head, frontier, reached, chosen, adjacent, j) && j < |adjacent|
    requires UniqueIds(view.edges, EdgeId) && adjacent[j].1 in reached
    ensures Amid(view, root, bound, s, head, frontier, reached, chosen[adjacent[j].0.id := adjacent[j].0], adjacent, j + 1)
  {
    ChoseMore(view, bound, s, chosen, adjacent, j);
    KnownNear(s, adjacent[j].1);
  }

  /** One neighbour that is new. */
  lemma {:induction false} PassNew(view: View, root: Id, bound: nat, s: Search, head: (Id, nat), frontier: seq<(Id, nat)>, reached: set<Id>,
                                   chosen: map<Id, CpgEdge>, adjacent: seq<(CpgEdge, Id)>, j: nat)
    requires Amid(view, root, bound, s, head, frontier, reached, chosen, adjacent, j) && j < |adjacent|
    requires UniqueIds(view.edges, EdgeId) && adjacent[j].1 !in reached
    ensures Amid(view, root, bound, Grown(s, adjacent[j].1), head, frontier + [(adjacent[j].1, head.1 + 1)],
                 reached + {adjacent[j].1}, chosen[adjacent[j].0.id := adjacent[j].0], adjacent, j + 1)
  {
    var e, v := adjacent[j].0, adjacent[j].1;
    Discovers(view, root, bound, s, e, v);
    ChosePast(view, bound, s, v, chosen, adjacent, j);
    GrownQueue(s, head, v, frontier);
    GrownPlaced(view, root, s, e, v);
    GrownNear(s, head, adjacent, j);
    GrownHead(s, head, v);
    assert forall u :: u in reached + {v} <==> u in Grown(s, v).dist;
  }

  lemma {:induction false} GrownHead(s: Search, head: (Id, nat), v: Id)
    requires Queued(s) && IsHead(s, head) && v !in s.dist
    ensures IsHead(Grown(s, v), head)
  {
    GrownAgrees(s, v);
  }

  lemma {:induction false} ChosePast(view: View, bound: nat, s: Search, v: Id, chosen: map<Id, CpgEdge>, adjacent: seq<(CpgEdge, Id)>, j: nat)
    requires Queued(s) && s.done < |s.order| && v !in s.dist && Queued(Grown(s, v))
    requires UniqueIds(view.edges, EdgeId) && j < |adjacent| && adjacent[j].0 in view.edges
    requires Chose(view, bound, s, chosen, Edges(adjacent[..j]))
    requires forall f :: Left(view, bound, Grown(s, v), f) <==> Left(view, bound, s, f)
    ensures Chose(view, bound, Grown(s, v), chosen[adjacent[j].0.id := adjacent[j].0], Edges(adjacent[..j + 1]))
  {
    ChoseMore(view, bound, s, chosen, adjacent, j);
    ChoseGrown(view, bound, s, v, chosen[adjacent[j].0.id := adjacent[j].0], Edges(adjacent[..j + 1]));
  }

  lemma {:induction false} GrownQueue(s: Search, head: (Id, nat), v: Id, frontier: seq<(Id, nat)>)
    requires Queued(s) && IsHead(s, head) && v !in s.dist && Queued(Grown(s, v))
    requires IsFrontier(s, [head] + frontier)
    ensures IsFrontier(Grown(s, v), [head] + (frontier + [(v, head.1 + 1)]))
  {
    GrownFrontier(s, v, [head] + frontier);
    assert [head] + (frontier + [(v, head.1 + 1)]) == ([head] + frontier) + [(v, head.1 + 1)];
  }

  lemma {:induction false} GrownPlaced(view: View, root: Id, s: Search, e: CpgEdge, v: Id)
    requires Queued(s) && s.done < |s.order| && v !in s.dist && Placed(view, root, s)
    requires e in view.edges && Crosses(e, view.direction, s.order[s.done], v)
    ensures Placed(view, root, Grown(s, v))
  {
    GrownAgrees(s, v);
  }

  lemma {:induction false} GrownNear(s: Search, head: (Id, nat), adjacent: seq<(CpgEdge, Id)>, j: nat)
    requires Queued(s) && IsHead(s, head) && j < |adjacent| && adjacent[j].1 !in s.dist
    requires AllKnown(s, adjacent, j, head.1 + 1)
    ensures AllKnown(Grown(s, adjacent[j].1), adjacent, j + 1, head.1 + 1)
  {
  }

  /** All neighbours are behind. */
  lemma {:induction false} PassedAll(view: View, root: Id, bound: nat, s: Search, head: (Id, nat), frontier: seq<(Id, nat)>, reached: set<Id>,
                                     chosen: map<Id, CpgEdge>, adjacent: seq<(CpgEdge, Id)>)
    requires Amid(view, root, bound, s, head, frontier, reached, chosen, adjacent, |adjacent|)
    requires ListsAdjacent(view, head.0, adjacent)
    ensures Between(view, root, bound, Next(s), frontier, reached, chosen)
  {
    assert adjacent[..|adjacent|] == adjacent;
    NextQueued(s);
    AdjacentFollows(view, s, head, adjacent);
    NextExpanded(view, bound, s);
    AdjacentLeaves(view, head.0, adjacent);
    NextChose(view, bound, s, chosen, Edges(adjacent));
    NextFrontier(s, frontier);
  }

  lemma {:induction false} NextFrontier(s: Search, frontier: seq<(Id, nat)>)
    requires Queued(s) && s.done < |s.order| && Queued(Next(s))
    requires IsFrontier(s, [(s.order[s.done], s.dist[s.order[s.done]])] + frontier)
    ensures IsFrontier(Next(s), frontier)
  {
    var all := [(s.order[s.done], s.dist[s.order[s.done]])] + frontier;
    var t := Next(s);
    forall i | 0 <= i < |frontier|
      ensures frontier[i] == (t.order[t.done + i], t.dist[t.order[t.done + i]])
    {
      assert frontier[i] == all[i + 1];
    }
  }

  lemma {:induction false} AdjacentFollows(view: View, s: Search, head: (Id, nat), adjacent: seq<(CpgEdge, Id)>)
    requires IsHead(s, head) && AllKnown(s, adjacent, |adjacent|, head.1 + 1)
    requires ListsAdjacent(view, head.0, adjacent)
    ensures Follows(view, s, head.0)
  {
    forall v: Id | Linked(view, head.0, v)
      ensures v in s.dist && s.dist[v] <= head.1 + 1
    {
      var e :| e in view.edges && Crosses(e, view.direction, head.0, v);
      assert (e, v) in adjacent;
      var i :| 0 <= i < |adjacent| && adjacent[i] == (e, v);
      assert adjacent[i].1 in s.dist;
    }
  }

  lemma {:induction false} AdjacentLeaves(view: View, u: Id, adjacent: seq<(CpgEdge, Id)>)
    requires ListsAdjacent(view, u, adjacent)
    ensures forall e :: e in view.edges ==> (e in Edges(adjacent) <==> Leaves(e, view.direction, u))
  {
    forall e | e in view.edges
      ensures e in Edges(adjacent) <==> Leaves(e, view.direction, u)
    {
      if Leaves(e, view.direction, u) {
        assert (e, e.target) in adjacent || (e, e.source) in adjacent;
      }
      if e in Edges(adjacent) {
        var a :| a in adjacent && a.0 == e;
        assert (e, a.1) in adjacent;
      }
    }
  }

  /** A node at the bound is not expanded. */
  lemma {:induction false} PassFar(view: View, root: Id, bound: nat, s: Search, frontier: seq<(Id, nat)>, reached: set<Id>,
                                   chosen: map<Id, CpgEdge>)
    requires Between(view, root, bound, s, frontier, reached, chosen) && frontier != [] && frontier[0].1 >= bound
    ensures Between(view, root, bound, Next(s), frontier[1..], reached, chosen)
  {
    NextQueued(s);
    NextExpanded(view, bound, s);
    NextChose(view, bound, s, chosen, {});
    assert [frontier[0]] + frontier[1..] == frontier;
    NextFrontier(s, frontier[1..]);
  }

  lemma {:induction false} Opens(view: View, root: Id, bound: nat, s: Search, head: (Id, nat), frontier: seq<(Id, nat)>, reached: set<Id>,
                                 chosen: map<Id, CpgEdge>, adjacent: seq<(CpgEdge, Id)>)
    requires Between(view, root, bound, s, [head] + frontier, reached, chosen) && head.1 < bound
    requires ListsAdjacent(view, head.0, adjacent)
    ensures Amid(view, root, bound, s, head, frontier, reached, chosen, adjacent, 0)
  {
    assert Edges(adjacent[..0]) == {};
    assert ([head] + frontier)[0] == head;
    forall i | 0 <= i < |adjacent|
      ensures adjacent[i].0 in view.edges && Crosses(adjacent[i].0, view.direction, head.0, adjacent[i].1)
    {
      assert (adjacent[i].0, adjacent[i].1) in adjacent;
    }
  }

  /** The edges to the neighbours are chosen, and the new neighbours join the queue. */
  method Expand(view: View, ghost root: Id, ghost bound: nat, ghost s: Search, head: (Id, nat), queue: seq<(Id, nat)>, known: set<Id>,
                picked: map<Id, CpgEdge>, adjacent: seq<(CpgEdge, Id)>)
    returns (frontier: seq<(Id, nat)>, reached: set<Id>, chosen: map<Id, CpgEdge>, ghost t: Search)
    requires Between(view, root, bound, s, [head] + queue, known, picked) && head.1 < bound && UniqueIds(view.edges, EdgeId)
    requires ListsAdjacent(view, head.0, adjacent)
    ensures Between(view, root, bound, t, frontier, reached, chosen) && t.done == s.done + 1
  {
    frontier, reached, chosen, t := queue, known, picked, s;
    Opens(view, root, bound, s, head, frontier, reached, chosen, adjacent);
    for j := 0 to |adjacent|
      invariant Amid(view, root, bound, t, head, frontier, reached, chosen, adjacent, j) && t.done == s.done
    {
      frontier, reached, chosen, t := Cross(view, root, bound, t, head, frontier, reached, chosen, adjacent, j);
    }
    PassedAll(view, root, bound, t, head, frontier, reached, chosen, adjacent);
    t := Next(t);
  }

  /** One edge is chosen, and its neighbour joins the queue if it is new. */
  method Cross(view: View, ghost root: Id, ghost bound: nat, ghost s: Search, head: (Id, nat), queue: seq<(Id, nat)>, known: set<Id>,
               picked: map<Id, CpgEdge>, adjacent: seq<(CpgEdge, Id)>, j: nat)
    returns (frontier: seq<(Id, nat)>, reached: set<Id>, chosen: map<Id, CpgEdge>, ghost t: Search)
    requires Amid(view, root, bound, s, head, queue, known, picked, adjacent, j) && UniqueIds(view.edges, EdgeId) && j < |adjacent|
    ensures Amid(view, root, bound, t, head, frontier, reached, chosen, adjacent, j + 1) && t.done == s.done
  {
    var edge, neighbor := adjacent[j].0, adjacent[j].1;
    chosen := picked[edge.id := edge];
    if neighbor !in known {
      PassNew(view, root, bound, s, head, queue, known, picked, adjacent, j);
      t := Grown(s, neighbor);
      reached := known + {neighbor};
      frontier := queue + [(neighbor, head.1 + 1)];
    } else {
      PassKnown(view, root, bound, s, head, queue, known, picked, adjacent, j);
      frontier, reached, t := queue, known, s;
    }
  }

  /** Breadth-first search finds exactly the nodes within `depth` steps, and exactly the edges
      that leave a node nearer than that. */
  method Explore(view: View, root: Id, depth: int) returns (reached: set<Id>, chosen: map<Id, CpgEdge>)
    requires UniqueIds(view.edges, EdgeId)
    ensures var bound := if depth < 0 then 0 else depth;
      && (forall v :: v in reached <==> Near(view, root, v, bound))
      && (forall k :: k in chosen ==> chosen[k] in view.edges && chosen[k].id == k)
      && (forall e :: e in view.edges ==> (e.id in chosen <==> Crossed(view, root, bound, e)))
  {
    ghost var bound := if depth < 0 then 0 else depth;
    reached := {root};
    var frontier: seq<(Id, nat)> := [(root, 0)];
    chosen := map[];
    var outgoing, incoming := Index(view.edges);
    ghost var s := Search([root], map[root := 0], 0);
    Starts(view, root, bound);
    while frontier != []
      invariant Between(view, root, bound, s, frontier, reached, chosen)
      decreases |Universe(view, root)| - s.done
    {
      QueueBound(view, root, s);
      var head := frontier[0];
      if head.1 >= depth {
        PassFar(view, root, bound, s, frontier, reached, chosen);
        frontier, s := frontier[1..], Next(s);
        continue;
      }
      var adjacent := Adjacent(outgoing, incoming, view, head.0);
      assert [head] + frontier[1..] == frontier;
      frontier := frontier[1..];
      frontier, reached, chosen, s := Expand(view, root, bound, s, head, frontier, reached, chosen, adjacent);
    }
    Finds(view, root, bound, s, chosen);
  }

  // ----- selection -----

  function Candidates(edges: seq<CpgEdge>, graph: Graph): seq<CpgEdge> {
    if edges == [] then []
    else (if Allowed(graph, edges[0].tag) then [edges[0]] else []) + Candidates(edges[1..], graph)
  }

  lemma {:induction false} CandidatesHold(edges: seq<CpgEdge>, graph: Graph)
    ensures forall e :: e in Candidates(edges, graph) <==> e in edges && Allowed(graph, e.tag)
  {
    if edges != [] {
      CandidatesHold(edges[1..], graph);
      assert edges == [edges[0]] + edges[1..];
    }
  }

  function Reached(nodes: seq<CpgNode>, reached: set<Id>): seq<CpgNode> {
    if nodes == [] then []
    else (if nodes[0].id in reached then [nodes[0]] else []) + Reached(nodes[1..], reached)
  }

  lemma {:induction false} ReachedHold(nodes: seq<CpgNode>, reached: set<Id>)
    ensures forall n :: n in Reached(nodes, reached) <==> n in nodes && n.id in reached
  {
    if nodes != [] {
      ReachedHold(nodes[1..], reached);
      assert nodes == [nodes[0]] + nodes[1..];
    }
  }

  /** The nodes of the graph within `bound` steps of the root. */
  ghost function NodesNear(g: CpgSubgraph, view: View, root: Id, bound: nat): set<CpgNode> {
    set n | n in g.nodes && Near(view, root, n.id, bound)
  }

  /** The edges that can be walked from a node nearer than `bound`. */
  ghost function EdgesCrossed(view: View, root: Id, bound: nat): set<CpgEdge> {
    set e | e in view.edges && Crossed(view, root, bound, e)
  }

  ghost predicate Fits(g: CpgSubgraph, view: View, root: Id, bound: nat) {
    |NodesNear(g, view, root, bound)| + |EdgesCrossed(view, root, bound)| <= RECORD_LIMIT
  }

  /** The selected part: always within the record limit and truncated exactly if it had to be cut;
      if not, exactly the nodes near enough and the edges that can be walked from nearer ones. */
  ghost predicate IsSelection(g: CpgSubgraph, view: View, root: Id, bound: nat, r: CpgSubgraph) {
    && |r.nodes| + |r.edges| <= RECORD_LIMIT
    && r.truncated == (g.truncated || !Fits(g, view, root, bound))
    && (forall n :: n in r.nodes ==> n in NodesNear(g, view, root, bound))
    && (forall e :: e in r.edges ==> e in EdgesCrossed(view, root, bound))
    && (HasId(g.nodes, NodeId, root) ==> HasId(r.nodes, NodeId, root))
    && (Fits(g, view, root, bound) ==>
          && (forall n :: n in r.nodes <==> n in NodesNear(g, view, root, bound))
          && (forall e :: e in r.edges <==> e in EdgesCrossed(view, root, bound)))
  }

  // ----- the selection, told from the graph -----

  /** The labels that each view shows. */
  predicate Shows(graph: Graph, tag: string) {
    && (graph == Ast ==> tag == "AST" || tag == "CONTAINS")
    && (graph == Cfg ==> tag == "CFG")
    && (graph == Dfg ==> tag == "DEF" || tag == "USE" || tag == "REACHING_DEF")
    && (graph == Calls ==> tag == "CALL")
  }

  /** An edge that the view shows leads from `u` to `v`: along it, against it, or either. */
  ghost predicate Leads(g: CpgSubgraph, graph: Graph, direction: Direction, u: Id, v: Id) {
    exists e :: e in g.edges && Shows(graph, e.tag)
                && ((direction != In && e.source == u && e.target == v) || (direction != Out && e.source == v && e.target == u))
  }

  ghost predicate IsRoute(g: CpgSubgraph, graph: Graph, direction: Direction, p: seq<Id>) {
    p != [] && forall i, j :: 0 <= i && j == i + 1 < |p| ==> Leads(g, graph, direction, p[i], p[j])
  }

  /** A route of at most `k` steps leads from the root to `v`. */
  ghost predicate Routed(g: CpgSubgraph, graph: Graph, direction: Direction, root: Id, v: Id, k: nat) {
    exists p :: IsRoute(g, graph, direction, p) && p[0] == root && p[|p| - 1] == v && |p| <= k + 1
  }

  /** An edge that the view shows, with an end from which it may be walked nearer than the bound. */
  ghost predicate FromNearer(g: CpgSubgraph, graph: Graph, direction: Direction, root: Id, bound: nat, e: CpgEdge) {
    && e in g.edges && Shows(graph, e.tag) && bound > 0
    && ((direction != In && Routed(g, graph, direction, root, e.source, bound - 1))
        || (direction != Out && Routed(g, graph, direction, root, e.target, bound - 1)))
  }

  /** What is selected is reached; if nothing was cut, all that is reached is selected. */
  ghost predicate Selects(g: CpgSubgraph, graph: Graph, direction: Direction, root: Id, bound: nat, r: CpgSubgraph) {
    && (forall n :: n in r.nodes ==> n in g.nodes && Routed(g, graph, direction, root, n.id, bound))
    && (forall e :: e in r.edges ==> FromNearer(g, graph, direction, root, bound, e))
    && (!r.truncated ==>
          && (forall n :: n in g.nodes && Routed(g, graph, direction, root, n.id, bound) ==> n in r.nodes)
          && (forall e :: FromNearer(g, graph, direction, root, bound, e) ==> e in r.edges))
  }

  function ViewOf(g: CpgSubgraph, graph: Graph, direction: Direction): View {
    View(Candidates(g.edges, graph), direction)
  }

  lemma {:induction false} ShowsAllowed(graph: Graph, tag: string)
    ensures Shows(graph, tag) <==> Allowed(graph, tag)
  {
  }

  lemma {:induction false} LeadsIsLinked(g: CpgSubgraph, graph: Graph, direction: Direction, u: Id, v: Id)
    ensures Leads(g, graph, direction, u, v) <==> Linked(ViewOf(g, graph, direction), u, v)
  {
    CandidatesHold(g.edges, graph);
    if e :| e in g.edges && Shows(graph, e.tag)
            && ((direction != In && e.source == u && e.target == v) || (direction != Out && e.source == v && e.target == u)) {
      ShowsAllowed(graph, e.tag);
      assert e in ViewOf(g, graph, direction).edges && Crosses(e, direction, u, v);
    }
    if e :| e in ViewOf(g, graph, direction).edges && Crosses(e, direction, u, v) {
      ShowsAllowed(graph, e.tag);
    }
  }

  lemma {:induction false} ReachedIsNear(g: CpgSubgraph, graph: Graph, direction: Direction, root: Id, v: Id, k: nat)
    ensures Routed(g, graph, direction, root, v, k) <==> Near(ViewOf(g, graph, direction), root, v, k)
  {
    var view := ViewOf(g, graph, direction);
    forall p
      ensures IsRoute(g, graph, direction, p) <==> IsWalk(view, p)
    {
      forall i, j | 0 <= i && j == i + 1 < |p|
        ensures Leads(g, graph, direction, p[i], p[j]) <==> Linked(view, p[i], p[j])
      {
        LeadsIsLinked(g, graph, direction, p[i], p[j]);
      }
    }
    NearIsWithin(view, root, v, k);
    if p :| IsRoute(g, graph, direction, p) && p[0] == root && p[|p| - 1] == v && |p| <= k + 1 {
      assert IsWalk(view, p);
    }
    if p :| IsWalk(view, p) && p[0] == root && p[|p| - 1] == v && |p| <= k + 1 {
      assert IsRoute(g, graph, direction, p);
    }
  }

  lemma {:induction false} FromNearerIsCrossed(g: CpgSubgraph, graph: Graph, direction: Direction, root: Id, bound: nat, e: CpgEdge)
    ensures FromNearer(g, graph, direction, root, bound, e) <==>
              e in ViewOf(g, graph, direction).edges && Crossed(ViewOf(g, graph, direction), root, bound, e)
  {
    var view := ViewOf(g, graph, direction);
    CandidatesHold(g.edges, graph);
    ShowsAllowed(graph, e.tag);
    if bound > 0 {
      ReachedIsNear(g, graph, direction, root, e.source, bound - 1);
      ReachedIsNear(g, graph, direction, root, e.target, bound - 1);
      if direction != In && Near(view, root, e.source, bound - 1) {
        assert Inner(view, root, bound, e.source) && Leaves(e, direction, e.source);
      }
      if direction != Out && Near(view, root, e.target, bound - 1) {
        assert Inner(view, root, bound, e.target) && Leaves(e, direction, e.target);
      }
    }
  }

  lemma {:induction false} SelectionSelects(g: CpgSubgraph, graph: Graph, direction: Direction, root: Id, bound: nat, r: CpgSubgraph)
    requires IsSelection(g, ViewOf(g, graph, direction), root, bound, r)
    ensures Selects(g, graph, direction, root, bound, r)
  {
    var view := ViewOf(g, graph, direction);
    forall n: CpgNode
      ensures Routed(g, graph, direction, root, n.id, bound) <==> Near(view, root, n.id, bound)
    {
      ReachedIsNear(g, graph, direction, root, n.id, bound);
    }
    forall e: CpgEdge
      ensures FromNearer(g, graph, direction, root, bound, e) <==> e in EdgesCrossed(view, root, bound)
    {
      FromNearerIsCrossed(g, graph, direction, root, bound, e);
    }
  }

  /** Within the record limit the selected nodes are exactly those at distance at most `depth`,
      and the edges exactly the allowed ones that can be walked from a nearer node. */
  method Select(g: CpgSubgraph, graph: Graph, direction: Direction, depth: int, rootNode: Option<Id>, rank: CpgProblem -> nat)
    returns (r: CpgSubgraph)
    requires WellFormed(g)
    ensures InRank(g.problems, rank) && Distinct(g.problems) ==> r.problems == g.problems
    ensures forall p :: p in r.problems <==> p in g.problems
    ensures var view := View(Candidates(g.edges, graph), direction);
      var root := if rootNode.Some? then rootNode.value else g.root;
      WellFormed(r) && r.root == root && r.graph == graph && IsSelection(g, view, root, if depth < 0 then 0 else depth, r)
    ensures Selects(g, graph, direction, if rootNode.Some? then rootNode.value else g.root, if depth < 0 then 0 else depth, r)
    ensures r.unresolved == if g.unresolved < 0 then 0 else g.unresolved
    ensures |r.nodes| + |r.edges| <= 50_000
    ensures r.truncated && !g.truncated ==> |g.nodes| + |g.edges| > 50_000
  {
    var view := View(Candidates(g.edges, graph), direction);
    ViewHolds(g, view, graph);
    var root := if rootNode.Some? then rootNode.value else g.root;
    var nodes, edges := Pick(g, view, root, depth);
    r := Create(graph, root, nodes, edges, g.problems, g.truncated, g.unresolved, RECORD_LIMIT, rank);
    var bound := if depth < 0 then 0 else depth;
    AsChosen(g, view, root, bound, nodes, edges, r);
    SelectionSelects(g, graph, direction, root, bound, r);
    SmallFits(g, view, root, bound);
  }

  lemma {:induction false} SmallFits(g: CpgSubgraph, view: View, root: Id, bound: nat)
    requires forall e :: e in view.edges ==> e in g.edges
    ensures |g.nodes| + |g.edges| <= 50_000 ==> Fits(g, view, root, bound)
  {
    DrawnBound(g.nodes, NodesNear(g, view, root, bound));
    DrawnBound(g.edges, EdgesCrossed(view, root, bound));
  }

  lemma {:induction false} ViewHolds(g: CpgSubgraph, view: View, graph: Graph)
    requires WellFormed(g) && view.edges == Candidates(g.edges, graph)
    ensures UniqueIds(view.edges, EdgeId) && forall e :: e in view.edges ==> e in g.edges
  {
    CandidatesHold(g.edges, graph);
    AscendingIsUnique(g.edges, EdgeId);
  }

  /** The records that the search asks for. */
  method Pick(g: CpgSubgraph, view: View, root: Id, depth: int) returns (nodes: seq<CpgNode>, edges: seq<CpgEdge>)
    requires UniqueIds(view.edges, EdgeId)
    ensures Chosen(g, view, root, if depth < 0 then 0 else depth, nodes, edges)
  {
    var reached, chosen := Explore(view, root, depth);
    nodes := Reached(g.nodes, reached);
    AscendingSorts(chosen.Keys);
    edges := InOrder(chosen, Ascending(chosen.Keys));
    ReachedHold(g.nodes, reached);
    ValuesOf(view, chosen, edges);
  }

  lemma {:induction false} ValuesOf(view: View, chosen: map<Id, CpgEdge>, edges: seq<CpgEdge>)
    requires UniqueIds(view.edges, EdgeId)
    requires forall k :: k in chosen ==> chosen[k] in view.edges && chosen[k].id == k
    requires var keys := Ascending(chosen.Keys);
             |edges| == |keys| && forall i :: 0 <= i < |keys| ==> keys[i] in chosen && edges[i] == chosen[keys[i]]
    ensures forall e :: e in edges <==> e in view.edges && e.id in chosen
  {
    var keys := Ascending(chosen.Keys);
    AscendingSorts(chosen.Keys);
    forall e | e in view.edges && e.id in chosen
      ensures e in edges
    {
      assert e.id in keys;
      var i :| 0 <= i < |keys| && keys[i] == e.id;
      assert EdgeId(chosen[e.id]) == EdgeId(e);
      assert edges[i] == e;
    }
  }

  lemma {:induction false} CrossedEnds(view: View, root: Id, bound: nat, e: CpgEdge)
    requires e in view.edges && Crossed(view, root, bound, e)
    ensures Near(view, root, e.source, bound) && Near(view, root, e.target, bound)
  {
    var u :| Inner(view, root, bound, u) && Leaves(e, view.direction, u);
    var v := if view.direction != In && e.source == u then e.target else e.source;
    assert Crosses(e, view.direction, u, v);
    assert Linked(view, u, v);
  }

  /** The ends of a crossed edge are among the nodes near enough. */
  lemma {:induction false} EndsStay(g: CpgSubgraph, view: View, root: Id, bound: nat, nodes: seq<CpgNode>, e: CpgEdge)
    requires Closed(g.nodes, g.edges) && e in g.edges && e in view.edges && Crossed(view, root, bound, e)
    requires forall n :: n in nodes <==> n in NodesNear(g, view, root, bound)
    ensures HasId(nodes, NodeId, e.source) && HasId(nodes, NodeId, e.target)
  {
    CrossedEnds(view, root, bound, e);
    var a :| a in g.nodes && NodeId(a) == e.source;
    var b :| b in g.nodes && NodeId(b) == e.target;
    assert a in NodesNear(g, view, root, bound) && b in NodesNear(g, view, root, bound);
  }

  lemma {:induction false} RootStays(g: CpgSubgraph, view: View, root: Id, bound: nat, nodes: seq<CpgNode>)
    requires HasId(g.nodes, NodeId, root)
    requires forall n :: n in nodes <==> n in NodesNear(g, view, root, bound)
    ensures HasId(nodes, NodeId, root)
  {
    NearGrows(view, root, root, 0, bound);
    var a :| a in g.nodes && NodeId(a) == root;
    assert a in nodes;
  }

  /** The nodes and the edges are those that the search asks for. */
  ghost predicate Chosen(g: CpgSubgraph, view: View, root: Id, bound: nat, nodes: seq<CpgNode>, edges: seq<CpgEdge>) {
    && (forall n :: n in nodes <==> n in NodesNear(g, view, root, bound))
    && (forall e :: e in edges <==> e in EdgesCrossed(view, root, bound))
  }

  lemma {:induction false} ChosenCount(g: CpgSubgraph, view: View, root: Id, bound: nat, nodes: seq<CpgNode>, edges: seq<CpgEdge>)
    requires WellFormed(g) && UniqueIds(view.edges, EdgeId) && Chosen(g, view, root, bound, nodes, edges)
    ensures UniqueIds(nodes, NodeId) && UniqueIds(edges, EdgeId)
    ensures |Sorted(nodes, NodeId)| + |Sorted(edges, EdgeId)| <= RECORD_LIMIT <==> Fits(g, view, root, bound)
  {
    AscendingIsUnique(g.nodes, NodeId);
    assert UniqueIds(nodes, NodeId) && UniqueIds(edges, EdgeId);
    SortedUnique(nodes, NodeId);
    SortedUnique(edges, EdgeId);
    assert (set n | n in nodes) == NodesNear(g, view, root, bound);
    assert (set e | e in edges) == EdgesCrossed(view, root, bound);
  }

  lemma {:induction false} ChosenExact(g: CpgSubgraph, view: View, root: Id, bound: nat, nodes: seq<CpgNode>, edges: seq<CpgEdge>, r: CpgSubgraph)
    requires WellFormed(g) && UniqueIds(nodes, NodeId) && UniqueIds(edges, EdgeId) && Chosen(g, view, root, bound, nodes, edges)
    requires forall e :: e in view.edges ==> e in g.edges
    requires Bounded(r, Sorted(nodes, NodeId), Sorted(edges, EdgeId), RECORD_LIMIT)
    requires |Sorted(nodes, NodeId)| + |Sorted(edges, EdgeId)| <= RECORD_LIMIT
    ensures forall n :: n in r.nodes <==> n in nodes
    ensures forall e :: e in r.edges <==> e in edges
  {
    SortedUnique(nodes, NodeId);
    SortedUnique(edges, EdgeId);
    SortedHolds(nodes, NodeId);
    forall e | e in edges
      ensures HasId(Sorted(nodes, NodeId), NodeId, e.source) && HasId(Sorted(nodes, NodeId), NodeId, e.target)
    {
      EndsStay(g, view, root, bound, nodes, e);
    }
  }

  lemma {:induction false} AsChosen(g: CpgSubgraph, view: View, root: Id, bound: nat, nodes: seq<CpgNode>, edges: seq<CpgEdge>, r: CpgSubgraph)
    requires WellFormed(g) && UniqueIds(view.edges, EdgeId) && forall e :: e in view.edges ==> e in g.edges
    requires Chosen(g, view, root, bound, nodes, edges)
    requires Bounded(r, Sorted(nodes, NodeId), Sorted(edges, EdgeId), RECORD_LIMIT)
    requires HasId(nodes, NodeId, root) ==> HasId(r.nodes, NodeId, root)
    requires r.truncated == (g.truncated || |Sorted(nodes, NodeId)| + |Sorted(edges, EdgeId)| > RECORD_LIMIT)
    ensures IsSelection(g, view, root, bound, r)
  {
    ChosenCount(g, view, root, bound, nodes, edges);
    if HasId(g.nodes, NodeId, root) {
      RootStays(g, view, root, bound, nodes);
    }
    OnlyInput(r, nodes, edges);
    if Fits(g, view, root, bound) {
      ChosenExact(g, view, root, bound, nodes, edges, r);
    }
  }

  lemma {:induction false} OnlyInput(r: CpgSubgraph, nodes: seq<CpgNode>, edges: seq<CpgEdge>)
    requires Bounded(r, Sorted(nodes, NodeId), Sorted(edges, EdgeId), RECORD_LIMIT)
    ensures forall n :: n in r.nodes ==> n in nodes
    ensures forall e :: e in r.edges ==> e in edges
  {
    SortedHolds(nodes, NodeId);
    SortedHolds(edges, EdgeId);
    var sorted := Sorted(nodes, NodeId);
    if |sorted| > RECORD_LIMIT {
      forall i | 0 <= i < |r.nodes|
        ensures r.nodes[i] in nodes
      {
        if i < RECORD_LIMIT - 1 {
          assert r.nodes[i] == sorted[..RECORD_LIMIT - 1][i] == sorted[i];
        }
      }
    }
  }

  // ----- growth with depth -----

  /** A deeper selection keeps everything of a shallower one. */
  lemma {:induction false} SelectionGrows(g: CpgSubgraph, view: View, root: Id, k: nat, m: nat)
    requires k <= m
    ensures NodesNear(g, view, root, k) <= NodesNear(g, view, root, m)
    ensures EdgesCrossed(view, root, k) <= EdgesCrossed(view, root, m)
  {
    forall n | n in NodesNear(g, view, root, k)
      ensures n in NodesNear(g, view, root, m)
    {
      NearGrows(view, root, n.id, k, m);
    }
    forall e | e in EdgesCrossed(view, root, k)
      ensures e in EdgesCrossed(view, root, m)
    {
      var u :| Inner(view, root, k, u) && Leaves(e, view.direction, u);
      NearGrows(view, root, u, k - 1, m - 1);
      assert Inner(view, root, m, u);
    }
  }
}
