/** Labelled flow graphs with entries and exits, the paths through them, and what the
    paths of a composed graph are in terms of the paths of its parts. */
module FlowPaths {

  type Id = nat

  datatype EdgeKind = Entry | Empty | Next | True | False | LoopBack | LoopTest | Branch | Terminal

  datatype Edge = Edge(source: Id, target: Id, kind: EdgeKind)

  /** A node together with the kind of the edge by which it is left. */
  datatype Step = Step(node: Id, kind: EdgeKind)

  datatype Fragment = Fragment(entries: seq<Id>, exits: seq<Step>)

  /** A fragment and the edges laid inside it. */
  datatype Flow = Flow(entries: seq<Id>, exits: seq<Step>, edges: seq<Edge>)

  type Word = seq<Step>

  ghost predicate Linked(edges: seq<Edge>, w: Word) {
    forall i, j :: 0 <= i && j == i + 1 < |w| ==> Edge(w[i].node, w[j].node, w[i].kind) in edges
  }

  /** `w` runs from an entry to an exit of `f` along its edges. */
  ghost predicate Path(f: Flow, w: Word) {
    && w != []
    && w[0].node in f.entries
    && w[|w| - 1] in f.exits
    && Linked(f.edges, w)
  }

  ghost predicate Within(f: Flow, ns: set<Id>) {
    && (forall x :: x in f.entries ==> x in ns)
    && (forall x :: x in f.exits ==> x.node in ns)
    && (forall e :: e in f.edges ==> e.source in ns && e.target in ns)
  }

  ghost predicate AllIn(w: Word, ns: set<Id>) {
    forall i :: 0 <= i < |w| ==> w[i].node in ns
  }

  lemma {:induction false} PathWithin(f: Flow, ns: set<Id>, w: Word)
    requires Within(f, ns) && w != [] && w[0].node in ns && Linked(f.edges, w)
    ensures AllIn(w, ns)
  {
    forall i | 0 <= i < |w|
      ensures w[i].node in ns
    {
      if i > 0 {
        var h := i - 1;
        assert Edge(w[h].node, w[i].node, w[h].kind) in f.edges;
      }
    }
  }

  /** The last step of a word leaves by another kind of edge. */
  function Relast(w: Word, k: EdgeKind): (r: Word)
    ensures |r| == |w|
    ensures forall i :: 0 <= i < |w| ==> r[i].node == w[i].node
  {
    if w == [] then [] else w[..|w| - 1] + [Step(w[|w| - 1].node, k)]
  }

  lemma {:induction false} RelastLinked(edges: seq<Edge>, w: Word, k: EdgeKind)
    ensures Linked(edges, Relast(w, k)) <==> Linked(edges, w)
  {
    var r := Relast(w, k);
    assert forall i, j :: 0 <= i && j == i + 1 < |w| ==> r[i] == w[i] && r[j].node == w[j].node;
  }

  /** The first step at node `c`. */
  lemma {:induction false} FirstAt(w: Word, c: Id) returns (k: nat)
    requires exists i :: 0 <= i < |w| && w[i].node == c
    ensures k < |w| && w[k].node == c && forall i :: 0 <= i < k ==> w[i].node != c
  {
    if w[0].node == c {
      k := 0;
    } else {
      var i :| 0 <= i < |w| && w[i].node == c;
      assert w[1..][i - 1].node == c;
      k := FirstAt(w[1..], c);
      k := k + 1;
      forall i | 0 <= i < k
        ensures w[i].node != c
      {
        assert i > 0 ==> w[i] == w[1..][i - 1];
      }
    }
  }

  // ----- sequencing -----

  ghost predicate Crosses(a: Flow, b: Flow, e: Edge) {
    Step(e.source, e.kind) in a.exits && e.target in b.entries
  }

  ghost predicate IsThen(f: Flow, a: Flow, b: Flow) {
    && f.entries == a.entries && f.exits == b.exits
    && forall e :: e in f.edges <==> e in a.edges || e in b.edges || Crosses(a, b, e)
  }

  ghost predicate SplitsAt(a: Flow, b: Flow, w: Word, k: nat) {
    0 < k < |w| && Path(a, w[..k]) && Path(b, w[k..])
  }

  lemma {:induction false} ThenJoins(f: Flow, a: Flow, b: Flow, w: Word, k: nat)
    requires IsThen(f, a, b) && SplitsAt(a, b, w, k)
    ensures Path(f, w)
  {
    forall i, j | 0 <= i && j == i + 1 < |w|
      ensures Edge(w[i].node, w[j].node, w[i].kind) in f.edges
    {
      if j < k {
        assert w[..k][i] == w[i] && w[..k][j] == w[j];
      } else if j == k {
        assert w[..k][i] == w[i] && w[k..][0] == w[j];
        assert Crosses(a, b, Edge(w[i].node, w[j].node, w[i].kind));
      } else {
        assert w[k..][i - k] == w[i] && w[k..][j - k] == w[j];
      }
    }
    assert w[k..][|w| - k - 1] == w[|w| - 1];
  }

  lemma {:induction false} ThenSplits(f: Flow, a: Flow, b: Flow, na: set<Id>, nb: set<Id>, w: Word) returns (k: nat)
    requires IsThen(f, a, b) && Within(a, na) && Within(b, nb) && na !! nb && Path(f, w)
    ensures SplitsAt(a, b, w, k)
  {
    k := Frontier(f, a, b, na, nb, w);
    var u, v := w[..k], w[k..];
    var h := k - 1;
    assert Edge(w[h].node, w[k].node, w[h].kind) in f.edges;
    assert Crosses(a, b, Edge(w[h].node, w[k].node, w[h].kind));
    assert u[|u| - 1] == w[h];
    forall i, j | 0 <= i && j == i + 1 < |u|
      ensures Edge(u[i].node, u[j].node, u[i].kind) in a.edges
    {
      assert Edge(w[i].node, w[j].node, w[i].kind) in f.edges;
    }
    forall i, j | 0 <= i && j == i + 1 < |v|
      ensures Edge(v[i].node, v[j].node, v[i].kind) in b.edges
    {
      var p, q := i + k, j + k;
      assert Edge(w[p].node, w[q].node, w[p].kind) in f.edges;
    }
    assert v[|v| - 1] == w[|w| - 1];
  }

  /** A path through `a` and then `b` leaves the nodes of `a` once and for all. */
  lemma {:induction false} Frontier(f: Flow, a: Flow, b: Flow, na: set<Id>, nb: set<Id>, w: Word) returns (k: nat)
    requires IsThen(f, a, b) && Within(a, na) && Within(b, nb) && na !! nb
    requires w != [] && w[0].node in na && w[|w| - 1].node in nb && Linked(f.edges, w)
    ensures 0 < k < |w| && AllIn(w[..k], na) && AllIn(w[k..], nb)
  {
    k := 1;
    while w[k].node in na
      invariant 0 < k < |w| && AllIn(w[..k], na)
      decreases |w| - k
    {
      if k == |w| - 1 {
        assert false;
      }
      k := k + 1;
    }
    var h := k - 1;
    assert Edge(w[h].node, w[k].node, w[h].kind) in f.edges;
    assert w[..k][h].node in na;
    var m := k;
    while m + 1 < |w|
      invariant k <= m < |w| && forall i :: k <= i <= m ==> w[i].node in nb
    {
      var n := m + 1;
      assert Edge(w[m].node, w[n].node, w[m].kind) in f.edges;
      m := m + 1;
    }
  }

  // ----- a test in front of one or two branches -----

  /** From the test `c` an edge of kind `k` leads to every entry of `a`. */
  ghost predicate Enters(c: Id, k: EdgeKind, a: Flow, e: Edge) {
    e.source == c && e.kind == k && e.target in a.entries
  }

  ghost predicate IsBranch(f: Flow, c: Id, a: Flow, b: Flow, skips: bool) {
    && f.entries == [c]
    && (forall x :: x in f.exits <==> x in a.exits || x in b.exits || (skips && x == Step(c, False)))
    && forall e :: e in f.edges <==> e in a.edges || e in b.edges || Enters(c, True, a, e) || Enters(c, False, b, e)
  }

  /** The paths of a test and its branches: the test left as true followed by a path of the
      first, the test left as false followed by one of the second, or, when the second is
      absent, the test alone. */
  lemma {:induction false} BranchPaths(f: Flow, c: Id, a: Flow, b: Flow, skips: bool, na: set<Id>, nb: set<Id>, w: Word)
    requires IsBranch(f, c, a, b, skips) && Within(a, na) && Within(b, nb)
    requires na !! nb && c !in na && c !in nb
    ensures Path(f, w) <==>
              || (skips && w == [Step(c, False)])
              || (w != [] && w[0] == Step(c, True) && Path(a, w[1..]))
              || (w != [] && w[0] == Step(c, False) && Path(b, w[1..]))
  {
    if Path(f, w) {
      if |w| == 1 {
        assert w == [w[0]];
      } else {
        var i, j := 0, 1;
        assert Edge(w[i].node, w[j].node, w[i].kind) in f.edges;
        if w[1].node in a.entries {
          BranchTail(f, c, a, b, skips, na, nb, w);
        } else {
          assert w[1].node in b.entries;
          BranchTailElse(f, c, a, b, skips, na, nb, w);
        }
      }
    }
    if w != [] && w[0] == Step(c, True) && Path(a, w[1..]) {
      BranchJoins(f, c, a, True, w);
    }
    if w != [] && w[0] == Step(c, False) && Path(b, w[1..]) {
      BranchJoins(f, c, b, False, w);
    }
  }

  lemma {:induction false} BranchJoins(f: Flow, c: Id, a: Flow, k: EdgeKind, w: Word)
    requires f.entries == [c]
    requires forall x :: x in a.exits ==> x in f.exits
    requires forall e :: e in a.edges || Enters(c, k, a, e) ==> e in f.edges
    requires w != [] && w[0] == Step(c, k) && Path(a, w[1..])
    ensures Path(f, w)
  {
    var v := w[1..];
    forall i, j | 0 <= i && j == i + 1 < |w|
      ensures Edge(w[i].node, w[j].node, w[i].kind) in f.edges
    {
      if i == 0 {
        assert v[0] == w[j];
        assert Enters(c, k, a, Edge(w[i].node, w[j].node, w[i].kind));
      } else {
        assert v[i - 1] == w[i] && v[j - 1] == w[j];
      }
    }
    assert v[|v| - 1] == w[|w| - 1];
  }

  lemma {:induction false} BranchTail(f: Flow, c: Id, a: Flow, b: Flow, skips: bool, na: set<Id>, nb: set<Id>, w: Word)
    requires IsBranch(f, c, a, b, skips) && Within(a, na) && Within(b, nb)
    requires na !! nb && c !in na && c !in nb
    requires Path(f, w) && |w| > 1 && w[1].node in a.entries
    ensures w[0] == Step(c, True) && Path(a, w[1..])
  {
    var i, j := 0, 1;
    assert Edge(w[i].node, w[j].node, w[i].kind) in f.edges;
    var v := w[1..];
    TailStays(f, a, na, w, 1);
    assert v[|v| - 1] == w[|w| - 1];
  }

  lemma {:induction false} BranchTailElse(f: Flow, c: Id, a: Flow, b: Flow, skips: bool, na: set<Id>, nb: set<Id>, w: Word)
    requires IsBranch(f, c, a, b, skips) && Within(a, na) && Within(b, nb)
    requires na !! nb && c !in na && c !in nb
    requires Path(f, w) && |w| > 1 && w[1].node in b.entries
    ensures w[0] == Step(c, False) && Path(b, w[1..])
  {
    var i, j := 0, 1;
    assert Edge(w[i].node, w[j].node, w[i].kind) in f.edges;
    var v := w[1..];
    TailStays(f, b, nb, w, 1);
    assert v[|v| - 1] == w[|w| - 1];
  }

  /** Once inside a part whose nodes only its own edges leave, a path stays inside it. */
  lemma {:induction false} TailStays(f: Flow, a: Flow, na: set<Id>, w: Word, k: nat)
    requires k < |w| && w[k].node in na && Linked(f.edges, w) && Within(a, na)
    requires forall e :: e in f.edges && e.source in na ==> e in a.edges
    ensures Linked(a.edges, w[k..]) && AllIn(w[k..], na)
  {
    var m := k;
    while m + 1 < |w|
      invariant k <= m < |w| && forall i :: k <= i <= m ==> w[i].node in na
    {
      var n := m + 1;
      assert Edge(w[m].node, w[n].node, w[m].kind) in f.edges;
      m := m + 1;
    }
    var v := w[k..];
    forall i, j | 0 <= i && j == i + 1 < |v|
      ensures Edge(v[i].node, v[j].node, v[i].kind) in a.edges
    {
      var p, q := i + k, j + k;
      assert v[i] == w[p] && v[j] == w[q];
      assert Edge(w[p].node, w[q].node, w[p].kind) in f.edges;
    }
  }

  // ----- loops -----

  /** Every exit of `a` leads back to `c` by an edge of kind `k`. */
  ghost predicate Returns(a: Flow, c: Id, k: EdgeKind, e: Edge) {
    e.target == c && e.kind == k && exists x :: x in a.exits && x.node == e.source
  }

  /** A loop around `a` tested at `c`: entered at the test and left as false (`headFirst`),
      or entered at the body and left as true. */
  ghost predicate IsLoop(f: Flow, c: Id, a: Flow, headFirst: bool) {
    && f.entries == (if headFirst then [c] else a.entries)
    && f.exits == [Step(c, if headFirst then False else True)]
    && forall e :: e in f.edges <==>
         || e in a.edges
         || Enters(c, if headFirst then True else LoopBack, a, e)
         || Returns(a, c, if headFirst then LoopBack else LoopTest, e)
  }

  /** One round of the body: a path of `a` whose last step returns to the test. */
  ghost predicate Round(a: Flow, k: EdgeKind, w: Word) {
    w != [] && w[|w| - 1].kind == k && exists q :: Path(a, Relast(w, q))
  }

  /** The part of a path before the test, when it starts in the body, is one round. */
  lemma {:induction false} RoundOf(f: Flow, c: Id, a: Flow, headFirst: bool, na: set<Id>, w: Word, i: nat, k: nat)
    requires IsLoop(f, c, a, headFirst) && Within(a, na) && c !in na && Linked(f.edges, w)
    requires i < k < |w| && w[i].node in a.entries && w[k].node == c
    requires forall h :: i <= h < k ==> w[h].node != c
    ensures Round(a, if headFirst then LoopBack else LoopTest, w[i..k])
  {
    var u := w[i..k];
    var m := i;
    while m + 1 < k
      invariant i <= m < k && forall h :: i <= h <= m ==> w[h].node in na
    {
      var n := m + 1;
      assert Edge(w[m].node, w[n].node, w[m].kind) in f.edges;
      m := m + 1;
    }
    assert Edge(w[m].node, w[k].node, w[m].kind) in f.edges;
    var x :| x in a.exits && x.node == w[m].node;
    forall g, h | 0 <= g && h == g + 1 < |u|
      ensures Edge(u[g].node, u[h].node, u[g].kind) in a.edges
    {
      var p, q := g + i, h + i;
      assert u[g] == w[p] && u[h] == w[q];
      assert Edge(w[p].node, w[q].node, w[p].kind) in f.edges;
    }
    RelastLinked(a.edges, u, x.kind);
    assert u[|u| - 1] == w[m];
    assert Relast(u, x.kind)[|u| - 1] == x;
    assert Path(a, Relast(u, x.kind));
  }

  lemma {:induction false} SuffixLinked(edges: seq<Edge>, w: Word, k: nat)
    requires k <= |w| && Linked(edges, w)
    ensures Linked(edges, w[k..])
  {
    var v := w[k..];
    forall i, j | 0 <= i && j == i + 1 < |v|
      ensures Edge(v[i].node, v[j].node, v[i].kind) in edges
    {
      var p, q := i + k, j + k;
      assert v[i] == w[p] && v[j] == w[q];
    }
  }

  /** Appending a linked word behind a linked word along one edge. */
  lemma {:induction false} LinkedJoin(edges: seq<Edge>, u: Word, v: Word)
    requires Linked(edges, u) && Linked(edges, v)
    requires u != [] && v != [] ==> Edge(u[|u| - 1].node, v[0].node, u[|u| - 1].kind) in edges
    ensures Linked(edges, u + v)
  {
    var w := u + v;
    forall i, j | 0 <= i && j == i + 1 < |w|
      ensures Edge(w[i].node, w[j].node, w[i].kind) in edges
    {
      if i >= |u| {
        var p, q := i - |u|, j - |u|;
        assert w[i] == v[p] && w[j] == v[q];
      }
    }
  }

  /** A round of the body lies along the loop's edges and returns to the test. */
  lemma {:induction false} RoundLinked(f: Flow, c: Id, a: Flow, headFirst: bool, u: Word)
    requires IsLoop(f, c, a, headFirst)
    requires Round(a, if headFirst then LoopBack else LoopTest, u)
    ensures Linked(f.edges, u) && u[0].node in a.entries
    ensures Edge(u[|u| - 1].node, c, u[|u| - 1].kind) in f.edges
  {
    var q :| Path(a, Relast(u, q));
    RelastLinked(a.edges, u, q);
    assert Relast(u, q)[|u| - 1] == Step(u[|u| - 1].node, q);
    assert Returns(a, c, u[|u| - 1].kind, Edge(u[|u| - 1].node, c, u[|u| - 1].kind));
  }

  ghost predicate HeadSplit(f: Flow, c: Id, a: Flow, w: Word, k: nat) {
    1 < k < |w| && w[0] == Step(c, True) && Round(a, LoopBack, w[1..k]) && Path(f, w[k..])
  }

  /** A path of a loop tested at its head: the test left as false, or the test left as
      true, one round, and again a path of the loop. */
  lemma {:induction false} HeadLoopPaths(f: Flow, c: Id, a: Flow, na: set<Id>, w: Word)
    requires IsLoop(f, c, a, true) && Within(a, na) && c !in na
    ensures Path(f, w) <==> w == [Step(c, False)] || exists k: nat :: HeadSplit(f, c, a, w, k)
  {
    if Path(f, w) {
      if |w| == 1 {
        assert w == [w[0]];
      } else {
        var k := HeadLoopSplits(f, c, a, na, w);
      }
    }
    if k: nat :| HeadSplit(f, c, a, w, k) {
      HeadLoopJoins(f, c, a, w, k);
    }
  }

  lemma {:induction false} HeadLoopSplits(f: Flow, c: Id, a: Flow, na: set<Id>, w: Word) returns (k: nat)
    requires IsLoop(f, c, a, true) && Within(a, na) && c !in na && Path(f, w) && |w| > 1
    ensures HeadSplit(f, c, a, w, k)
  {
    var i, j := 0, 1;
    assert Edge(w[i].node, w[j].node, w[i].kind) in f.edges;
    var v := w[1..];
    assert v[|v| - 1] == w[|w| - 1];
    k := FirstAt(v, c);
    k := k + 1;
    forall h | 1 <= h < k
      ensures w[h].node != c
    {
      assert v[h - 1] == w[h];
    }
    assert v[k - 1] == w[k];
    RoundOf(f, c, a, true, na, w, 1, k);
    SuffixLinked(f.edges, w, k);
    assert w[k..][|w| - k - 1] == w[|w| - 1];
  }

  lemma {:induction false} HeadLoopJoins(f: Flow, c: Id, a: Flow, w: Word, k: nat)
    requires IsLoop(f, c, a, true) && HeadSplit(f, c, a, w, k)
    ensures Path(f, w)
  {
    HeadLoopJoinsParts(f, c, a, w[1..k], w[k..]);
    assert [w[0]] + w[1..k] + w[k..] == w;
  }

  lemma {:induction false} HeadLoopJoinsParts(f: Flow, c: Id, a: Flow, u: Word, v: Word)
    requires IsLoop(f, c, a, true) && Round(a, LoopBack, u) && Path(f, v)
    ensures Path(f, [Step(c, True)] + u + v)
  {
    RoundLinked(f, c, a, true, u);
    assert Enters(c, True, a, Edge(c, u[0].node, True));
    LinkedJoin(f.edges, [Step(c, True)], u);
    LinkedJoin(f.edges, [Step(c, True)] + u, v);
  }

  ghost predicate TailSplit(f: Flow, c: Id, a: Flow, w: Word, k: nat) {
    && 0 < k < |w| && Round(a, LoopTest, w[..k]) && w[k].node == c
    && if k + 1 == |w| then w[k].kind == True else w[k].kind == LoopBack && Path(f, w[k + 1..])
  }

  /** A path of a loop tested at its tail: a round and then the test, left as true at the
      end or looping back into another path of the loop. */
  lemma {:induction false} TailLoopPaths(f: Flow, c: Id, a: Flow, na: set<Id>, w: Word)
    requires IsLoop(f, c, a, false) && Within(a, na) && c !in na
    ensures Path(f, w) <==> exists k: nat :: TailSplit(f, c, a, w, k)
  {
    if Path(f, w) {
      var k := TailLoopSplits(f, c, a, na, w);
    }
    if k: nat :| TailSplit(f, c, a, w, k) {
      TailLoopJoins(f, c, a, w, k);
    }
  }

  lemma {:induction false} TailLoopSplits(f: Flow, c: Id, a: Flow, na: set<Id>, w: Word) returns (k: nat)
    requires IsLoop(f, c, a, false) && Within(a, na) && c !in na && Path(f, w)
    ensures TailSplit(f, c, a, w, k)
  {
    k := FirstAt(w, c);
    RoundOf(f, c, a, false, na, w, 0, k);
    assert w[0..k] == w[..k];
    if k + 1 < |w| {
      var n := k + 1;
      assert Edge(w[k].node, w[n].node, w[k].kind) in f.edges;
      SuffixLinked(f.edges, w, n);
      assert w[n..][|w| - n - 1] == w[|w| - 1];
    }
  }

  lemma {:induction false} TailLoopJoins(f: Flow, c: Id, a: Flow, w: Word, k: nat)
    requires IsLoop(f, c, a, false) && TailSplit(f, c, a, w, k)
    ensures Path(f, w)
  {
    var u, t, v := w[..k], w[k], w[k + 1..];
    assert v == [] <==> k + 1 == |w|;
    TailLoopJoinsParts(f, c, a, u, t, v);
    Reassemble(w, k);
  }

  lemma {:induction false} Reassemble(w: Word, k: nat)
    requires k < |w|
    ensures w[..k] + [w[k]] + w[k + 1..] == w
  {
  }

  lemma {:induction false} TailLoopJoinsParts(f: Flow, c: Id, a: Flow, u: Word, t: Step, v: Word)
    requires IsLoop(f, c, a, false) && Round(a, LoopTest, u) && t.node == c
    requires if v == [] then t.kind == True else t.kind == LoopBack && Path(f, v)
    ensures Path(f, u + [t] + v)
  {
    RoundLinked(f, c, a, false, u);
    if v != [] {
      assert Enters(c, LoopBack, a, Edge(c, v[0].node, LoopBack));
    }
    LinkedJoin(f.edges, u, [t]);
    LinkedJoin(f.edges, u + [t], v);
  }
}
