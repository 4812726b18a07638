/** Dropping the symbols that lie inside a routine body: a sweep with a heap of open bodies
    against the plain test of every symbol with every routine. */
module RoutineLocals {
  import opened Wrappers

  /** `uid` is the identity of the symbol object. */
  datatype Symbol = Symbol(uid: nat, parent: string, isRoutine: bool, line: int, column: int)

  /** Where a document places a symbol, and the routine body that it finds for one. */
  datatype Document = Document(offset: Symbol -> int, body: Symbol -> Option<(int, int)>)

  predicate IsContainer(doc: Document, c: Symbol) {
    c.parent == "" && c.isRoutine && doc.body(c).Some?
  }

  predicate Covers(doc: Document, c: Symbol, x: Symbol) {
    IsContainer(doc, c) && doc.body(c).value.0 < doc.offset(x) < doc.body(c).value.1
  }

  /** The symbol lies inside the body of a top-level routine other than itself. */
  ghost predicate Local(doc: Document, symbols: seq<Symbol>, x: Symbol) {
    exists c :: c in symbols && Covers(doc, c, x) && c.uid != x.uid
  }

  /** The symbols of `part` that are not local, in their order. */
  ghost function Kept(doc: Document, symbols: seq<Symbol>, part: seq<Symbol>): seq<Symbol> {
    if part == [] then []
    else Kept(doc, symbols, part[..|part| - 1])
         + if Local(doc, symbols, part[|part| - 1]) then [] else [part[|part| - 1]]
  }

  // ----- keyed items, as they are sorted and heaped -----

  /** Two keys, compared in turn, and what they are the keys of. */
  datatype Keyed = Keyed(first: int, second: int, what: nat)

  predicate Precedes(x: Keyed, y: Keyed) {
    x.first < y.first || (x.first == y.first && x.second <= y.second)
  }

  ghost predicate InOrder(s: seq<Keyed>) {
    forall i, j :: 0 <= i < j < |s| ==> Precedes(s[i], s[j])
  }

  function Insert(s: seq<Keyed>, x: Keyed): (r: seq<Keyed>)
    ensures |r| == |s| + 1
  {
    if s == [] || !Precedes(s[0], x) then [x] + s else [s[0]] + Insert(s[1..], x)
  }

  function SortKeyed(s: seq<Keyed>): seq<Keyed> {
    if s == [] then [] else Insert(SortKeyed(s[..|s| - 1]), s[|s| - 1])
  }

  lemma {:induction false} InsertHolds(s: seq<Keyed>, x: Keyed)
    requires InOrder(s)
    ensures InOrder(Insert(s, x))
    ensures forall y :: y in Insert(s, x) <==> y in s || y == x
  {
    if s != [] && Precedes(s[0], x) {
      var rest := Insert(s[1..], x);
      InsertHolds(s[1..], x);
      assert s == [s[0]] + s[1..];
      forall j | 0 <= j < |rest|
        ensures Precedes(s[0], rest[j])
      {
        assert rest[j] in rest;
      }
    }
  }

  lemma {:induction false} SortHolds(s: seq<Keyed>)
    ensures InOrder(SortKeyed(s))
    ensures forall y :: y in SortKeyed(s) <==> y in s
  {
    if s != [] {
      SortHolds(s[..|s| - 1]);
      InsertHolds(SortKeyed(s[..|s| - 1]), s[|s| - 1]);
      assert s == s[..|s| - 1] + [s[|s| - 1]];
    }
  }

  // ----- the sweep -----

  /** One object has one content. */
  ghost predicate Objects(symbols: seq<Symbol>) {
    forall x, y :: x in symbols && y in symbols && x.uid == y.uid ==> x == y
  }

  ghost predicate Indexed(symbols: seq<Symbol>, containers: seq<Keyed>) {
    forall c :: c in containers ==> c.what < |symbols|
  }

  ghost predicate ContainersOf(doc: Document, symbols: seq<Symbol>, containers: seq<Keyed>) {
    && InOrder(containers) && Indexed(symbols, containers)
    && (forall c :: c in containers ==> IsContainer(doc, symbols[c.what])
                                        && doc.body(symbols[c.what]).value == (c.first, c.second))
    && forall i :: 0 <= i < |symbols| && IsContainer(doc, symbols[i]) ==>
         Keyed(doc.body(symbols[i]).value.0, doc.body(symbols[i]).value.1, i) in containers
  }

  ghost function Entry(symbols: seq<Symbol>, containers: seq<Keyed>, i: nat): Keyed
    requires i < |containers| && containers[i].what < |symbols|
  {
    Keyed(containers[i].second, i, symbols[containers[i].what].uid)
  }

  /** The entries of the heap are containers among the first `next`. */
  ghost predicate Held(symbols: seq<Symbol>, containers: seq<Keyed>, next: nat, heap: seq<Keyed>)
    requires next <= |containers| && Indexed(symbols, containers)
  {
    InOrder(heap) && forall e :: e in heap ==> 0 <= e.second < next && e == Entry(symbols, containers, e.second)
  }

  /** All of the first `next` containers that reach beyond `offset` are in the heap. */
  ghost predicate Complete(symbols: seq<Symbol>, containers: seq<Keyed>, next: nat, offset: int, heap: seq<Keyed>)
    requires next <= |containers| && Indexed(symbols, containers)
  {
    forall i :: 0 <= i < next && containers[i].second > offset ==> Entry(symbols, containers, i) in heap
  }

  /** An identity is active only for an entry, and for every entry that reaches beyond `offset`. */
  ghost predicate Mirrors(offset: int, heap: seq<Keyed>, active: set<nat>) {
    && (forall u :: u in active ==> exists e :: e in heap && e.what == u)
    && (forall e :: e in heap && e.first > offset ==> e.what in active)
  }

  ghost predicate Open(symbols: seq<Symbol>, containers: seq<Keyed>, next: nat, offset: int, heap: seq<Keyed>, active: set<nat>)
    requires next <= |containers| && Indexed(symbols, containers)
  {
    Held(symbols, containers, next, heap) && Complete(symbols, containers, next, offset, heap) && Mirrors(offset, heap, active)
  }

  lemma {:induction false} Opens(symbols: seq<Symbol>, containers: seq<Keyed>, next: nat, offset: int, heap: seq<Keyed>, active: set<nat>)
    requires Indexed(symbols, containers) && next < |containers|
    requires Open(symbols, containers, next, offset, heap, active)
    ensures var e := Entry(symbols, containers, next);
            Open(symbols, containers, next + 1, offset, Insert(heap, e), active + {e.what})
    ensures containers[next].what < |symbols|
  {
    var e := Entry(symbols, containers, next);
    InsertHolds(heap, e);
    assert e in Insert(heap, e);
  }

  lemma {:induction false} Closes(doc: Document, symbols: seq<Symbol>, containers: seq<Keyed>, next: nat, offset: int, heap: seq<Keyed>, active: set<nat>)
    requires ContainersOf(doc, symbols, containers) && Objects(symbols) && next <= |containers|
    requires Open(symbols, containers, next, offset, heap, active) && heap != [] && heap[0].first <= offset
    ensures Open(symbols, containers, next, offset, heap[1..], active - {heap[0].what})
  {
    ClosesHeap(symbols, containers, next, offset, heap);
    forall e | e in heap[1..] && e.what == heap[0].what
      ensures e.first == heap[0].first
    {
      SameObject(doc, symbols, containers, next, heap, e, heap[0]);
    }
    ClosesMirror(offset, heap, active);
  }

  lemma {:induction false} ClosesHeap(symbols: seq<Symbol>, containers: seq<Keyed>, next: nat, offset: int, heap: seq<Keyed>)
    requires next <= |containers| && Indexed(symbols, containers)
    requires Held(symbols, containers, next, heap) && Complete(symbols, containers, next, offset, heap)
    requires heap != [] && heap[0].first <= offset
    ensures Held(symbols, containers, next, heap[1..]) && Complete(symbols, containers, next, offset, heap[1..])
  {
    assert heap == [heap[0]] + heap[1..];
  }

  lemma {:induction false} ClosesMirror(offset: int, heap: seq<Keyed>, active: set<nat>)
    requires Mirrors(offset, heap, active) && heap != [] && heap[0].first <= offset
    requires forall e :: e in heap[1..] && e.what == heap[0].what ==> e.first == heap[0].first
    ensures Mirrors(offset, heap[1..], active - {heap[0].what})
  {
    var rest := heap[1..];
    assert heap == [heap[0]] + rest;
    forall u | u in active - {heap[0].what}
      ensures exists e :: e in rest && e.what == u
    {
      var e :| e in heap && e.what == u;
      assert e in rest;
    }
  }

  lemma {:induction false} SameObject(doc: Document, symbols: seq<Symbol>, containers: seq<Keyed>, next: nat, heap: seq<Keyed>,
                                      e: Keyed, f: Keyed)
    requires ContainersOf(doc, symbols, containers) && Objects(symbols) && next <= |containers|
    requires Held(symbols, containers, next, heap) && e in heap && f in heap && e.what == f.what
    ensures e.first == f.first
  {
    var c, d := containers[e.second], containers[f.second];
    assert c in containers && d in containers;
    assert symbols[c.what].uid == symbols[d.what].uid;
  }

  /** The containers among the first `next` are those that start before the offset. */
  ghost predicate Reached(containers: seq<Keyed>, next: nat, offset: int) {
    && next <= |containers|
    && (forall i :: 0 <= i < next ==> containers[i].first < offset)
    && (forall i :: next <= i < |containers| ==> containers[i].first >= offset)
  }

  lemma {:induction false} ActiveIsLocal(doc: Document, symbols: seq<Symbol>, containers: seq<Keyed>, next: nat, heap: seq<Keyed>, active: set<nat>, x: Symbol, u: nat)
    requires ContainersOf(doc, symbols, containers) && Reached(containers, next, doc.offset(x))
    requires Open(symbols, containers, next, doc.offset(x), heap, active)
    requires heap != [] ==> heap[0].first > doc.offset(x)
    requires u in active && u != x.uid
    ensures Local(doc, symbols, x)
  {
    var e :| e in heap && e.what == u;
    var k :| 0 <= k < |heap| && heap[k] == e;
    assert k == 0 || Precedes(heap[0], heap[k]);
    var c := containers[e.second];
    assert c in containers && e == Entry(symbols, containers, e.second);
    assert Covers(doc, symbols[c.what], x);
  }

  lemma {:induction false} LocalIsActive(doc: Document, symbols: seq<Symbol>, containers: seq<Keyed>, next: nat, heap: seq<Keyed>, active: set<nat>, x: Symbol)
    requires ContainersOf(doc, symbols, containers) && Reached(containers, next, doc.offset(x))
    requires Open(symbols, containers, next, doc.offset(x), heap, active)
    requires Local(doc, symbols, x)
    ensures exists u :: u in active && u != x.uid
  {
    var c :| c in symbols && Covers(doc, c, x) && c.uid != x.uid;
    var i :| 0 <= i < |symbols| && symbols[i] == c;
    var k := Keyed(doc.body(c).value.0, doc.body(c).value.1, i);
    assert k in containers;
    var j :| 0 <= j < |containers| && containers[j] == k;
    assert j < next;
    assert Entry(symbols, containers, j) in heap;
    assert c.uid in active;
  }

  /** When every entry reaches beyond the offset, the active identities decide. */
  lemma {:induction false} Decides(doc: Document, symbols: seq<Symbol>, containers: seq<Keyed>, next: nat, heap: seq<Keyed>, active: set<nat>, x: Symbol)
    requires ContainersOf(doc, symbols, containers) && Reached(containers, next, doc.offset(x))
    requires Open(symbols, containers, next, doc.offset(x), heap, active)
    requires heap != [] ==> heap[0].first > doc.offset(x)
    ensures OtherActive(active, x.uid) <==> Local(doc, symbols, x)
  {
    OtherActiveHolds(active, x.uid);
    if u :| u in active && u != x.uid {
      ActiveIsLocal(doc, symbols, containers, next, heap, active, x, u);
    }
    if Local(doc, symbols, x) {
      LocalIsActive(doc, symbols, containers, next, heap, active, x);
    }
  }

  /** Whether some identity other than `uid` is active, as the source tests it. */
  predicate OtherActive(active: set<nat>, uid: nat) {
    active != {} && (uid !in active || |active| > 1)
  }

  lemma {:induction false} OtherActiveHolds(active: set<nat>, uid: nat)
    ensures OtherActive(active, uid) <==> exists u :: u in active && u != uid
  {
    if uid in active {
      assert active == {uid} + (active - {uid});
      if |active| > 1 {
        assert |active - {uid}| > 0;
        var u :| u in active - {uid};
      }
    }
  }

  // ----- the method -----

  /** The item holds the body of one of the first `k` symbols, a top-level routine. */
  ghost predicate IsBodyOf(doc: Document, symbols: seq<Symbol>, k: nat, c: Keyed)
    requires k <= |symbols|
  {
    c.what < k && IsContainer(doc, symbols[c.what]) && doc.body(symbols[c.what]).value == (c.first, c.second)
  }

  /** The bodies of the top-level routines, in the order of their symbols. */
  method Containers(doc: Document, symbols: seq<Symbol>) returns (containers: seq<Keyed>)
    ensures forall c :: c in containers <==> IsBodyOf(doc, symbols, |symbols|, c)
  {
    containers := [];
    for i := 0 to |symbols|
      invariant forall c :: c in containers <==> IsBodyOf(doc, symbols, i, c)
    {
      var raw := symbols[i];
      if raw.parent != "" || !raw.isRoutine {
        continue;
      }
      var span := doc.body(raw);
      if span.Some? {
        containers := containers + [Keyed(span.value.0, span.value.1, i)];
      }
    }
  }

  /** Every symbol with its offset and its place. */
  function Positions(doc: Document, symbols: seq<Symbol>): (r: seq<Keyed>)
    ensures |r| == |symbols| && forall i :: 0 <= i < |r| ==> r[i] == Keyed(doc.offset(symbols[i]), i, i)
  {
    seq(|symbols|, i requires 0 <= i < |symbols| => Keyed(doc.offset(symbols[i]), i, i))
  }

  /** The places before `k` in the sweep whose symbols are local. */
  ghost predicate Excludes(doc: Document, symbols: seq<Symbol>, positioned: seq<Keyed>, k: nat, excluded: set<nat>)
    requires k <= |positioned| && forall p :: p in positioned ==> p.what < |symbols|
  {
    forall i: nat :: i in excluded <==> i < |symbols| && Local(doc, symbols, symbols[i]) && exists j :: 0 <= j < k && positioned[j].what == i
  }

  ghost predicate Passed(containers: seq<Keyed>, next: nat, offset: int) {
    next <= |containers| && forall i :: 0 <= i < next ==> containers[i].first < offset
  }

  /** The sweep may go on with the offset. */
  ghost predicate Ready(symbols: seq<Symbol>, containers: seq<Keyed>, next: nat, offset: int, heap: seq<Keyed>, active: set<nat>) {
    Passed(containers, next, offset) && Indexed(symbols, containers) && Open(symbols, containers, next, offset, heap, active)
  }

  /** A later offset opens and closes nothing by itself. */
  lemma {:induction false} Advances(symbols: seq<Symbol>, containers: seq<Keyed>, next: nat, offset: int, later: int, heap: seq<Keyed>, active: set<nat>)
    requires Indexed(symbols, containers) && Reached(containers, next, offset)
    requires Open(symbols, containers, next, offset, heap, active) && offset <= later
    ensures Ready(symbols, containers, next, later, heap, active)
  {
  }

  lemma {:induction false} PassedIsReached(containers: seq<Keyed>, next: nat, offset: int)
    requires InOrder(containers) && Passed(containers, next, offset)
    requires next < |containers| ==> containers[next].first >= offset
    ensures Reached(containers, next, offset)
  {
    assert forall i :: next < i < |containers| ==> Precedes(containers[next], containers[i]);
  }

  method Push(symbols: seq<Symbol>, containers: seq<Keyed>, ghost offset: int, next: nat, pending: seq<Keyed>, ids: set<nat>)
    returns (after: nat, heap: seq<Keyed>, active: set<nat>)
    requires Ready(symbols, containers, next, offset, pending, ids) && next < |containers| && containers[next].first < offset
    ensures after == next + 1 && Ready(symbols, containers, after, offset, heap, active)
  {
    Opens(symbols, containers, next, offset, pending, ids);
    after := next + 1;
    var id := symbols[containers[next].what].uid;
    heap := Insert(pending, Keyed(containers[next].second, next, id));
    active := ids + {id};
  }

  /** Opens what starts before the offset. */
  method OpenBefore(symbols: seq<Symbol>, containers: seq<Keyed>, offset: int, from: nat, pending: seq<Keyed>, ids: set<nat>)
    returns (next: nat, heap: seq<Keyed>, active: set<nat>)
    requires InOrder(containers) && Ready(symbols, containers, from, offset, pending, ids)
    ensures Reached(containers, next, offset) && Open(symbols, containers, next, offset, heap, active)
  {
    next, heap, active := from, pending, ids;
    while next < |containers| && containers[next].first < offset
      invariant Ready(symbols, containers, next, offset, heap, active)
      decreases |containers| - next
    {
      next, heap, active := Push(symbols, containers, offset, next, heap, active);
    }
    PassedIsReached(containers, next, offset);
  }

  /** Closes what ends at the offset or before. */
  method CloseBefore(doc: Document, symbols: seq<Symbol>, containers: seq<Keyed>, offset: int, next: nat, pending: seq<Keyed>, ids: set<nat>)
    returns (heap: seq<Keyed>, active: set<nat>)
    requires ContainersOf(doc, symbols, containers) && Objects(symbols) && next <= |containers|
    requires Open(symbols, containers, next, offset, pending, ids)
    ensures Open(symbols, containers, next, offset, heap, active)
    ensures heap != [] ==> heap[0].first > offset
  {
    heap, active := pending, ids;
    while heap != [] && heap[0].first <= offset
      invariant Open(symbols, containers, next, offset, heap, active)
      decreases |heap|
    {
      Closes(doc, symbols, containers, next, offset, heap, active);
      active := active - {heap[0].what};
      heap := heap[1..];
    }
  }

  /** Moves the sweep to the offset of `raw` and tells whether it is local. */
  method Meet(doc: Document, symbols: seq<Symbol>, containers: seq<Keyed>, raw: Symbol, from: nat, pending: seq<Keyed>, ids: set<nat>)
    returns (next: nat, heap: seq<Keyed>, active: set<nat>, inside: bool)
    requires ContainersOf(doc, symbols, containers) && Objects(symbols)
    requires Ready(symbols, containers, from, doc.offset(raw), pending, ids)
    ensures Reached(containers, next, doc.offset(raw)) && Open(symbols, containers, next, doc.offset(raw), heap, active)
    ensures inside <==> Local(doc, symbols, raw)
  {
    next, heap, active := OpenBefore(symbols, containers, doc.offset(raw), from, pending, ids);
    heap, active := CloseBefore(doc, symbols, containers, doc.offset(raw), next, heap, active);
    Decides(doc, symbols, containers, next, heap, active, raw);
    inside := OtherActive(active, raw.uid);
  }

  lemma {:induction false} Placed(doc: Document, symbols: seq<Symbol>, positioned: seq<Keyed>, k: nat)
    requires InOrder(positioned) && k < |positioned| && forall p :: p in positioned ==> p in Positions(doc, symbols)
    ensures positioned[k].what < |symbols| && positioned[k].first == doc.offset(symbols[positioned[k].what])
    ensures k > 0 ==> positioned[k - 1].first <= positioned[k].first
  {
    assert positioned[k] in positioned;
    assert k > 0 ==> Precedes(positioned[k - 1], positioned[k]);
  }

  /** The places of the local symbols. */
  method Sweep(doc: Document, symbols: seq<Symbol>, containers: seq<Keyed>) returns (excluded: set<nat>)
    requires ContainersOf(doc, symbols, containers) && Objects(symbols)
    ensures forall i: nat :: i in excluded <==> i < |symbols| && Local(doc, symbols, symbols[i])
  {
    var positioned := SortKeyed(Positions(doc, symbols));
    SortHolds(Positions(doc, symbols));
    excluded := {};
    var next: nat, heap: seq<Keyed>, active: set<nat> := 0, [], {};
    for k := 0 to |positioned|
      invariant k < |positioned| ==> Ready(symbols, containers, next, positioned[k].first, heap, active)
      invariant Excludes(doc, symbols, positioned, k, excluded)
    {
      var order := positioned[k].what;
      Placed(doc, symbols, positioned, k);
      var inside: bool;
      next, heap, active, inside := Meet(doc, symbols, containers, symbols[order], next, heap, active);
      ExcludesMore(doc, symbols, positioned, k, excluded);
      if inside {
        excluded := excluded + {order};
      }
      if k + 1 < |positioned| {
        Placed(doc, symbols, positioned, k + 1);
        Advances(symbols, containers, next, positioned[k].first, positioned[k + 1].first, heap, active);
      }
    }
    SweptAll(doc, symbols, positioned, excluded);
  }

  lemma {:induction false} ExcludesMore(doc: Document, symbols: seq<Symbol>, positioned: seq<Keyed>, k: nat, excluded: set<nat>)
    requires forall p :: p in positioned ==> p.what < |symbols|
    requires k < |positioned| && Excludes(doc, symbols, positioned, k, excluded)
    ensures var i := positioned[k].what;
            Excludes(doc, symbols, positioned, k + 1, if Local(doc, symbols, symbols[i]) then excluded + {i} else excluded)
  {
  }

  lemma {:induction false} SweptAll(doc: Document, symbols: seq<Symbol>, positioned: seq<Keyed>, excluded: set<nat>)
    requires forall p :: p in positioned <==> p in Positions(doc, symbols)
    requires Excludes(doc, symbols, positioned, |positioned|, excluded)
    ensures forall i: nat :: i in excluded <==> i < |symbols| && Local(doc, symbols, symbols[i])
  {
    forall i: nat | i < |symbols| && Local(doc, symbols, symbols[i])
      ensures i in excluded
    {
      assert Positions(doc, symbols)[i] in positioned;
      var j :| 0 <= j < |positioned| && positioned[j] == Positions(doc, symbols)[i];
      assert positioned[j].what == i;
    }
  }

  /** A symbol is dropped exactly if it lies strictly inside the body of a top-level routine
      other than itself; the others keep their order. */
  method ExcludeRoutineLocals(doc: Document, symbols: seq<Symbol>) returns (r: seq<Symbol>)
    requires Objects(symbols)
    ensures r == Kept(doc, symbols, symbols)
  {
    var found := Containers(doc, symbols);
    if |found| == 0 {
      assert forall c :: !IsBodyOf(doc, symbols, |symbols|, c) by {
        assert forall c :: c !in found;
      }
      NothingLocal(doc, symbols, symbols);
      return symbols;
    }
    var containers := SortKeyed(found);
    SortHolds(found);
    var excluded := Sweep(doc, symbols, containers);
    r := [];
    for order := 0 to |symbols|
      invariant r == Kept(doc, symbols, symbols[..order])
    {
      assert symbols[..order + 1][..order] == symbols[..order];
      if order !in excluded {
        r := r + [symbols[order]];
      }
    }
    assert symbols[..|symbols|] == symbols;
  }

  lemma {:induction false} NothingLocal(doc: Document, symbols: seq<Symbol>, part: seq<Symbol>)
    requires forall c :: !IsBodyOf(doc, symbols, |symbols|, c)
    ensures Kept(doc, symbols, part) == part
  {
    if part != [] {
      NothingLocal(doc, symbols, part[..|part| - 1]);
      var x := part[|part| - 1];
      if Local(doc, symbols, x) {
        var c :| c in symbols && Covers(doc, c, x) && c.uid != x.uid;
        var i :| 0 <= i < |symbols| && symbols[i] == c;
        assert IsBodyOf(doc, symbols, |symbols|, Keyed(doc.body(c).value.0, doc.body(c).value.1, i));
      }
    }
  }

  /** The kept symbols are exactly those that are not local. */
  lemma {:induction false} KeptHolds(doc: Document, symbols: seq<Symbol>, part: seq<Symbol>)
    ensures forall x :: x in Kept(doc, symbols, part) <==> x in part && !Local(doc, symbols, x)
    ensures |Kept(doc, symbols, part)| <= |part|
  {
    if part != [] {
      KeptHolds(doc, symbols, part[..|part| - 1]);
      assert part == part[..|part| - 1] + [part[|part| - 1]];
    }
  }
}
