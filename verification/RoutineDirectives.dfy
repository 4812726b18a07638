/** When the spans that a search records are nested or disjoint: if from behind each heading the
    search runs straight on to the end of the declaration's directives, or ends before. What the
    directives of one declaration have to meet for this, whatever stands around them, is exact. */
module RoutineDirectives {
  import opened RoutineNesting
  import opened RoutineSearch
  import opened Wrappers

  // ----- straight declarations -----

  /** From `j` on every token just leads on until the search is at `past`, or it ends before: it
      meets no declared routine and does not jump beyond. */
  predicate Straight(sites: Sites, j: nat, past: nat)
    decreases |sites| + 2 - j
  {
    if j >= past then j == past
    else if j >= |sites| then true
    else
      match sites[j].move
      case Done(_) => true
      case Go(next) => Straight(sites, next, past)
      case Nested => false
  }

  predicate StraightAt(sites: Sites, i: nat)
    requires i < |sites|
  {
    sites[i].move.Nested? && sites[i].heading.Some? ==> Straight(sites, sites[i].heading.value + 1, sites[i].past)
  }

  /** Every declared routine is straight. */
  predicate AllStraight(sites: Sites) {
    forall i :: 0 <= i < |sites| ==> StraightAt(sites, i)
  }

  /** The token ends the search or leads to the next one. */
  predicate LeadsToNext(sites: Sites, k: nat) {
    k < |sites| && (sites[k].move.Done? || sites[k].move == Go(k + 1))
  }

  lemma {:induction false} NextByNext(sites: Sites, j: nat, past: nat)
    requires j <= past && forall k: nat :: j <= k < past ==> LeadsToNext(sites, k)
    ensures Straight(sites, j, past)
    decreases past - j
  {
    if j < past {
      assert LeadsToNext(sites, j);
      NextByNext(sites, j + 1, past);
    }
  }

  /** A straight search settles nothing and ends, or does what it does from `past`. */
  lemma {:induction false} StraightOn(sites: Sites, known: Spans, j: nat, past: nat)
    requires Straight(sites, j, past)
    ensures || SettledFrom(sites, known, j) == []
            || (SettledFrom(sites, known, j) == SettledFrom(sites, known, past)
                && ScanWith(sites, known, j) == ScanWith(sites, known, past))
    decreases |sites| + 2 - j
  {
    if j < past && j < |sites| && sites[j].move.Go? {
      StraightOn(sites, known, sites[j].move.next, past);
    }
  }

  // ----- straight declarations make nested spans -----

  ghost predicate NoneCross(sites: Sites, known: Spans, order: seq<nat>) {
    forall x, y :: x in order && y in order ==> !Cross(sites, known, x, y)
  }

  /** A search that finds a body has passed all bodies that it settled. */
  lemma {:induction false} BodiesEndBefore(sites: Sites, known: Spans, i: nat, x: nat)
    requires AllStraight(sites) && ScanWith(sites, known, i).Body? && x in SettledFrom(sites, known, i)
    ensures BodyIndex(sites, known, x) <= StopWith(sites, known, i)
    decreases |sites| + 2 - i
  {
    match sites[i].move
    case Go(next) => BodiesEndBefore(sites, known, next, x);
    case Nested =>
      if i in known {
        BodiesEndBefore(sites, known, Follow(sites, i, known[i]), x);
      } else {
        SettledMembers(sites, known, i);
        VisitMembers(sites, known, i);
        var next := Resume(sites, i, OutcomeWith(sites, known, i));
        if x in SettledFrom(sites, known, next) {
          BodiesEndBefore(sites, known, next, x);
        } else if x in Inside(sites, known, i) {
          InsideEndsBefore(sites, known, i, x);
        }
      }
  }

  /** Inside a routine that has a body, or of which the search goes on to find one. */
  lemma {:induction false} InsideEndsBefore(sites: Sites, known: Spans, i: nat, x: nat)
    requires AllStraight(sites) && i < |sites| && sites[i].move.Nested? && x in Inside(sites, known, i)
    requires x !in SettledFrom(sites, known, Resume(sites, i, OutcomeWith(sites, known, i)))
    requires !OutcomeWith(sites, known, i).Reject?
    ensures BodyIndex(sites, known, x) <= Resume(sites, i, OutcomeWith(sites, known, i))
    decreases |sites| + 2 - i, 1
  {
    assert StraightAt(sites, i);
    if OutcomeWith(sites, known, i).Body? {
      BodyContains(sites, known, i, x);
    } else {
      StraightOn(sites, known, sites[i].heading.value + 1, sites[i].past);
    }
  }

  /** A body contains those settled while looking for it. */
  lemma {:induction false} BodyContains(sites: Sites, known: Spans, i: nat, x: nat)
    requires AllStraight(sites) && i < |sites| && OutcomeWith(sites, known, i).Body? && x in Inside(sites, known, i)
    ensures BodyIndex(sites, known, x) < BodyIndex(sites, known, i)
    decreases |sites| + 2 - i, 0
  {
    var from := sites[i].heading.value + 1;
    BodiesEndBefore(sites, known, from, x);
    BodyBehindStop(sites, known, from);
  }

  lemma {:induction false} VisitNests(sites: Sites, known: Spans, i: nat)
    requires AllStraight(sites) && i < |sites|
    ensures NoneCross(sites, known, Visit(sites, known, i))
    decreases |sites| + 2 - i, 0
  {
    VisitMembers(sites, known, i);
    if sites[i].heading.Some? {
      SettledNests(sites, known, sites[i].heading.value + 1);
    }
    forall x | x in Inside(sites, known, i)
      ensures !Cross(sites, known, x, i) && !Cross(sites, known, i, x)
    {
      if OutcomeWith(sites, known, i).Body? {
        BodyContains(sites, known, i, x);
      }
    }
  }

  /** Of the routines settled by a search over straight declarations no two bodies cross. */
  lemma {:induction false} SettledNests(sites: Sites, known: Spans, i: nat)
    requires AllStraight(sites)
    ensures NoneCross(sites, known, SettledFrom(sites, known, i))
    decreases |sites| + 2 - i
  {
    if i < |sites| {
      match sites[i].move
      case Done(_) =>
      case Go(next) => SettledNests(sites, known, next);
      case Nested =>
        if i in known {
          SettledNests(sites, known, Follow(sites, i, known[i]));
        } else {
          VisitNests(sites, known, i);
          SettledMembers(sites, known, i);
          if !OutcomeWith(sites, known, i).Reject? {
            var next := Resume(sites, i, OutcomeWith(sites, known, i));
            SettledNests(sites, known, next);
            forall x, y | x in Visit(sites, known, i) && y in SettledFrom(sites, known, next)
              ensures !Cross(sites, known, x, y) && !Cross(sites, known, y, x)
            {
              BehindDoesNotCross(sites, known, i, x, y);
            }
          }
        }
    }
  }

  /** What is settled behind a routine does not cross what was settled with it. */
  lemma {:induction false} BehindDoesNotCross(sites: Sites, known: Spans, i: nat, x: nat, y: nat)
    requires AllStraight(sites) && i < |sites| && sites[i].move.Nested? && !OutcomeWith(sites, known, i).Reject?
    requires x in Visit(sites, known, i) && y in SettledFrom(sites, known, Resume(sites, i, OutcomeWith(sites, known, i)))
    requires NoneCross(sites, known, SettledFrom(sites, known, Resume(sites, i, OutcomeWith(sites, known, i))))
    ensures !Cross(sites, known, x, y) && !Cross(sites, known, y, x)
  {
    var next := Resume(sites, i, OutcomeWith(sites, known, i));
    VisitMembers(sites, known, i);
    if x !in SettledFrom(sites, known, next) {
      if x != i {
        InsideEndsBefore(sites, known, i, x);
      }
      var k :| 0 <= k < |SettledFrom(sites, known, next)| && SettledFrom(sites, known, next)[k] == y;
      SettledInPlace(sites, known, next, k);
    }
  }

  /** Over straight declarations the spans that a search adds to any cache are pairwise nested or
      disjoint. */
  lemma {:induction false} StraightNests(sites: Sites, known: Spans, r: nat, spans: Spans)
    requires AllStraight(sites) && r < |sites| && Grown(sites, known, spans) && Recorded(sites, known, r, spans)
    ensures Laminar(Added(known, spans))
  {
    var added := Added(known, spans);
    VisitNests(sites, known, r);
    forall a, b | a in added && b in added && a < b && added[a].Some? && added[b].Some?
      ensures added[a].value.index <= b || added[b].value.index <= added[a].value.index
    {
      assert GrownAt(sites, known, spans, a) && GrownAt(sites, known, spans, b);
      assert a in Visit(sites, known, r) && b in Visit(sites, known, r);
      assert !Overruns(sites, known, a, b);
    }
  }

  // ----- for one declaration, straightness is exactly what it takes -----

  /** Where the search from `j` stops just leading on: at `past` or beyond, where it ends, or at a
      declared routine. */
  function WalkEnd(sites: Sites, j: nat, past: nat): (r: nat)
    ensures j <= r
    decreases |sites| + 2 - j
  {
    if j < past && j < |sites| && sites[j].move.Go? then WalkEnd(sites, sites[j].move.next, past) else j
  }

  lemma {:induction false} StraightWalk(sites: Sites, j: nat, past: nat)
    requires past <= |sites|
    ensures var e := WalkEnd(sites, j, past);
            Straight(sites, j, past) <==> e == past || (e < past && sites[e].move.Done?)
    decreases |sites| + 2 - j
  {
    if j < past && sites[j].move.Go? {
      StraightWalk(sites, sites[j].move.next, past);
    }
  }

  /** The same declaration at `i`: its heading, its end, and what its directives decide. */
  ghost predicate SameDeclaration(a: Sites, b: Sites, i: nat)
    requires i < |a| && a[i].heading.Some? && a[i].past <= |a|
  {
    && i < |b| && b[i] == a[i] && a[i].past <= |b|
    && forall k :: a[i].heading.value < k < a[i].past ==> b[k].move == a[k].move
  }

  lemma {:induction false} SameWalk(a: Sites, b: Sites, i: nat, j: nat)
    requires i < |a| && a[i].heading.Some? && a[i].past <= |a| && SameDeclaration(a, b, i) && a[i].heading.value < j
    ensures WalkEnd(b, j, a[i].past) == WalkEnd(a, j, a[i].past)
    ensures Straight(b, j, a[i].past) <==> Straight(a, j, a[i].past)
    decreases |a| + 2 - j
  {
    if j < a[i].past && a[j].move.Go? {
      SameWalk(a, b, i, a[j].move.next);
    }
  }

  /** The search from `j` does what it does from where the walk ends. */
  lemma {:induction false} WalkLeads(sites: Sites, known: Spans, j: nat, past: nat)
    ensures SettledFrom(sites, known, j) == SettledFrom(sites, known, WalkEnd(sites, j, past))
    ensures ScanWith(sites, known, j) == ScanWith(sites, known, WalkEnd(sites, j, past))
    decreases |sites| + 2 - j
  {
    if j < past && j < |sites| && sites[j].move.Go? {
      WalkLeads(sites, known, sites[j].move.next, past);
    }
  }

  /** With the same declaration at `i` among straight ones, no two bodies cross. */
  ghost predicate NestsAmong(sites: Sites, i: nat, others: Sites, known: Spans, r: nat)
    requires i < |sites| && sites[i].heading.Some? && sites[i].past <= |sites|
  {
    SameDeclaration(sites, others, i) && (forall j :: 0 <= j < |others| && j != i ==> StraightAt(others, j)) && r < |others| ==>
      NoneCross(others, known, Visit(others, known, r))
  }

  /** A list around the declaration at `i`, whose walk ends at `e`. The routine at 0 leads to `i`; a
      routine at `e` has a body, behind which a directive denies `i` one; and the search goes back to
      a routine at the end of the declaration, whose body ends beyond the first one or within it. */
  function Around(sites: Sites, i: nat, e: nat): (r: Sites)
    requires 2 <= i < |sites| && sites[i].heading.Some? && sites[i].heading.value < e
    requires sites[i].past <= |sites| && e != sites[i].past && sites[i].heading.value < sites[i].past
    ensures |r| == Max(sites[i].past, e) + 14
    ensures forall t :: 0 <= t < |r| ==> r[t] == AroundAt(sites, i, e, t)
  {
    seq(Max(sites[i].past, e) + 14, t requires 0 <= t < Max(sites[i].past, e) + 14 => AroundAt(sites, i, e, t))
  }

  function AroundAt(sites: Sites, i: nat, e: nat, t: nat): (s: Site)
    requires 2 <= i < |sites| && sites[i].heading.Some? && sites[i].heading.value < e
    requires sites[i].past <= |sites| && e != sites[i].past && sites[i].heading.value < sites[i].past
    ensures LeadsOn(s, t)
  {
    var heading, past := sites[i].heading.value, sites[i].past;
    var base := Max(past, e) + 1;
    if t == 0 then Site(0, Go(1), Some(i - 1), 1)
    else if t == i then sites[i]
    else if t == e then Site(t, Nested, Some(base + 3), base + 4)
    else if t == past then Site(t, Nested, Some(base + 5), base + 6)
    else if heading < t < past then Site(t, sites[t].move, None, t + 1)
    else if t == base + 4 then Site(t, Done(Body(0, base + 10)), None, t + 1)
    else if t == base + 6 then Site(t, Done(Body(0, if e < past then base + 12 else base + 8)), None, t + 1)
    else if t == base + 10 then Site(t, Done(NoBody), None, t + 1)
    else Site(t, Go(t + 1), None, t + 1)
  }

  /** What the search looks at in that list. */
  ghost predicate AroundFacts(a: Sites, i: nat, heading: nat, past: nat, e: nat, base: nat) {
    && 2 <= i < heading && heading < past && heading < e && e != past && base == Max(past, e) + 1 && |a| == base + 13
    && a[0].heading == Some(i - 1) && a[i].move == Nested && a[i].heading == Some(heading) && a[i].past == past
    && a[e].move == Nested && a[e].heading == Some(base + 3) && a[past].move == Nested && a[past].heading == Some(base + 5)
    && a[base + 4].move == Done(Body(0, base + 10)) && a[base + 10].move == Done(NoBody)
    && a[base + 6].move == Done(Body(0, if e < past then base + 12 else base + 8))
    && WalkEnd(a, heading + 1, past) == e
  }

  /** The declaration at `i`, whose walk goes astray at `e`. */
  ghost predicate Astray(sites: Sites, i: nat, heading: nat, past: nat, e: nat) {
    && 2 <= i < |sites| && sites[i].move.Nested? && sites[i].heading == Some(heading) && sites[i].past == past
    && heading < past <= |sites| && heading < e && e != past && e == WalkEnd(sites, heading + 1, past)
    && (e < past ==> sites[e].move.Nested?)
  }

  lemma {:induction false} NotStraightGoesAstray(sites: Sites, i: nat) returns (e: nat)
    requires 2 <= i < |sites| && sites[i].move.Nested? && sites[i].heading.Some?
    requires sites[i].heading.value < sites[i].past <= |sites| && !StraightAt(sites, i)
    ensures Astray(sites, i, sites[i].heading.value, sites[i].past, e)
  {
    var from, past := sites[i].heading.value + 1, sites[i].past;
    StraightWalk(sites, from, past);
    WalkStops(sites, from, past);
    e := WalkEnd(sites, from, past);
  }

  lemma {:induction false} AroundIsSame(sites: Sites, i: nat, heading: nat, past: nat, e: nat)
    requires Astray(sites, i, heading, past, e)
    ensures SameDeclaration(sites, Around(sites, i, e), i)
  {
  }

  lemma {:induction false} AroundIsStraight(sites: Sites, i: nat, heading: nat, past: nat, e: nat, j: nat)
    requires Astray(sites, i, heading, past, e) && j < |Around(sites, i, e)| && j != i
    ensures StraightAt(Around(sites, i, e), j)
  {
    assert Around(sites, i, e)[j] == AroundAt(sites, i, e, j);
  }

  lemma {:induction false} AroundHolds(sites: Sites, i: nat, heading: nat, past: nat, e: nat, base: nat)
    requires Astray(sites, i, heading, past, e) && base == Max(past, e) + 1
    ensures AroundFacts(Around(sites, i, e), i, heading, past, e, base)
  {
    AroundIsSame(sites, i, heading, past, e);
    SameWalk(sites, Around(sites, i, e), i, heading + 1);
  }

  lemma {:induction false} WalkStops(sites: Sites, j: nat, past: nat)
    requires past <= |sites|
    ensures var e := WalkEnd(sites, j, past); e < past ==> !sites[e].move.Go?
    decreases |sites| + 2 - j
  {
    if j < past && sites[j].move.Go? {
      WalkStops(sites, sites[j].move.next, past);
    }
  }

  lemma {:induction false} AroundOutcomes(a: Sites, i: nat, heading: nat, past: nat, e: nat, base: nat, end: nat)
    requires AroundFacts(a, i, heading, past, e, base) && end == base + 10
    ensures BodyIndex(a, map[], e) == end && BodyIndex(a, map[], past) == if e < past then base + 12 else base + 8
    ensures OutcomeWith(a, map[], i) == NoBody
  {
    var body := Body(0, end);
    assert OutcomeWith(a, map[], e) == body;
    assert OutcomeWith(a, map[], past) == Body(0, if e < past then base + 12 else base + 8);
    assert ScanWith(a, map[], end) == NoBody && Resume(a, e, body) == end;
    assert ScanWith(a, map[], e) == NoBody;
    WalkLeads(a, map[], heading + 1, past);
  }

  lemma {:induction false} SettledHere(sites: Sites, known: Spans, i: nat)
    requires i < |sites| && sites[i].move == Nested && i !in known
    ensures i in SettledFrom(sites, known, i)
  {
    SettledMembers(sites, known, i);
    VisitMembers(sites, known, i);
  }

  lemma {:induction false} AroundVisits(a: Sites, i: nat, heading: nat, past: nat, e: nat, base: nat)
    requires AroundFacts(a, i, heading, past, e, base) && OutcomeWith(a, map[], i) == NoBody
    ensures e in Visit(a, map[], 0) && past in Visit(a, map[], 0)
  {
    WalkLeads(a, map[], heading + 1, past);
    SettledHere(a, map[], e);
    SettledHere(a, map[], past);
    SettledMembers(a, map[], i);
    VisitMembers(a, map[], i);
    VisitMembers(a, map[], 0);
  }

  lemma {:induction false} AstrayCrosses(sites: Sites, i: nat, heading: nat, past: nat, e: nat)
    requires Astray(sites, i, heading, past, e)
    ensures !NestsAmong(sites, i, Around(sites, i, e), map[], 0)
  {
    var a := Around(sites, i, e);
    AroundIsSame(sites, i, heading, past, e);
    forall j | 0 <= j < |a| && j != i
      ensures StraightAt(a, j)
    {
      AroundIsStraight(sites, i, heading, past, e, j);
    }
    var base := Max(past, e) + 1;
    AroundHolds(sites, i, heading, past, e, base);
    AroundOutcomes(a, i, heading, past, e, base, base + 10);
    AroundVisits(a, i, heading, past, e, base);
    assert Cross(a, map[], e, past);
  }

  lemma {:induction false} StraightNestsAmong(sites: Sites, i: nat, others: Sites, known: Spans, r: nat)
    requires i < |sites| && sites[i].move.Nested? && sites[i].heading.Some? && sites[i].past <= |sites| && StraightAt(sites, i)
    ensures NestsAmong(sites, i, others, known, r)
  {
    if SameDeclaration(sites, others, i) && (forall j :: 0 <= j < |others| && j != i ==> StraightAt(others, j)) && r < |others| {
      SameWalk(sites, others, i, sites[i].heading.value + 1);
      VisitNests(others, known, r);
    }
  }

  /** A declaration is straight if and only if no two bodies cross in any search, over any list that
      holds the declaration and is straight elsewhere, from any cache. */
  lemma {:induction false} StraightIsExact(sites: Sites, i: nat)
    requires 2 <= i < |sites| && sites[i].move.Nested? && sites[i].heading.Some?
    requires sites[i].heading.value < sites[i].past <= |sites|
    ensures StraightAt(sites, i) <==> forall others, known, r :: NestsAmong(sites, i, others, known, r)
  {
    if StraightAt(sites, i) {
      forall others: Sites, known: Spans, r: nat
        ensures NestsAmong(sites, i, others, known, r)
      {
        StraightNestsAmong(sites, i, others, known, r);
      }
    } else {
      var e := NotStraightGoesAstray(sites, i);
      AstrayCrosses(sites, i, sites[i].heading.value, sites[i].past, e);
    }
  }
}
