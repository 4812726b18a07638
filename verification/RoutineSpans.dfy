/** The search for routine bodies over tokens, as the program runs it. */
module RoutineSpans {
  import opened RoutineBlocks
  import opened RoutineDirectives
  import opened RoutineNesting
  import opened RoutineSearch
  import opened RoutineShapes
  import opened RoutineSites
  import opened RoutineTokens
  import opened Wrappers

  /** The span that the definition gives for the routine found from `start`. */
  function Expected(ts: Tokens, start: nat): Option<Span>
    requires Ordered(ts)
  {
    var r := RoutineKeywordIndex(ts, start);
    if r.None? then None
    else From(ts, start, SpanOf(SitesOf(ts), r.value, OutcomeOf(SitesOf(ts), r.value)))
  }

  /** The span that the definition gives when it reads recorded routines off the cache. */
  function ExpectedWith(ts: Tokens, known: Spans, start: nat): Option<Span>
    requires Ordered(ts)
  {
    var r := RoutineKeywordIndex(ts, start);
    if r.None? then None else From(ts, start, AnswerWith(SitesOf(ts), known, r.value))
  }

  /** A span told from the token where the search began. */
  function From(ts: Tokens, start: nat, span: Option<Span>): Option<Span>
    requires start < |ts|
  {
    if span.None? then None else Some(span.value.(start := ts[start].start))
  }

  /** The one case in which a cache misleads: an entry records a body for a routine on which
      the definition gives up, or the search passes such a routine's entry and finds a body. */
  predicate Misled(ts: Tokens, known: Spans, start: nat)
    requires Ordered(ts)
  {
    var sites, r := SitesOf(ts), RoutineKeywordIndex(ts, start);
    && r.Some?
    && if r.value in known then known[r.value].Some? && OutcomeOf(sites, r.value).Reject?
       else
         var heading := HeadingEnd(ts, r.value);
         && heading.Some? && PassesAbandoned(sites, known, heading.value + 1)
         && ScanWith(sites, known, heading.value + 1).Body?
  }

  /** A search over a faithful cache agrees with the definition exactly when the cache does
      not mislead it, and so always when the definition does not give up. */
  lemma {:induction false} AgreesUnlessMisled(ts: Tokens, known: Spans, start: nat)
    requires Ordered(ts) && Faithful(SitesOf(ts), known)
    ensures ExpectedWith(ts, known, start) == Expected(ts, start) <==> !Misled(ts, known, start)
    ensures Misled(ts, known, start) ==> Expected(ts, start) == None
  {
    var sites, r := SitesOf(ts), RoutineKeywordIndex(ts, start);
    if r.Some? {
      if r.value in known {
        EntryAgreesExactly(sites, known, r.value);
      } else {
        AgreesExactly(sites, known, r.value);
      }
    }
  }

  /** A search over a right cache agrees with the definition if the definition gives up on no
      recorded routine, and so over the empty cache. */
  lemma {:induction false} UntaintedAgrees(ts: Tokens, known: Spans, start: nat)
    requires Ordered(ts) && Faithful(SitesOf(ts), known) && Untainted(SitesOf(ts), known)
    ensures ExpectedWith(ts, known, start) == Expected(ts, start) && !Misled(ts, known, start)
  {
    var r := RoutineKeywordIndex(ts, start);
    if r.Some? {
      UntaintedIsPlain(SitesOf(ts), known, r.value);
    }
    AgreesUnlessMisled(ts, known, start);
  }

  lemma {:induction false} EmptyAgrees(ts: Tokens, start: nat)
    requires Ordered(ts)
    ensures ExpectedWith(ts, map[], start) == Expected(ts, start)
    ensures Faithful(SitesOf(ts), map[]) && Untainted(SitesOf(ts), map[])
  {
    UntaintedAgrees(ts, map[], start);
  }

  // ----- the answer, told from the tokens -----

  /** A routine of one of the known shapes has the span from `start` to behind the END of its body, or
      none. */
  ghost predicate Answers(ts: Tokens, start: nat, r: Option<Span>) {
    && (forall q: nat, j: nat, e: nat :: StartsAt(ts, start, q) && HasBodyAt(ts, q, j, e) ==>
          e < |ts| && start < |ts| && r == Some(Span(ts[start].start, BehindEnd(ts, e), Behind(ts, e))))
    && forall q: nat, h: nat, k: nat :: StartsAt(ts, start, q) && LacksBody(ts, q, h, k) ==> r == None
  }

  lemma {:induction false} ExpectedAnswers(ts: Tokens, start: nat)
    requires Ordered(ts)
    ensures Answers(ts, start, Expected(ts, start))
  {
    var sites, r := SitesOf(ts), Expected(ts, start);
    forall q: nat, j: nat, e: nat | StartsAt(ts, start, q) && HasBodyAt(ts, q, j, e)
      ensures e < |ts| && start < |ts| && r == Some(Span(ts[start].start, BehindEnd(ts, e), Behind(ts, e)))
    {
      StartIsFound(ts, start, q);
      BodyIsFound(ts, sites, q, j, e);
    }
    forall q: nat, h: nat, k: nat | StartsAt(ts, start, q) && LacksBody(ts, q, h, k)
      ensures r == None
    {
      StartIsFound(ts, start, q);
      NoBodyIsFound(ts, sites, q, h, k);
    }
  }

  // ----- directives that make spans nest -----

  predicate DeclaresRoutine(ts: Tokens, i: nat)
    requires i < |ts|
  {
    IsKeyword(ts[i], ROUTINE_WORDS) && IsNestedDeclaration(ts, i)
  }

  /** The tokens from behind the heading at `i` to the end of its directives declare no routine and
      open no structured type. */
  predicate PlainAt(ts: Tokens, i: nat)
    requires i < |ts|
  {
    var heading, end := HeadingEnd(ts, i), DeclarationEnd(ts, i);
    heading.Some? && end.Some? ==>
      forall k :: heading.value < k <= end.value ==> !DeclaresRoutine(ts, k) && !OpensStructured(ts, k)
  }

  predicate PlainDirectives(ts: Tokens) {
    forall i :: 0 <= i < |ts| && DeclaresRoutine(ts, i) ==> PlainAt(ts, i)
  }

  /** From behind each heading the tokens lead straight to the end of the directives, or end the search. */
  predicate StraightDirectives(ts: Tokens)
    requires Ordered(ts)
  {
    AllStraight(SitesOf(ts))
  }

  lemma {:induction false} PlainLeadsOn(ts: Tokens, sites: Sites, k: nat)
    requires Ordered(ts) && sites == SitesOf(ts) && k < |ts| && !DeclaresRoutine(ts, k) && !OpensStructured(ts, k)
    ensures LeadsToNext(sites, k)
  {
  }

  lemma {:induction false} PlainWalk(ts: Tokens, sites: Sites, first: nat, past: nat)
    requires Ordered(ts) && sites == SitesOf(ts) && first <= past <= |ts|
    requires forall k :: first <= k < past ==> !DeclaresRoutine(ts, k) && !OpensStructured(ts, k)
    ensures Straight(sites, first, past)
  {
    forall k: nat | first <= k < past
      ensures LeadsToNext(sites, k)
    {
      PlainLeadsOn(ts, sites, k);
    }
    NextByNext(sites, first, past);
  }

  lemma {:induction false} NestedDeclares(ts: Tokens, sites: Sites, i: nat)
    requires Ordered(ts) && sites == SitesOf(ts) && i < |ts| && sites[i].move.Nested? && sites[i].heading.Some?
    ensures DeclaresRoutine(ts, i) && HeadingEnd(ts, i) == sites[i].heading
    ensures DeclarationEnd(ts, i).Some? && sites[i].past == DeclarationEnd(ts, i).value + 1
    ensures sites[i].heading.value < sites[i].past <= |ts|
  {
  }

  lemma {:induction false} PlainPart(ts: Tokens, i: nat, first: nat, past: nat)
    requires Ordered(ts) && PlainDirectives(ts) && i < |ts| && DeclaresRoutine(ts, i)
    requires HeadingEnd(ts, i).Some? && first == HeadingEnd(ts, i).value + 1
    requires DeclarationEnd(ts, i).Some? && past == DeclarationEnd(ts, i).value + 1
    ensures forall k :: first <= k < past ==> !DeclaresRoutine(ts, k) && !OpensStructured(ts, k)
  {
    assert PlainAt(ts, i);
  }

  lemma {:induction false} PlainSite(ts: Tokens, sites: Sites, i: nat)
    requires Ordered(ts) && sites == SitesOf(ts) && PlainDirectives(ts) && i < |ts|
    ensures StraightAt(sites, i)
  {
    if sites[i].move.Nested? && sites[i].heading.Some? {
      NestedDeclares(ts, sites, i);
      var first, past := sites[i].heading.value + 1, sites[i].past;
      PlainPart(ts, i, first, past);
      PlainWalk(ts, sites, first, past);
    }
  }

  /** Directives without declarations and structured types are straight. */
  lemma {:induction false} PlainIsStraight(ts: Tokens)
    requires Ordered(ts) && PlainDirectives(ts)
    ensures StraightDirectives(ts)
  {
    var sites := SitesOf(ts);
    forall i | 0 <= i < |ts|
      ensures StraightAt(sites, i)
    {
      PlainSite(ts, sites, i);
    }
  }

  /** What a search leaves in the cache. */
  ghost predicate Leaves(ts: Tokens, known: Spans, routine: nat, spans: Spans)
    requires Ordered(ts) && routine < |ts|
  {
    && Recorded(SitesOf(ts), known, routine, spans)
    && (StraightDirectives(ts) || PlainDirectives(ts) ==> Laminar(Added(known, spans)))
    && (Laminar(Added(known, spans)) <==> !CrossesBack(SitesOf(ts), known, Visit(SitesOf(ts), known, routine)))
  }

  lemma {:induction false} SearchLeaves(ts: Tokens, known: Spans, routine: nat, spans: Spans)
    requires Ordered(ts) && routine < |ts| && Grown(SitesOf(ts), known, spans) && Recorded(SitesOf(ts), known, routine, spans)
    ensures Leaves(ts, known, routine, spans)
  {
    NestsUnlessGoneBack(SitesOf(ts), known, routine, spans);
    if PlainDirectives(ts) {
      PlainIsStraight(ts);
    }
    if StraightDirectives(ts) {
      StraightNests(SitesOf(ts), known, routine, spans);
    }
  }

  /** The cache is right, and the definition gives up on no recorded routine. */
  ghost predicate Clean(ts: Tokens, spans: Spans)
    requires Ordered(ts)
  {
    Faithful(SitesOf(ts), spans) && Untainted(SitesOf(ts), spans)
  }

  /** A token list with the cache of routine spans that searches over it share. */
  class SpanSearch {
    const tokens: Tokens
    var spans: Spans

    constructor (ts: Tokens)
      ensures tokens == ts && spans == map[]
    {
      tokens := ts;
      spans := map[];
    }

    /** The span of the routine found from `start`, whatever the cache holds: the definition's
        that reads recorded routines off the cache. The cache keeps its entries and gains only
        that definition's. From an empty cache, and from any clean one, the span is that of the plain
        definition, and the cache stays clean exactly if the definition does not give up on the
        routine. With straight directives the spans the cache gains are pairwise nested or disjoint. */
    method Find(start: nat) returns (r: Option<Span>)
      requires Ordered(tokens)
      modifies this
      ensures r == ExpectedWith(tokens, old(spans), start)
      ensures Grown(SitesOf(tokens), old(spans), spans)
      ensures var k := RoutineKeywordIndex(tokens, start);
              if k.None? || k.value in old(spans) then spans == old(spans)
              else k.value in spans && Leaves(tokens, old(spans), k.value, spans)
      ensures old(spans) == map[] ==> Clean(tokens, old(spans)) && r == Expected(tokens, start)
      ensures Clean(tokens, old(spans)) ==>
                var k := RoutineKeywordIndex(tokens, start);
                && r == Expected(tokens, start) && Answers(tokens, start, r)
                && (Clean(tokens, spans) <==> k.None? || !OutcomeOf(SitesOf(tokens), k.value).Reject?)
      ensures Faithful(SitesOf(tokens), old(spans)) ==> Faithful(SitesOf(tokens), spans)
      ensures Faithful(SitesOf(tokens), old(spans)) ==> (r == Expected(tokens, start) <==> !Misled(tokens, old(spans), start))
    {
      ghost var sites, known := SitesOf(tokens), spans;
      if Faithful(sites, known) {
        AgreesUnlessMisled(tokens, known, start);
        if Untainted(sites, known) {
          UntaintedAgrees(tokens, known, start);
          ExpectedAnswers(tokens, start);
        }
      }
      var found := RoutineKeywordIndex(tokens, start);
      if found.None? {
        return None;
      }
      var routine := found.value;
      if routine !in spans {
        Run(routine);
        SearchLeaves(tokens, known, routine, spans);
        if Clean(tokens, known) {
          UntaintedStays(sites, known, routine, spans);
        }
      }
      if Faithful(sites, known) {
        GrownIsFaithful(sites, known, spans);
      }
      assert GrownAt(sites, known, spans, routine);
      var span := spans[routine];
      return if span.None? then None else Some(Span(tokens[start].start, span.value.end, span.value.index));
    }

    /** Settles the routine. */
    method Run(routine: nat)
      requires Ordered(tokens) && routine < |tokens| && routine !in spans
      modifies this
      ensures routine in spans && Grown(SitesOf(tokens), old(spans), spans)
      ensures Recorded(SitesOf(tokens), old(spans), routine, spans)
    {
      ghost var sites, known := SitesOf(tokens), spans;
      var heading := HeadingEnd(tokens, routine);
      if heading.None? {
        spans := spans[routine := None];
        VisitMembers(sites, known, routine);
        return;
      }
      var frames := [Frame(routine, heading.value + 1)];
      StartRuns(sites, known, routine);
      while frames != []
        invariant Running(sites, known, routine, Machine(frames, spans))
        invariant if frames == [] then Recorded(sites, known, routine, spans)
                  else Recording(sites, known, routine, Machine(frames, spans))
        decreases |Open(|sites|, spans)|, RoutineLeft(|sites|, frames), IndexLeft(|sites|, frames)
      {
        RunningStep(sites, known, routine, Machine(frames, spans));
        NextRecords(sites, known, routine, Machine(frames, spans));
        NextProgress(sites, known, Machine(frames, spans));
        frames := Turn(frames);
      }
    }

    /** One turn of the loop: the frames after it, the cache updated in place. */
    method Turn(frames: seq<Frame>) returns (next: seq<Frame>)
      requires Ordered(tokens) && frames != [] && frames[|frames| - 1].routine < |tokens|
      modifies this
      ensures Machine(next, spans) == Next(SitesOf(tokens), Machine(frames, old(spans)))
    {
      var below, frame := frames[..|frames| - 1], frames[|frames| - 1];
      if frame.index >= |tokens| {
        RejectActive(frames);
        return [];
      }
      var move := Decide(frame.index);
      match move {
        case Done(Reject) =>
          RejectActive(frames);
          next := [];
        case Done(NoBody) =>
          spans := spans[frame.routine := None];
          next := below;
        case Done(Body(end, after)) =>
          spans := spans[frame.routine := Some(Span(tokens[frame.routine].start, end, after))];
          next := below;
        case Go(index) =>
          next := below + [Frame(frame.routine, index)];
        case Nested =>
          next := EnterNested(frames);
      }
    }

    /** What the token at `index` decides. */
    method Decide(index: nat) returns (m: Move)
      requires Ordered(tokens) && index < |tokens|
      ensures m == MoveAt(tokens, index)
    {
      var token := tokens[index];
      if token.directive {
        return Done(Reject);
      }
      if token.word && !token.escaped {
        if token.value in NO_BODY_DIRECTIVES {
          return Done(NoBody);
        }
        if token.value in SECTION_WORDS {
          return Done(Reject);
        }
        if token.value in STRUCTURED_TYPE_WORDS && IsStructuredOpener(tokens, index) {
          if Value(tokens, index + 1) == ";" {
            return Go(index + 2);
          }
          var end := MatchEndTerminatedBlock(tokens, index);
          if end.None? {
            return Done(Reject);
          }
          var after := BisectLeft(tokens, end.value);
          return Go(after);
        }
        if token.value == "end" {
          return Done(Reject);
        }
        if token.value in {"begin", "asm"} {
          var end := MatchEndTerminatedBlock(tokens, index);
          if end.None? {
            return Done(Reject);
          }
          var after := BisectLeft(tokens, end.value);
          return Done(Body(end.value, after));
        }
        if token.value in ROUTINE_WORDS && IsNestedDeclaration(tokens, index) {
          return Nested;
        }
      }
      return Go(index + 1);
    }

    /** At a nested declaration: look into it when it is not settled, else look on behind it. */
    method EnterNested(frames: seq<Frame>) returns (next: seq<Frame>)
      requires Ordered(tokens) && frames != [] && frames[|frames| - 1].routine < |tokens|
      requires frames[|frames| - 1].index < |tokens| && MoveAt(tokens, frames[|frames| - 1].index) == Nested
      modifies this
      ensures Machine(next, spans) == Next(SitesOf(tokens), Machine(frames, old(spans)))
    {
      var below, frame := frames[..|frames| - 1], frames[|frames| - 1];
      var index := frame.index;
      if index !in spans {
        var heading := TopLevelSemicolon(tokens, index + 1);
        if heading.None? {
          spans := spans[index := None];
          return frames;
        }
        return frames + [Frame(index, heading.value + 1)];
      }
      var nested := spans[index];
      if nested.Some? {
        return below + [Frame(frame.routine, Max(index + 1, nested.value.index))];
      }
      var skipped := DeclarationEnd(tokens, index);
      if skipped.Some? {
        return below + [Frame(frame.routine, skipped.value + 1)];
      }
      return below + [Frame(frame.routine, index + 1)];
    }

    method RejectActive(frames: seq<Frame>)
      modifies this
      ensures spans == RejectFrames(frames, old(spans))
    {
      for i := 0 to |frames|
        invariant spans == RejectFrames(frames[..i], old(spans))
      {
        assert frames[..i + 1][..i] == frames[..i];
        spans := spans[frames[i].routine := None];
      }
      assert frames[..|frames|] == frames;
    }
  }
}
