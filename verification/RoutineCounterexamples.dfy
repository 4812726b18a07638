/** Two token lists that show where the routine search falls short of the plain definition:
    a cache entry left by an abandoned search, and spans that partly overlap. */
module RoutineCounterexamples {
  import opened RoutineNesting
  import opened RoutineSearch
  import opened RoutineSites
  import opened RoutineSpans
  import opened RoutineTokens
  import opened Wrappers

  /** A token two positions long for each value; the flag says whether it is a word. */
  function Laid(values: seq<(string, bool)>): (ts: Tokens)
    ensures |ts| == |values|
    ensures forall i :: 0 <= i < |ts| ==> ts[i] == Token(values[i].0, 2 * i, 2 * i + 1, values[i].1, false, false)
  {
    seq(|values|, i requires 0 <= i < |values| => Token(values[i].0, 2 * i, 2 * i + 1, values[i].1, false, false))
  }

  lemma {:induction false} LaidOrdered(values: seq<(string, bool)>)
    ensures Ordered(Laid(values))
  {
  }

  function Word(value: string, i: nat): Token {
    Token(value, 2 * i, 2 * i + 1, true, false, false)
  }

  function Sign(value: string, i: nat): Token {
    Token(value, 2 * i, 2 * i + 1, false, false, false)
  }

  /** Words that differ in length or in their first letter. */
  predicate Differ(a: string, b: string) {
    |a| != |b| || (|a| > 0 && a[0] != b[0])
  }

  lemma {:induction false} DifferentWords(a: string, b: string)
    requires Differ(a, b)
    ensures a != b
  {
  }

  lemma {:induction false} PlatformGoesOn(ts: Tokens, i: nat)
    requires Ordered(ts) && i < |ts| && ts[i] == Word("platform", i)
    ensures MoveAt(ts, i) == Go(i + 1) && IsKeyword(ts[i], ROUTINE_DIRECTIVES)
  {
    var w := "platform";
    assert Differ(w, "abstract") && Differ(w, "external") && Differ(w, "forward");
    assert w !in NO_BODY_DIRECTIVES;
    assert w !in SECTION_WORDS;
    assert w !in STRUCTURED_TYPE_WORDS;
    assert Differ(w, "function") && Differ(w, "operator");
    assert w !in ROUTINE_WORDS;
  }

  lemma {:induction false} EndRejects(ts: Tokens, i: nat)
    requires Ordered(ts) && i < |ts| && ts[i] == Word("end", i)
    ensures MoveAt(ts, i) == Done(Reject)
  {
    var w := "end";
    assert w !in NO_BODY_DIRECTIVES && w !in STRUCTURED_TYPE_WORDS;
  }

  lemma {:induction false} ProcedureNests(ts: Tokens, i: nat, name: Token)
    requires Ordered(ts) && 0 < i && i + 1 < |ts| && ts[i] == Word("procedure", i) && ts[i + 1] == name
    requires name.word && |name.value| == 1 && ts[i - 1].value in {";", "("}
    ensures MoveAt(ts, i) == Nested
  {
    var w, p := "procedure", ts[i - 1].value;
    assert w !in NO_BODY_DIRECTIVES && w !in SECTION_WORDS;
    assert Differ(w, "interface");
    assert w !in STRUCTURED_TYPE_WORDS;
    assert p !in {":", "=", "of", "to", "reference", "."};
    assert name.value !in {"of", "object"};
  }

  lemma {:induction false} OpenerWords(w: string)
    requires w in {"begin", "asm"}
    ensures w !in NO_BODY_DIRECTIVES && w !in SECTION_WORDS && w !in STRUCTURED_TYPE_WORDS && w != "end"
  {
    if w == "begin" {
      assert Differ(w, "class");
    } else {
      assert Differ(w, "end");
    }
  }

  lemma {:induction false} BeginOpens(ts: Tokens, i: nat, w: string)
    requires Ordered(ts) && i < |ts| && ts[i] == Word(w, i) && w in {"begin", "asm"}
    requires BlockEnd(ts, i).Some?
    ensures MoveAt(ts, i) == Done(Body(BlockEnd(ts, i).value, IndexFrom(ts, BlockEnd(ts, i).value, 0)))
  {
    OpenerWords(w);
    assert !IsKeyword(ts[i], {"end"}) && !OpensStructured(ts, i);
  }

  lemma {:induction false} ShortHeading(ts: Tokens, r: nat)
    requires r + 2 < |ts| && ts[r + 1].value in {"a", "b", "q", "r", "s"} && ts[r + 2].value == ";"
    ensures HeadingEnd(ts, r) == Some(r + 2)
  {
    assert SemicolonFrom(ts, r + 2, 0, 0, 0) == Some(r + 2);
  }

  /** procedure a; procedure b; platform end; begin end */
  const MISLED: Tokens := Laid([
    ("procedure", true), ("a", true), (";", false),
    ("procedure", true), ("b", true), (";", false),
    ("platform", true), ("end", true), (";", false),
    ("begin", true), ("end", true)])

  lemma {:induction false} MisledTokens()
    ensures Ordered(MISLED) && HeadingEnd(MISLED, 0) == Some(2) && HeadingEnd(MISLED, 3) == Some(5)
    ensures SemicolonFrom(MISLED, 7, 0, 0, 0) == Some(8)
  {
    ShortHeading(MISLED, 0);
    ShortHeading(MISLED, 3);
  }

  lemma {:induction false} MisledBlock()
    ensures BlockEnd(MISLED, 9) == Some(21) && IndexFrom(MISLED, 21, 0) == 11
  {
    assert ClosingFrom(MISLED, 10, ["begin"]) == Some(10);
    IndexUnique(MISLED, 21, 0, 11);
  }

  lemma {:induction false} MisledDeclaration()
    ensures DeclarationEnd(MISLED, 3) == Some(8)
  {
    MisledTokens();
    PlatformGoesOn(MISLED, 6);
    var w := "begin";
    assert Differ(w, "final") && Differ(w, "cdecl");
    assert w !in ROUTINE_DIRECTIVES;
    assert DirectivesEnd(MISLED, 8) == 8;
  }

  /** What the search reads off the tokens it comes by. */
  ghost predicate MisledSites(sites: Sites) {
    && |sites| == 11 && sites[0].start == 0
    && sites[0].heading == Some(2) && sites[3].heading == Some(5) && sites[3].past == 9
    && sites[3].move == Nested && sites[6].move == Go(7) && sites[7].move == Done(Reject)
    && sites[9].move == Done(Body(21, 11))
  }

  lemma {:induction false} MisledSitesHold()
    ensures Ordered(MISLED) && MisledSites(SitesOf(MISLED))
  {
    MisledTokens();
    MisledBlock();
    MisledDeclaration();
    PlatformGoesOn(MISLED, 6);
    EndRejects(MISLED, 7);
    ProcedureNests(MISLED, 3, Word("b", 4));
    BeginOpens(MISLED, 9, "begin");
  }

  lemma {:induction false} MisledOutcomes(sites: Sites, known: Spans)
    requires MisledSites(sites)
    ensures OutcomeOf(sites, 3).Reject? && OutcomeOf(sites, 0).Reject? && OutcomeWith(sites, known, 3).Reject?
    ensures known == map[3 := None] ==> PassesAbandoned(sites, known, 3) && ScanWith(sites, known, 3) == Body(21, 11)
  {
    assert Scan(sites, 7) == Reject && ScanWith(sites, known, 7) == Reject;
    assert Scan(sites, 6) == Reject && ScanWith(sites, known, 6) == Reject;
    assert ScanWith(sites, known, 9) == Body(21, 11);
  }

  /** A search for the inner routine leaves an entry that says it has no span. A search for
      the outer routine then passes the inner declaration and finds a body, where the
      definition, and a search from an empty cache, give up. */
  lemma {:induction false} WarmCacheMisleads()
    ensures Ordered(MISLED) && Grown(SitesOf(MISLED), map[], map[3 := None])
    ensures Misled(MISLED, map[3 := None], 0) && Expected(MISLED, 0) == None
    ensures ExpectedWith(MISLED, map[3 := None], 0) == Some(Span(0, 21, 11))
  {
    MisledSitesHold();
    MisledOutcomes(SitesOf(MISLED), map[]);
    MisledOutcomes(SitesOf(MISLED), map[3 := None]);
    assert RoutineKeywordIndex(MISLED, 0) == Some(0);
  }

  /** procedure a; procedure q; platform ( procedure r; asm ); procedure s; begin begin end;
      forward; end; */
  ghost predicate IsOverlap(ts: Tokens) {
    |ts| == 25 && forall i :: 0 <= i < 25 ==> ts[i] == OverlapToken(i)
  }

  /** Tokens of width two in their places are in order. */
  ghost predicate Spaced(ts: Tokens) {
    forall i :: 0 <= i < |ts| ==> ts[i].start == 2 * i && ts[i].end == 2 * i + 1 && !ts[i].directive
  }

  function OverlapToken(i: nat): Token {
    if i in {0, 3, 8, 14} then Word("procedure", i)
    else if i in {2, 5, 10, 13, 16, 20, 22, 24} then Sign(";", i)
    else if i in {17, 18} then Word("begin", i)
    else if i in {19, 23} then Word("end", i)
    else if i == 1 then Word("a", i)
    else if i == 4 then Word("q", i)
    else if i == 6 then Word("platform", i)
    else if i == 7 then Sign("(", i)
    else if i == 9 then Word("r", i)
    else if i == 11 then Word("asm", i)
    else if i == 12 then Sign(")", i)
    else if i == 15 then Word("s", i)
    else Word("forward", i)
  }

  lemma {:induction false} OverlapExists() returns (ts: Tokens)
    ensures IsOverlap(ts) && Spaced(ts)
  {
    ts := seq(25, (i: nat) => OverlapToken(i));
  }

  lemma {:induction false} OverlapParens(ts: Tokens)
    requires IsOverlap(ts)
    ensures SemicolonFrom(ts, 7, 0, 0, 0) == Some(13)
  {
    assert SemicolonFrom(ts, 13, 0, 0, 0) == Some(13);
    assert SemicolonFrom(ts, 12, 1, 0, 0) == Some(13);
    assert SemicolonFrom(ts, 11, 1, 0, 0) == Some(13);
    assert SemicolonFrom(ts, 10, 1, 0, 0) == Some(13);
    assert SemicolonFrom(ts, 9, 1, 0, 0) == Some(13);
    assert SemicolonFrom(ts, 8, 1, 0, 0) == Some(13);
  }

  lemma {:induction false} ProcedureIsNoDirective()
    ensures "procedure" !in ROUTINE_DIRECTIVES
  {
    assert Differ("procedure", "assembler");
  }

  lemma {:induction false} OverlapDeclaration(ts: Tokens)
    requires IsOverlap(ts) && Ordered(ts)
    ensures DeclarationEnd(ts, 3) == Some(13)
  {
    ShortHeading(ts, 3);
    OverlapParens(ts);
    PlatformGoesOn(ts, 6);
    ProcedureIsNoDirective();
    assert DirectivesEnd(ts, 13) == 13;
  }

  lemma {:induction false} AsmSkips(ts: Tokens, i: nat)
    requires IsOverlap(ts) && Spaced(ts) && 12 <= i <= 19
    ensures ClosingFrom(ts, i, ["asm"]) == Some(19)
    decreases 19 - i
  {
    if i < 19 {
      AsmSkips(ts, i + 1);
      assert Differ("procedure", "end") && ts[i].value != "end";
    }
  }

  lemma {:induction false} OverlapAsm(ts: Tokens)
    requires IsOverlap(ts) && Spaced(ts)
    ensures BlockEnd(ts, 11) == Some(41) && IndexFrom(ts, 41, 0) == 21
  {
    AsmSkips(ts, 12);
    IndexUnique(ts, 41, 0, 21);
  }

  lemma {:induction false} OverlapBegin(ts: Tokens)
    requires IsOverlap(ts) && Spaced(ts)
    ensures BlockEnd(ts, 17) == Some(49) && IndexFrom(ts, 49, 0) == 25
  {
    OverlapInner(ts);
    IndexUnique(ts, 49, 0, 25);
  }

  lemma {:induction false} ForwardIsNoBlock()
    ensures "forward" !in BLOCK_WORDS && "forward" !in STRUCTURED_TYPE_WORDS
  {
  }

  lemma {:induction false} OverlapInner(ts: Tokens)
    requires IsOverlap(ts) && Spaced(ts)
    ensures ClosingFrom(ts, 18, ["begin"]) == Some(23)
  {
    ForwardIsNoBlock();
    assert ClosingFrom(ts, 23, ["begin"]) == Some(23);
    assert ClosingFrom(ts, 22, ["begin"]) == Some(23);
    assert ClosingFrom(ts, 21, ["begin"]) == Some(23);
    assert ClosingFrom(ts, 20, ["begin"]) == Some(23);
    assert ["begin", "begin"][..1] == ["begin"];
    assert ClosingFrom(ts, 19, ["begin", "begin"]) == Some(23);
    assert ["begin"] + ["begin"] == ["begin", "begin"];
  }

  /** What each token of the search decides. */
  lemma {:induction false} OverlapMoves(ts: Tokens)
    requires IsOverlap(ts) && Spaced(ts) && Ordered(ts)
    ensures MoveAt(ts, 3) == Nested && MoveAt(ts, 8) == Nested && MoveAt(ts, 14) == Nested
    ensures MoveAt(ts, 6) == Go(7) && MoveAt(ts, 7) == Go(8)
    ensures MoveAt(ts, 11) == Done(Body(41, 21)) && MoveAt(ts, 17) == Done(Body(49, 25))
    ensures MoveAt(ts, 21) == Done(NoBody)
  {
    OverlapAsm(ts);
    OverlapBegin(ts);
    ProcedureNests(ts, 3, Word("q", 4));
    ProcedureNests(ts, 8, Word("r", 9));
    ProcedureNests(ts, 14, Word("s", 15));
    PlatformGoesOn(ts, 6);
    BeginOpens(ts, 11, "asm");
    BeginOpens(ts, 17, "begin");
  }

  /** What the search reads off the tokens it comes by. */
  ghost predicate OverlapSites(sites: Sites) {
    && |sites| == 25
    && sites[3].move == Nested && sites[8].move == Nested && sites[14].move == Nested
    && sites[6].move == Go(7) && sites[7].move == Go(8) && sites[21].move == Done(NoBody)
    && sites[11].move == Done(Body(41, 21)) && sites[17].move == Done(Body(49, 25))
    && sites[0].heading == Some(2) && sites[3].heading == Some(5) && sites[8].heading == Some(10)
    && sites[14].heading == Some(16) && sites[3].past == 14
  }

  lemma {:induction false} OverlapSitesHold(ts: Tokens)
    requires IsOverlap(ts) && Spaced(ts) && Ordered(ts)
    ensures OverlapSites(SitesOf(ts))
  {
    OverlapMoves(ts);
    ShortHeading(ts, 0);
    ShortHeading(ts, 3);
    ShortHeading(ts, 8);
    ShortHeading(ts, 14);
    OverlapDeclaration(ts);
  }

  lemma {:induction false} OverlapOutcomes(sites: Sites)
    requires OverlapSites(sites)
    ensures BodyIndex(sites, map[], 8) == 21 && BodyIndex(sites, map[], 14) == 25
    ensures OutcomeWith(sites, map[], 3).NoBody?
  {
    assert ScanWith(sites, map[], 11) == Body(41, 21);
    assert ScanWith(sites, map[], 17) == Body(49, 25);
    assert ScanWith(sites, map[], 21) == NoBody;
    assert Resume(sites, 8, Body(41, 21)) == 21;
    assert ScanWith(sites, map[], 8) == NoBody;
    assert ScanWith(sites, map[], 7) == NoBody;
    assert ScanWith(sites, map[], 6) == NoBody;
  }

  /** The inner routine of q, then q without a body, then the routine behind the place the
      search goes back to, then a. */
  lemma {:induction false} OverlapVisit(sites: Sites)
    requires OverlapSites(sites)
    ensures Inside(sites, map[], 3) == [8] && Visit(sites, map[], 0) == [8, 3, 14, 0]
  {
    OverlapOutcomes(sites);
    assert SettledFrom(sites, map[], 11) == [] && SettledFrom(sites, map[], 17) == [];
    assert SettledFrom(sites, map[], 21) == [] && SettledFrom(sites, map[], 25) == [];
    assert Visit(sites, map[], 8) == [8] && Visit(sites, map[], 14) == [14];
    assert OutcomeWith(sites, map[], 8) == Body(41, 21) && Resume(sites, 8, Body(41, 21)) == 21;
    assert SettledFrom(sites, map[], 8) == [8] + [];
    assert SettledFrom(sites, map[], 7) == [8];
    assert SettledFrom(sites, map[], 6) == [8];
    assert OutcomeWith(sites, map[], 14) == Body(49, 25) && Resume(sites, 14, Body(49, 25)) == 25;
    assert SettledFrom(sites, map[], 14) == [14] + [];
    assert Visit(sites, map[], 3) == [8, 3];
    assert SettledFrom(sites, map[], 3) == [8, 3] + [14];
  }

  lemma {:induction false} OverlapCrosses(sites: Sites)
    requires OverlapSites(sites)
    ensures CrossesBack(sites, map[], Visit(sites, map[], 0))
    ensures Overruns(sites, map[], 8, 14)
  {
    OverlapOutcomes(sites);
    OverlapVisit(sites);
    var order := [8, 3, 14, 0];
    assert GoesBackOver(sites, map[], order, 0, 1) && Cross(sites, map[], order[0], order[2]);
  }

  /** Whatever a search for the first routine leaves in the cache records two crossing spans. */
  ghost predicate RecordsCrossing(sites: Sites, spans: Spans)
    requires |sites| == 25
  {
    Grown(sites, map[], spans) && Recorded(sites, map[], 0, spans) ==> 8 in spans && 14 in spans && !Laminar(spans)
  }

  lemma {:induction false} OverlapRecords(sites: Sites, spans: Spans)
    requires OverlapSites(sites)
    ensures RecordsCrossing(sites, spans)
  {
    if Grown(sites, map[], spans) && Recorded(sites, map[], 0, spans) {
      OverlapOutcomes(sites);
      OverlapVisit(sites);
      OverlapCrosses(sites);
      assert 8 in [8, 3, 14, 0] && 14 in [8, 3, 14, 0];
      assert HasBody(sites, map[], 8) && HasBody(sites, map[], 14);
      NestsUnlessGoneBack(sites, map[], 0, spans);
      assert Added(map[], spans) == spans;
    }
  }

  /** A search from an empty cache that goes back over a body records two spans of which
      neither contains the other and which are not disjoint. */
  lemma {:induction false} SpansMayOverlap(spans: Spans) returns (ts: Tokens, sites: Sites)
    ensures Ordered(ts) && |sites| == 25 && sites == SitesOf(ts)
    ensures CrossesBack(sites, map[], Visit(sites, map[], 0)) && Overruns(sites, map[], 8, 14)
    ensures RecordsCrossing(sites, spans)
  {
    ts := OverlapExists();
    OverlapSitesHold(ts);
    sites := SitesOf(ts);
    OverlapCrosses(sites);
    OverlapRecords(sites, spans);
  }

  lemma {:induction false} OverlapStarts(ts: Tokens)
    requires IsOverlap(ts)
    ensures RoutineKeywordIndex(ts, 0) == Some(0)
  {
  }

  lemma {:induction false} OverlapLeaves(ts: Tokens, spans: Spans)
    requires IsOverlap(ts) && Spaced(ts) && Ordered(ts)
    requires Grown(SitesOf(ts), map[], spans) && Leaves(ts, map[], 0, spans)
    ensures 8 in spans && 14 in spans && !Laminar(spans)
  {
    var sites := SitesOf(ts);
    OverlapSitesHold(ts);
    OverlapRecords(sites, spans);
  }

  method OverlapTokens() returns (ts: Tokens)
    ensures IsOverlap(ts) && Spaced(ts) && Ordered(ts)
  {
    ts := seq(25, (i: nat) => OverlapToken(i));
  }

  /** The search itself, from an empty cache, on those tokens. */
  method FindOverlap() returns (ts: Tokens, spans: Spans)
    ensures IsOverlap(ts) && Ordered(ts) && 8 in spans && 14 in spans && !Laminar(spans)
  {
    ts := OverlapTokens();
    OverlapStarts(ts);
    var search := new SpanSearch(ts);
    var _ := search.Find(0);
    spans := search.spans;
    OverlapLeaves(ts, spans);
  }

  lemma {:induction false} MisledLeaves(sites: Sites, spans: Spans)
    requires MisledSites(sites) && 3 in spans && Grown(sites, map[], spans) && Recorded(sites, map[], 3, spans)
    ensures spans == map[3 := None]
  {
    MisledOutcomes(sites, map[]);
    assert SettledFrom(sites, map[], 7) == [];
    assert SettledFrom(sites, map[], 6) == [];
    VisitMembers(sites, map[], 3);
    assert GrownAt(sites, map[], spans, 3);
  }

  lemma {:induction false} MisledStarts()
    ensures RoutineKeywordIndex(MISLED, 0) == Some(0) && RoutineKeywordIndex(MISLED, 3) == Some(3)
  {
  }

  /** The search for the inner routine from an empty cache. */
  method FindInner(search: SpanSearch)
    requires search.tokens == MISLED && search.spans == map[]
    modifies search
    ensures search.spans == map[3 := None]
  {
    MisledSitesHold();
    MisledStarts();
    var _ := search.Find(3);
    MisledLeaves(SitesOf(MISLED), search.spans);
  }

  /** Two searches on the other tokens, the inner routine first: the second finds a body where the
      definition gives up. */
  method FindMisled() returns (outer: Option<Span>)
    ensures Ordered(MISLED) && outer == Some(Span(0, 21, 11)) && Expected(MISLED, 0) == None
  {
    WarmCacheMisleads();
    var search := new SpanSearch(MISLED);
    FindInner(search);
    outer := search.Find(0);
  }
}
