/** What the search for routine bodies reads off the tokens. */
module RoutineSites {
  import opened RoutineSearch
  import opened RoutineTokens
  import opened Wrappers

  /** What one token decides. */
  function MoveAt(ts: Tokens, i: nat): (m: Move)
    requires Ordered(ts) && i < |ts|
    ensures m.Go? ==> i < m.next
    ensures m.Done? && m.outcome.Body? ==> i < m.outcome.index
  {
    var t := ts[i];
    if t.directive then Done(Reject)
    else if IsKeyword(t, NO_BODY_DIRECTIVES) then Done(NoBody)
    else if IsKeyword(t, SECTION_WORDS) then Done(Reject)
    else if OpensStructured(ts, i) then
      if Value(ts, i + 1) == ";" then Go(i + 2)
      else
        var end := BlockEnd(ts, i);
        if end.None? then Done(Reject)
        else
          BlockEndIndex(ts, i);
          Go(IndexFrom(ts, end.value, 0))
    else if IsKeyword(t, {"end"}) then Done(Reject)
    else if IsKeyword(t, {"begin", "asm"}) then
      var end := BlockEnd(ts, i);
      if end.None? then Done(Reject)
      else
        BlockEndIndex(ts, i);
        Done(Body(end.value, IndexFrom(ts, end.value, 0)))
    else if IsKeyword(t, ROUTINE_WORDS) && IsNestedDeclaration(ts, i) then Nested
    else Go(i + 1)
  }

  function SiteAt(ts: Tokens, i: nat): (s: Site)
    requires Ordered(ts) && i < |ts|
    ensures LeadsOn(s, i)
  {
    var declaration := DeclarationEnd(ts, i);
    Site(ts[i].start, MoveAt(ts, i), HeadingEnd(ts, i), if declaration.Some? then declaration.value + 1 else i + 1)
  }

  /** What the search reads off the tokens. */
  function SitesOf(ts: Tokens): (sites: Sites)
    requires Ordered(ts)
    ensures |sites| == |ts| && forall i :: 0 <= i < |ts| ==> sites[i] == SiteAt(ts, i)
  {
    seq(|ts|, i requires 0 <= i < |ts| => SiteAt(ts, i))
  }
}
