/** What routines look like: headings with brackets, tokens that the search passes, nested routines with
    and without bodies; and that the search finds the body of every routine of that shape. */
module RoutineShapes {
  import opened RoutineBlocks
  import opened RoutineSearch
  import opened RoutineSites
  import opened RoutineTokens
  import opened Wrappers

  // ----- headings -----

  predicate IsBracket(value: string) {
    value == "(" || value == ")" || value == "[" || value == "]" || value == "<" || value == ">"
  }

  /** The two values are an opening bracket and its closing one. */
  predicate Pairs(a: string, b: string) {
    (a == "(" && b == ")") || (a == "[" && b == "]") || (a == "<" && b == ">")
  }

  /** From `i` up to `h` brackets come in pairs, and semicolons stand between brackets only. */
  ghost predicate IsPaired(ts: Tokens, i: nat, h: nat, within: bool)
    requires h <= |ts|
    decreases h - i, 1
  {
    || i == h
    || (i < h && !IsBracket(ts[i].value) && (within || ts[i].value != ";") && IsPaired(ts, i + 1, h, within))
    || (i < h && exists c: nat :: IsGroup(ts, i, c, h, within))
  }

  ghost predicate IsGroup(ts: Tokens, i: nat, c: nat, h: nat, within: bool)
    requires i < h <= |ts|
    decreases h - i, 0
  {
    i < c < h && Pairs(ts[i].value, ts[c].value) && IsPaired(ts, i + 1, c, true) && IsPaired(ts, c + 1, h, within)
  }

  /** The heading of the routine at `r` ends with the semicolon at `h`. */
  ghost predicate IsHeading(ts: Tokens, r: nat, h: nat) {
    r < h < |ts| && ts[h].value == ";" && IsPaired(ts, r + 1, h, false)
  }

  /** Over paired brackets the counters come back to where they were. */
  lemma {:induction false} PairedPasses(ts: Tokens, i: nat, h: nat, within: bool, parens: nat, brackets: nat, angles: nat)
    requires i <= h <= |ts| && IsPaired(ts, i, h, within) && (within ==> parens + brackets + angles > 0)
    ensures SemicolonFrom(ts, i, parens, brackets, angles) == SemicolonFrom(ts, h, parens, brackets, angles)
    decreases h - i
  {
    if i < h {
      if IsBracket(ts[i].value) {
        var c: nat :| IsGroup(ts, i, c, h, within);
        var v := ts[i].value;
        var p, b, a := parens + (if v == "(" then 1 else 0), brackets + (if v == "[" then 1 else 0), angles + (if v == "<" then 1 else 0);
        PairedPasses(ts, i + 1, c, true, p, b, a);
        PairedPasses(ts, c + 1, h, within, parens, brackets, angles);
      } else {
        PairedPasses(ts, i + 1, h, within, parens, brackets, angles);
      }
    }
  }

  lemma {:induction false} HeadingIsFound(ts: Tokens, r: nat, h: nat)
    requires IsHeading(ts, r, h)
    ensures HeadingEnd(ts, r) == Some(h)
  {
    PairedPasses(ts, r + 1, h, false, 0, 0, 0);
  }

  // ----- what the search passes -----

  /** One of the given words, as a keyword. */
  predicate IsOneOf(t: Token, words: set<string>) {
    t.word && !t.escaped && t.value in words
  }

  /** A routine is declared: not as a type, and not as part of a name, with a name behind it. */
  predicate Declares(ts: Tokens, i: nat)
    requires i < |ts|
  {
    && IsOneOf(ts[i], {"procedure", "function", "constructor", "destructor", "operator"})
    && (|| ts[i].value == "operator"
        || (&& (i == 0 || ts[i - 1].value !in {":", "=", "of", "to", "reference", "."})
            && i + 1 < |ts| && ts[i + 1].word && ts[i + 1].value != "of" && ts[i + 1].value != "object"))
  }

  /** A token that says nothing about the body. */
  ghost predicate IsIdle(ts: Tokens, i: nat)
    requires i < |ts|
  {
    && !ts[i].directive
    && !IsOneOf(ts[i], {"abstract", "external", "forward", "implementation", "initialization", "finalization", "end", "begin", "asm"})
    && !(ts[i].word && !ts[i].escaped && OpensType(ts, i))
    && !Declares(ts, i)
  }

  predicate OpensBody(ts: Tokens, k: nat) {
    k < |ts| && !ts[k].directive && IsOneOf(ts[k], {"begin", "asm"})
  }

  predicate DeniesBody(ts: Tokens, k: nat) {
    k < |ts| && !ts[k].directive && IsOneOf(ts[k], {"abstract", "external", "forward"})
  }

  predicate GivesUp(ts: Tokens, k: nat) {
    k < |ts| && (ts[k].directive || IsOneOf(ts[k], {"implementation", "initialization", "finalization", "end"}))
  }

  /** The token behind the END at `e` and a semicolon or a dot that follows it. */
  function Behind(ts: Tokens, e: nat): nat {
    if e + 1 < |ts| && (ts[e + 1].value == ";" || ts[e + 1].value == ".") then e + 2 else e + 1
  }

  /** From `i` the search comes to the token `k`: over idle tokens and types, and over nested routines,
      with their bodies or denied one right behind the heading. */
  ghost predicate LeadsTo(ts: Tokens, i: nat, k: nat)
    requires k <= |ts|
    decreases k - i, 2
  {
    || i == k
    || (i < k && IsIdle(ts, i) && LeadsTo(ts, i + 1, k))
    || (i < k && OverType(ts, i, k))
    || (i < k && OverSome(ts, i, k))
    || (i < k && OverNone(ts, i, k))
  }

  ghost predicate OverSome(ts: Tokens, i: nat, k: nat)
    requires i < k <= |ts|
    decreases k - i, 1
  {
    exists j: nat, e: nat :: OverRoutine(ts, i, j, e, k)
  }

  ghost predicate OverNone(ts: Tokens, i: nat, k: nat)
    requires i < k <= |ts|
    decreases k - i, 1
  {
    exists h: nat :: OverDenied(ts, i, h, k)
  }

  /** A structured type with its END, or declared ahead. */
  ghost predicate OverType(ts: Tokens, i: nat, k: nat)
    requires i < k <= |ts|
    decreases k - i, 1
  {
    && ts[i].word && !ts[i].escaped && !ts[i].directive && OpensType(ts, i)
    && if i + 1 < |ts| && ts[i + 1].value == ";" then i + 2 <= k && LeadsTo(ts, i + 2, k)
       else exists e: nat :: OverTypeTo(ts, i, e, k)
  }

  ghost predicate OverTypeTo(ts: Tokens, i: nat, e: nat, k: nat)
    requires i < k <= |ts|
    decreases k - i, 0
  {
    i < e < |ts| && IsBlock(ts, i, e) && Behind(ts, e) <= k && LeadsTo(ts, Behind(ts, e), k)
  }

  /** A nested routine with a body that opens at `j` and ends at `e`. */
  ghost predicate OverRoutine(ts: Tokens, i: nat, j: nat, e: nat, k: nat)
    requires i < k <= |ts|
    decreases k - i, 0
  {
    && !ts[i].directive && Declares(ts, i) && i < e < |ts| && Behind(ts, e) <= k
    && HasBodyAt(ts, i, j, e) && LeadsTo(ts, Behind(ts, e), k)
  }

  /** A nested routine whose heading ends at `h` and is followed by one directive that denies a body. */
  ghost predicate OverDenied(ts: Tokens, i: nat, h: nat, k: nat)
    requires i < k <= |ts|
    decreases k - i, 0
  {
    && !ts[i].directive && Declares(ts, i) && IsHeading(ts, i, h) && h + 3 <= k
    && DeniesBody(ts, h + 1) && ts[h + 2].value == ";"
    && (h + 3 < |ts| ==> !IsOneOf(ts[h + 3], ROUTINE_DIRECTIVES))
    && LeadsTo(ts, h + 3, k)
  }

  /** The routine at `r` has the body that opens at `j` and ends with the END at `e`. */
  ghost predicate HasBodyAt(ts: Tokens, r: nat, j: nat, e: nat)
    decreases e - r, 1
  {
    exists h: nat :: BodyBehind(ts, r, h, j, e)
  }

  ghost predicate BodyBehind(ts: Tokens, r: nat, h: nat, j: nat, e: nat)
    decreases e - r, 0
  {
    && IsHeading(ts, r, h) && h < j < e < |ts| && OpensBody(ts, j) && IsBlock(ts, j, e) && LeadsTo(ts, h + 1, j)
  }

  // ----- what the search makes of the shapes -----

  lemma {:induction false} BehindIsIndex(ts: Tokens, e: nat)
    requires Ordered(ts) && e < |ts|
    ensures IndexFrom(ts, BehindEnd(ts, e), 0) == Behind(ts, e)
  {
    IndexUnique(ts, BehindEnd(ts, e), 0, Behind(ts, e));
  }

  lemma {:induction false} TypeWords(t: Token)
    ensures IsKeyword(t, STRUCTURED_TYPE_WORDS) <==> t.word && !t.escaped && IsStructuredWord(t.value)
  {
  }

  lemma {:induction false} OpensBoth(ts: Tokens, i: nat)
    requires i < |ts|
    ensures OpensStructured(ts, i) <==> ts[i].word && !ts[i].escaped && OpensType(ts, i)
  {
    TypeWords(ts[i]);
    if IsStructuredWord(ts[i].value) {
      OpensTypeHolds(ts, i);
    }
  }

  lemma {:induction false} IdleMoves(ts: Tokens, i: nat)
    requires Ordered(ts) && i < |ts| && IsIdle(ts, i)
    ensures MoveAt(ts, i) == Go(i + 1)
  {
    OpensBoth(ts, i);
  }

  lemma {:induction false} StructuredWordIsNothingElse(word: string)
    requires IsStructuredWord(word)
    ensures word !in NO_BODY_DIRECTIVES && word !in SECTION_WORDS
  {
  }

  lemma {:induction false} TypeMoves(ts: Tokens, i: nat)
    requires Ordered(ts) && i < |ts| && ts[i].word && !ts[i].escaped && !ts[i].directive && OpensType(ts, i)
    ensures i + 1 < |ts| && ts[i + 1].value == ";" ==> MoveAt(ts, i) == Go(i + 2)
    ensures forall e: nat :: IsBlock(ts, i, e) && !(i + 1 < |ts| && ts[i + 1].value == ";") ==> MoveAt(ts, i) == Go(Behind(ts, e))
  {
    OpensBoth(ts, i);
    StructuredWordIsNothingElse(ts[i].value);
    BlockEndHolds(ts, i);
    forall e: nat | IsBlock(ts, i, e)
      ensures IndexFrom(ts, BehindEnd(ts, e), 0) == Behind(ts, e)
    {
      BehindIsIndex(ts, e);
    }
  }

  lemma {:induction false} BodyWordIsNothingElse(word: string)
    requires word == "begin" || word == "asm"
    ensures word !in NO_BODY_DIRECTIVES && word !in SECTION_WORDS && word !in STRUCTURED_TYPE_WORDS && word != "end"
  {
  }

  lemma {:induction false} BodyMoves(ts: Tokens, j: nat, e: nat)
    requires Ordered(ts) && OpensBody(ts, j) && IsBlock(ts, j, e)
    ensures MoveAt(ts, j) == Done(Body(BehindEnd(ts, e), Behind(ts, e)))
  {
    BodyWordIsNothingElse(ts[j].value);
    BlockEndHolds(ts, j);
    BehindIsIndex(ts, e);
  }

  lemma {:induction false} RoutineWordIsNothingElse(word: string)
    requires word in {"procedure", "function", "constructor", "destructor", "operator"}
    ensures word !in NO_BODY_DIRECTIVES && word !in SECTION_WORDS && word !in STRUCTURED_TYPE_WORDS
    ensures word != "end" && word != "begin" && word != "asm" && word in ROUTINE_WORDS
  {
  }

  lemma {:induction false} NestedMoves(ts: Tokens, i: nat)
    requires Ordered(ts) && i < |ts| && !ts[i].directive && Declares(ts, i)
    ensures MoveAt(ts, i) == Nested
  {
    RoutineWordIsNothingElse(ts[i].value);
    assert IsNestedDeclaration(ts, i);
  }

  lemma {:induction false} DenialIsDirective(word: string)
    requires word in {"abstract", "external", "forward"}
    ensures word in NO_BODY_DIRECTIVES && word in ROUTINE_DIRECTIVES
  {
  }

  lemma {:induction false} DeniedMoves(ts: Tokens, k: nat)
    requires Ordered(ts) && DeniesBody(ts, k)
    ensures MoveAt(ts, k) == Done(NoBody)
  {
    DenialIsDirective(ts[k].value);
  }

  lemma {:induction false} GivesUpMoves(ts: Tokens, k: nat)
    requires Ordered(ts) && GivesUp(ts, k)
    ensures MoveAt(ts, k) == Done(Reject)
  {
  }

  lemma {:induction false} DeniedEnds(ts: Tokens, i: nat, h: nat)
    requires IsHeading(ts, i, h) && h + 2 < |ts| && DeniesBody(ts, h + 1) && ts[h + 2].value == ";"
    requires h + 3 < |ts| ==> !IsOneOf(ts[h + 3], ROUTINE_DIRECTIVES)
    ensures HeadingEnd(ts, i) == Some(h) && DeclarationEnd(ts, i) == Some(h + 2)
  {
    HeadingIsFound(ts, i, h);
    DenialIsDirective(ts[h + 1].value);
    assert SemicolonFrom(ts, h + 2, 0, 0, 0) == Some(h + 2);
    assert DirectivesEnd(ts, h + 2) == h + 2;
  }

  lemma {:induction false} SiteMoves(ts: Tokens, sites: Sites, i: nat)
    requires Ordered(ts) && sites == SitesOf(ts) && i < |ts|
    ensures i < |sites| && sites[i].move == MoveAt(ts, i)
  {
  }

  lemma {:induction false} SiteHeading(ts: Tokens, sites: Sites, i: nat, h: nat)
    requires Ordered(ts) && sites == SitesOf(ts) && i < |ts| && HeadingEnd(ts, i) == Some(h)
    ensures i < |sites| && sites[i].heading == Some(h)
  {
  }

  lemma {:induction false} SiteHolds(ts: Tokens, sites: Sites, i: nat, h: nat, past: nat)
    requires Ordered(ts) && sites == SitesOf(ts) && i < |ts| && HeadingEnd(ts, i) == Some(h)
    requires past > 0 && DeclarationEnd(ts, i) == Some(past - 1)
    ensures i < |sites| && sites[i].heading == Some(h) && sites[i].past == past
  {
  }

  lemma {:induction false} OutcomeFrom(sites: Sites, r: nat, first: nat, outcome: Outcome)
    requires r < |sites| && sites[r].heading.Some? && first == sites[r].heading.value + 1 && Scan(sites, first) == outcome
    ensures OutcomeOf(sites, r) == outcome
  {
  }

  /** What leads to a token leads the search there. */
  lemma {:induction false} LeadsScan(ts: Tokens, sites: Sites, i: nat, k: nat)
    requires Ordered(ts) && sites == SitesOf(ts) && k <= |ts| && LeadsTo(ts, i, k)
    ensures Scan(sites, i) == Scan(sites, k)
    decreases k - i, 1
  {
    if i == k {
    } else if IsIdle(ts, i) && LeadsTo(ts, i + 1, k) {
      var next := i + 1;
      IdleMoves(ts, i);
      SiteMoves(ts, sites, i);
      LeadsScan(ts, sites, next, k);
    } else if OverType(ts, i, k) {
      OverTypeScan(ts, sites, i, k);
    } else if OverSome(ts, i, k) {
      OverRoutineScan(ts, sites, i, k);
    } else {
      OverDeniedScan(ts, sites, i, k);
    }
  }

  lemma {:induction false} OverTypeScan(ts: Tokens, sites: Sites, i: nat, k: nat)
    requires Ordered(ts) && sites == SitesOf(ts) && i < k <= |ts| && OverType(ts, i, k)
    ensures Scan(sites, i) == Scan(sites, k)
    decreases k - i, 0
  {
    TypeMoves(ts, i);
    SiteMoves(ts, sites, i);
    if i + 1 < |ts| && ts[i + 1].value == ";" {
      LeadsScan(ts, sites, i + 2, k);
    } else {
      var e: nat :| OverTypeTo(ts, i, e, k);
      LeadsScan(ts, sites, Behind(ts, e), k);
    }
  }

  lemma {:induction false} OverRoutineScan(ts: Tokens, sites: Sites, i: nat, k: nat)
    requires Ordered(ts) && sites == SitesOf(ts) && i < k <= |ts| && OverSome(ts, i, k)
    ensures Scan(sites, i) == Scan(sites, k)
    decreases k - i, 0
  {
    var j: nat, e: nat :| OverRoutine(ts, i, j, e, k);
    var behind := Behind(ts, e);
    NestedMoves(ts, i);
    SiteMoves(ts, sites, i);
    BodyIsFound(ts, sites, i, j, e);
    assert Resume(sites, i, OutcomeOf(sites, i)) == behind;
    LeadsScan(ts, sites, behind, k);
  }

  lemma {:induction false} OverDeniedScan(ts: Tokens, sites: Sites, i: nat, k: nat)
    requires Ordered(ts) && sites == SitesOf(ts) && i < k <= |ts| && OverNone(ts, i, k)
    ensures Scan(sites, i) == Scan(sites, k)
    decreases k - i, 0
  {
    var h: nat :| OverDenied(ts, i, h, k);
    var past := h + 3;
    DeniedScan(ts, sites, i, h, h + 1, past);
    LeadsScan(ts, sites, past, k);
  }

  lemma {:induction false} DeniedScan(ts: Tokens, sites: Sites, i: nat, h: nat, first: nat, past: nat)
    requires Ordered(ts) && sites == SitesOf(ts) && i < |ts| && !ts[i].directive && Declares(ts, i) && IsHeading(ts, i, h)
    requires first == h + 1 && past == h + 3 && past <= |ts| && DeniesBody(ts, first) && ts[h + 2].value == ";"
    requires past < |ts| ==> !IsOneOf(ts[past], ROUTINE_DIRECTIVES)
    ensures Scan(sites, i) == Scan(sites, past)
  {
    NestedMoves(ts, i);
    DeniedEnds(ts, i, h);
    DeniedMoves(ts, first);
    SiteHolds(ts, sites, i, h, past);
    SiteMoves(ts, sites, i);
    SiteMoves(ts, sites, first);
    assert Scan(sites, first) == NoBody;
    OutcomeFrom(sites, i, first, NoBody);
  }

  /** The search finds the body that a routine has. */
  lemma {:induction false} BodyIsFound(ts: Tokens, sites: Sites, r: nat, j: nat, e: nat)
    requires Ordered(ts) && sites == SitesOf(ts) && r < |ts| && HasBodyAt(ts, r, j, e)
    ensures e < |ts| && OutcomeOf(sites, r) == Body(BehindEnd(ts, e), Behind(ts, e))
    decreases e - r, 0
  {
    var h: nat :| BodyBehind(ts, r, h, j, e);
    var first, body := h + 1, Body(BehindEnd(ts, e), Behind(ts, e));
    HeadingIsFound(ts, r, h);
    SiteHeading(ts, sites, r, h);
    BodyMoves(ts, j, e);
    SiteMoves(ts, sites, j);
    assert Scan(sites, j) == body;
    LeadsScan(ts, sites, first, j);
    OutcomeFrom(sites, r, first, body);
  }

  // ----- where a routine starts -----

  /** The first routine keyword among the six tokens from `start`, with no semicolon before it. */
  predicate StartsAt(ts: Tokens, start: nat, q: nat) {
    && start <= q < |ts| && q < start + 6
    && IsOneOf(ts[q], {"procedure", "function", "constructor", "destructor", "operator"})
    && forall i :: start <= i < q ==>
         ts[i].value != ";" && !IsOneOf(ts[i], {"procedure", "function", "constructor", "destructor", "operator"})
  }

  lemma {:induction false} KeywordIsFound(ts: Tokens, i: nat, left: nat, q: nat)
    requires i <= q < |ts| && q < i + left
    requires IsOneOf(ts[q], {"procedure", "function", "constructor", "destructor", "operator"})
    requires forall k :: i <= k < q ==>
               ts[k].value != ";" && !IsOneOf(ts[k], {"procedure", "function", "constructor", "destructor", "operator"})
    ensures RoutineKeyword(ts, i, left) == Some(q)
    decreases left
  {
    if i < q {
      KeywordIsFound(ts, i + 1, left - 1, q);
    }
  }

  lemma {:induction false} StartIsFound(ts: Tokens, start: nat, q: nat)
    requires StartsAt(ts, start, q)
    ensures RoutineKeywordIndex(ts, start) == Some(q)
  {
    KeywordIsFound(ts, start, 6, q);
  }

  /** Behind its heading the routine comes to a token that denies it a body, or that ends the search. */
  ghost predicate LacksBody(ts: Tokens, q: nat, h: nat, k: nat) {
    IsHeading(ts, q, h) && h < k < |ts| && LeadsTo(ts, h + 1, k) && (DeniesBody(ts, k) || GivesUp(ts, k))
  }

  lemma {:induction false} NoBodyIsFound(ts: Tokens, sites: Sites, q: nat, h: nat, k: nat)
    requires Ordered(ts) && sites == SitesOf(ts) && q < |ts| && LacksBody(ts, q, h, k)
    ensures OutcomeOf(sites, q) == if DeniesBody(ts, k) then NoBody else Reject
  {
    var first := h + 1;
    HeadingIsFound(ts, q, h);
    SiteHeading(ts, sites, q, h);
    if DeniesBody(ts, k) {
      DeniedMoves(ts, k);
    } else {
      GivesUpMoves(ts, k);
    }
    SiteMoves(ts, sites, k);
    LeadsScan(ts, sites, first, k);
    OutcomeFrom(sites, q, first, Scan(sites, k));
  }
}
