/** Blanking the bodies of compound statements: a scan with a stack of open blocks, a stack of
    open conditional directives and a buffer of characters. */
module OutlineBlanker {
  import opened Wrappers
  import opened LexicalChunks
  import opened LexerGrammar
  import opened OutlineStacks
  import opened OutlineReadings
  import opened TextPositions
  import OutlineCompactor

  // ----- what an outline is -----

  /** White space, closing brackets and quotes do not start names, line breaks are in none. */
  ghost predicate PlainNames(a: Alphabet) {
    && (forall c: char :: StartsName(a, c) ==> !IsSpace(c) && c != '}' && c != ')' && c != '\'')
    && forall c: char :: IsBreak(c) ==> !NamePart(a)(c)
  }

  /** No name runs on over the place; the last place of the text is not told apart. */
  predicate Apart(a: Alphabet, s: string, i: nat) {
    0 < i && i + 1 < |s| ==> !(StartsName(a, s[i - 1]) && NamePart(a)(s[i]))
  }

  /** With plain names the place is within none. */
  ghost predicate OffNames(a: Alphabet, s: string, i: nat) {
    PlainNames(a) ==> Apart(a, s, i)
  }

  /** From `w` to `k` is a whole word: it starts as a name does, cannot go on, and is not the rest
      of a name. */
  ghost predicate IsWord(a: Alphabet, s: string, w: nat, k: nat) {
    w < k <= |s| && StartsName(a, s[w]) && k == RunEnd(s, w + 1, NamePart(a)) && OffNames(a, s, w)
  }

  ghost predicate WordBefore(a: Alphabet, s: string, k: nat) {
    exists w: nat :: IsWord(a, s, w, k) && a.fold(s[w..k]) in ["begin", "asm"]
  }

  ghost predicate EndAt(a: Alphabet, s: string, k: nat) {
    exists e: nat :: IsWord(a, s, k, e) && a.fold(s[k..e]) == "end"
  }

  /** A literal ends behind a quote or with the text. */
  lemma {:induction false} QuotedCloses(s: string, i: nat)
    requires i <= |s|
    ensures QuotedFrom(s, i) == |s| || (i < QuotedFrom(s, i) && s[QuotedFrom(s, i) - 1] == '\'')
    decreases |s| - i
  {
    if i < |s| && s[i] != '\'' {
      QuotedCloses(s, i + 1);
    } else if i + 1 < |s| && s[i + 1] == '\'' {
      QuotedCloses(s, i + 2);
    }
  }

  lemma {:induction false} BlockCloses(s: string)
    requires BlockLength(s) >= 0
    ensures BlockLength(s) == |s| || s[BlockLength(s) - 1] == '\''
  {
    var n := if ContentStart(s, 5) >= 0 then 5 else 3;
    var at := Find(s, Quotes(n), ContentStart(s, n));
    if at >= 0 {
      assert s[at..at + n][n - 1] == Quotes(n)[n - 1];
    }
  }

  function LastEnd(bodies: seq<Body>): nat {
    if bodies == [] then 0 else bodies[|bodies| - 1].end
  }

  /** The bodies follow each other; each stands between a BEGIN or ASM and an END. */
  ghost predicate AreBodies(a: Alphabet, s: string, bodies: seq<Body>) {
    forall i :: 0 <= i < |bodies| ==>
      LastEnd(bodies[..i]) <= bodies[i].start <= bodies[i].end && WordBefore(a, s, bodies[i].start) && EndAt(a, s, bodies[i].end)
  }

  /** The bodies, and the one that is open, are behind the place `i`. */
  ghost predicate AreBehind(a: Alphabet, s: string, bodies: seq<Body>, bodyStart: Option<nat>, i: nat) {
    && i <= |s| && AreBodies(a, s, bodies) && LastEnd(bodies) <= i
    && (bodyStart.Some? ==> LastEnd(bodies) <= bodyStart.value <= i && WordBefore(a, s, bodyStart.value))
  }

  ghost predicate Inside(bodies: seq<Body>, k: nat) {
    exists b :: b in bodies && b.start <= k < b.end
  }

  /** `r` is the text with blanks for the characters of the bodies, line breaks kept. */
  ghost predicate IsOutline(s: string, bodies: seq<Body>, r: string) {
    |r| == |s| && forall k :: 0 <= k < |s| ==> r[k] == if Inside(bodies, k) && !IsBreak(s[k]) then ' ' else s[k]
  }

  /** An outline has the length of the text, its line breaks in place, and so every place on its
      line and in its column. */
  lemma {:induction false} OutlineKeepsPlaces(s: string, bodies: seq<Body>, r: string, k: nat)
    requires IsOutline(s, bodies, r) && k <= |s|
    ensures forall i :: 0 <= i < |s| ==> (IsBreak(r[i]) <==> IsBreak(s[i]))
    ensures forall i :: 0 <= i < |s| && IsBreak(s[i]) ==> r[i] == s[i]
    ensures LineOf(r[..k]) == LineOf(s[..k]) && ColumnOf(r[..k]) == ColumnOf(s[..k])
  {
    if k > 0 {
      OutlineKeepsPlaces(s, bodies, r, k - 1);
      assert r[..k][..k - 1] == r[..k - 1] && s[..k][..k - 1] == s[..k - 1];
      assert r[..k][k - 1] == r[k - 1] && s[..k][k - 1] == s[k - 1];
    }
  }

  lemma {:induction false} BodiesMore(a: Alphabet, s: string, bodies: seq<Body>, b: Body)
    requires AreBodies(a, s, bodies) && LastEnd(bodies) <= b.start <= b.end
    requires WordBefore(a, s, b.start) && EndAt(a, s, b.end)
    ensures AreBodies(a, s, bodies + [b])
  {
    var after := bodies + [b];
    forall i | 0 <= i < |after|
      ensures LastEnd(after[..i]) <= after[i].start <= after[i].end && WordBefore(a, s, after[i].start) && EndAt(a, s, after[i].end)
    {
      assert after[..i] == bodies[..i];
      if i == |bodies| {
        assert bodies[..i] == bodies;
      }
    }
  }

  lemma {:induction false} OutlineMore(s: string, bodies: seq<Body>, r: string, b: Body, n: string)
    requires IsOutline(s, bodies, r) && b.end <= |s| && |n| == |r|
    requires forall k :: 0 <= k < |s| ==> n[k] == if b.start <= k < b.end && !IsBreak(r[k]) then ' ' else r[k]
    ensures IsOutline(s, bodies + [b], n)
  {
    forall k | 0 <= k < |s|
      ensures n[k] == if Inside(bodies + [b], k) && !IsBreak(s[k]) then ' ' else s[k]
    {
      InsideMore(bodies, b, k);
    }
  }

  lemma {:induction false} InsideMore(bodies: seq<Body>, b: Body, k: nat)
    ensures Inside(bodies + [b], k) <==> Inside(bodies, k) || b.start <= k < b.end
  {
    if b.start <= k < b.end {
      assert b in bodies + [b];
    }
    if Inside(bodies, k) {
      var c :| c in bodies && c.start <= k < c.end;
      assert c in bodies + [b];
    }
  }

  /** What holds of a scan at the place `i` with the buffer `r`. */
  ghost predicate IsState(a: Alphabet, s: string, bodies: seq<Body>, bodyStart: Option<nat>, i: nat, r: string) {
    IsOutline(s, bodies, r) && AreBehind(a, s, bodies, bodyStart, i) && OffNames(a, s, i)
  }

  lemma {:induction false} StateMoves(a: Alphabet, s: string, bodies: seq<Body>, bodyStart: Option<nat>, i: nat, j: nat, r: string)
    requires IsState(a, s, bodies, bodyStart, i, r) && i <= j <= |s| && OffNames(a, s, j)
    ensures IsState(a, s, bodies, bodyStart, j, r)
  {
  }

  /** A place behind a character that starts no name is within none. */
  lemma {:induction false} OffBehind(a: Alphabet, s: string, i: nat)
    requires 0 < i <= |s|
    requires !StartsName(a, s[i - 1]) || IsSpace(s[i - 1]) || s[i - 1] == '}' || s[i - 1] == ')' || s[i - 1] == '\''
    ensures OffNames(a, s, i)
  {
  }

  lemma {:induction false} OffSign(a: Alphabet, s: string, i: nat, next: nat)
    requires i < |s| && next == i + 1 && !StartsName(a, s[i])
    ensures OffNames(a, s, next)
  {
    OffBehind(a, s, next);
  }

  /** So is a place before a character that is in no name, and the end of the text. */
  lemma {:induction false} OffBefore(a: Alphabet, s: string, i: nat)
    requires i + 1 < |s| ==> !NamePart(a)(s[i]) || IsBreak(s[i])
    ensures OffNames(a, s, i)
  {
  }

  lemma {:induction false} LiteralOff(a: Alphabet, s: string, i: nat, rest: string, length: nat)
    requires i <= |s| && rest == s[i..] && 0 < length <= |rest| && (length == |rest| || rest[length - 1] == '\'')
    ensures OffNames(a, s, i + length)
  {
    if length < |rest| {
      OffBehind(a, s, i + length);
    }
  }

  predicate ClosedBefore(s: string, end: nat) {
    0 < end <= |s| && (s[end - 1] == '}' || s[end - 1] == ')')
  }

  /** The places of the recorded bodies, and of the one that is open while blocks are. */
  ghost predicate IsAccount(entered: seq<nat>, bodies: seq<Body>, bodyStart: Option<nat>, endStack: Stack, frames: seq<Frame>) {
    && frames == [] && (bodyStart.Some? <==> endStack != [])
    && entered == Starts(bodies) + (if bodyStart.Some? then [bodyStart.value] else [])
  }

  lemma {:induction false} AccountEnters(entered: seq<nat>, bodies: seq<Body>, bodyStart: Option<nat>, endStack: Stack, frames: seq<Frame>,
                                         i: nat, word: string)
    requires IsAccount(entered, bodies, bodyStart, endStack, frames) && endStack == []
    ensures IsAccount(entered + [i], bodies, Some(i), endStack + [word], frames)
  {
  }

  lemma {:induction false} AccountPops(entered: seq<nat>, bodies: seq<Body>, bodyStart: Option<nat>, endStack: Stack, frames: seq<Frame>,
                                       rest: Stack, start: nat)
    requires IsAccount(entered, bodies, bodyStart, endStack, frames) && endStack != [] && |rest| == |endStack| - 1
    ensures bodyStart.Some? && (rest != [] ==> IsAccount(entered, bodies, bodyStart, rest, frames))
    ensures rest == [] ==> IsAccount(entered, Behind(bodies, Body(bodyStart.value, start)), None, rest, frames)
  {
  }

  lemma {:induction false} AccountPushes(entered: seq<nat>, bodies: seq<Body>, bodyStart: Option<nat>, endStack: Stack, frames: seq<Frame>,
                                         word: string)
    requires IsAccount(entered, bodies, bodyStart, endStack, frames) && endStack != []
    ensures IsAccount(entered, bodies, bodyStart, endStack + [word], frames)
  {
  }

  /** A turn records at most one body, behind those recorded before. */
  ghost predicate AddsAtMostOne(before: seq<Body>, after: seq<Body>) {
    after == before || exists b :: after == Behind(before, b)
  }

  function Behind(before: seq<Body>, b: Body): seq<Body> {
    before + [b]
  }

  function Starts(bodies: seq<Body>): (r: seq<nat>)
    ensures |r| == |bodies| && forall k :: 0 <= k < |r| ==> r[k] == bodies[k].start
  {
    seq(|bodies|, k requires 0 <= k < |bodies| => bodies[k].start)
  }

  // ----- directives and words -----

  predicate OpensCondition(name: string) {
    name == "if" || name == "ifdef" || name == "ifndef" || name == "ifopt"
  }

  predicate TurnsCondition(name: string) {
    name == "else" || name == "elseif"
  }

  predicate ClosesCondition(name: string) {
    name == "endif" || name == "ifend"
  }

  predicate IsAsciiLetter(c: char) {
    'a' <= c <= 'z' || 'A' <= c <= 'Z'
  }

  /** The name that a directive's content starts with. */
  function DirectiveName(a: Alphabet, content: string): string {
    var from := RunEnd(content, 0, IsSpace);
    a.fold(content[from..RunEnd(content, from, IsAsciiLetter)])
  }

  /** The name and the end of a closed directive at `start`. */
  function DirectiveAt(a: Alphabet, s: string, start: nat): (r: Option<(string, nat)>)
    ensures r.Some? ==> start < r.value.1 && ClosedBefore(s, r.value.1)
  {
    if PairAt(s, start, '{', '$') then
      var close := Find(s, "}", start + 2);
      if close < 0 then None else Some((DirectiveName(a, s[start + 2..close]), close + 1))
    else if PairAt(s, start, '(', '*') && CharAt(s, start + 2, '$') then
      var close := Find(s, "*)", start + 3);
      if close < 0 then None else Some((DirectiveName(a, s[start + 3..close]), close + 2))
    else None
  }

  /** The word behind white space and comments. */
  function NextCodeWord(a: Alphabet, s: string, i: nat): Option<string>
    decreases |s| - i
  {
    if i >= |s| then None
    else if IsSpace(s[i]) then NextCodeWord(a, s, i + 1)
    else if PairAt(s, i, '/', '/') then NextCodeWord(a, s, RunEnd(s, i + 2, c => !IsBreak(c)))
    else if s[i] == '{' then NextCodeWord(a, s, UpTo(s, "}", i + 1, 1))
    else if PairAt(s, i, '(', '*') then NextCodeWord(a, s, UpTo(s, "*)", i + 2, 2))
    else if StartsName(a, s[i]) then Some(a.fold(s[i..RunEnd(s, i + 1, NamePart(a))]))
    else None
  }

  predicate FollowsMemberClass(word: string) {
    || word == "const" || word == "constructor" || word == "destructor" || word == "function" || word == "of" || word == "operator"
    || word == "procedure" || word == "property" || word == "threadvar" || word == "type" || word == "var"
  }

  predicate PrecedesClassType(token: string) {
    token == ":" || token == "=" || token == "of" || token == "packed" || token == "to" || token == "type" || token == "^"
  }

  predicate BoundsMember(token: string) {
    || token == ";" || token == ")" || token == "]" || token == "automated" || token == "class" || token == "dispinterface"
    || token == "interface" || token == "object" || token == "private" || token == "protected" || token == "public"
    || token == "published" || token == "record"
  }

  /** Whether a word opens a block that END closes; None where that cannot be told. */
  function StartsBlock(a: Alphabet, word: string, s: string, wordEnd: nat, previous: Option<string>, stack: Stack, maker: Option<string>): Option<bool>
    requires stack != []
  {
    var top := stack[|stack| - 1];
    if IsStructured(word) then
      if word == "object" && previous == Some("of") then
        if maker == Some("procedure") || maker == Some("function") then Some(false)
        else if maker == Some("array") then Some(true)
        else None
      else if word == "class" then
        var next := NextCodeWord(a, s, wordEnd);
        if next == Some("of") then Some(false)
        else if IsStructured(top) && next.Some? && FollowsMemberClass(next.value) then
          if previous.Some? && PrecedesClassType(previous.value) then Some(true)
          else if previous.Some? && BoundsMember(previous.value) then Some(false)
          else None
        else Some(true)
      else Some(true)
    else if IsStructured(top) then Some(false)
    else Some(IsStatement(word))
  }

  // ----- the scan -----

  class Scan {
    const a: Alphabet
    const scanned: string
    const chars: array<char>
    var i: nat
    var endStack: Stack
    var frames: seq<Frame>
    var bodyStart: Option<nat>
    var previous: Option<string>
    var previousIsIdentifier: bool
    var parens: nat
    var brackets: nat
    var angles: nat
    var genericOwnerReady: bool
    var routineHeading: bool
    var constructors: map<(nat, nat), string>
    ghost var bodies: seq<Body>
    // The places behind each BEGIN or ASM met while no block is open; whether a directive has acted.
    ghost var entered: seq<nat>
    ghost var directed: bool

    constructor (alphabet: Alphabet, text: string)
      ensures Valid() && Accounted() && scanned == text && a == alphabet && fresh(chars)
      ensures Now() == View(0, [], [], [], None, 0, false, false)
    {
      a, scanned := alphabet, text;
      chars := new char[|text|](k requires 0 <= k < |text| => text[k]);
      i, endStack, frames, bodyStart := 0, [], [], None;
      previous, previousIsIdentifier := None, false;
      parens, brackets, angles := 0, 0, 0;
      genericOwnerReady, routineHeading := false, false;
      constructors := map[];
      bodies, entered, directed := [], [], false;
      new;
      assert chars[..] == scanned;
      assert IsOutline(scanned, [], chars[..]);
    }

    /** The buffer is the outline of the bodies so far; they, and the body that is open, are
        behind the index, which is within no name. */
    ghost predicate Valid()
      reads this`i, this`bodies, this`bodyStart, chars
    {
      chars.Length == |scanned| && IsState(a, scanned, bodies, bodyStart, i, chars[..])
    }

    /** What decides how the scan follows the blocks. */
    ghost function Now(): View
      reads this`i, this`endStack, this`frames, this`bodies, this`bodyStart, this`angles, this`routineHeading, this`genericOwnerReady
    {
      View(i, endStack, frames, bodies, bodyStart, angles, routineHeading, genericOwnerReady)
    }

    /** As long as no directive acted, each body that was opened is recorded, but for one that is
        still open while blocks are. */
    ghost predicate Accounted()
      reads this`bodies, this`bodyStart, this`entered, this`directed, this`endStack, this`frames
    {
      !directed ==> IsAccount(entered, bodies, bodyStart, endStack, frames)
    }

    /** Where and why the scan lost its way, and the word if it was one. */
    ghost predicate Stuck(at: nat, word: string)
      reads this`i, this`endStack, this`frames, this`angles, this`previous, this`previousIsIdentifier, this`parens, this`brackets,
            this`constructors
    {
      at < |scanned| && (StuckAtDirective(at) || StuckAtAngle(at) || StuckAtWord(at, word))
    }

    /** A branch or an end of a condition that is not open. */
    ghost predicate StuckAtDirective(at: nat)
      reads this`frames
    {
      var directive := DirectiveAt(a, scanned, at);
      directive.Some? && (TurnsCondition(directive.value.0) || ClosesCondition(directive.value.0)) && frames == []
    }

    /** A word of which it cannot be told whether it opens a block. */
    ghost predicate StuckAtWord(at: nat, word: string)
      reads this`i, this`endStack, this`angles, this`previous, this`parens, this`brackets, this`constructors
    {
      IsWord(a, scanned, at, i) && word == a.fold(scanned[at..i]) && Opens(word).None?
    }

    /** An angle bracket within angle brackets that does not follow a name. */
    ghost predicate StuckAtAngle(at: nat)
      reads this`angles, this`previousIsIdentifier
    {
      CharAt(scanned, at, '<') && angles > 0 && !previousIsIdentifier
    }

    method MoveTo(end: nat)
      requires Valid() && i <= end <= |scanned| && OffNames(a, scanned, end)
      modifies this`i
      ensures Valid() && i == end && (old(Accounted()) ==> Accounted())
    {
      StateMoves(a, scanned, bodies, bodyStart, i, end, chars[..]);
      i := end;
    }

    /** Blanks a stretch of the buffer, line breaks kept. */
    method Blank(start: nat, end: nat)
      requires start <= end <= chars.Length
      modifies chars
      ensures forall k :: 0 <= k < chars.Length ==>
                chars[k] == if start <= k < end && !IsBreak(old(chars[k])) then ' ' else old(chars[k])
    {
      for index := start to end
        invariant forall k :: 0 <= k < chars.Length ==>
                    chars[k] == if start <= k < index && !IsBreak(old(chars[k])) then ' ' else old(chars[k])
      {
        if !IsBreak(chars[index]) {
          chars[index] := ' ';
        }
      }
    }

    /** A body that is open ends where the END starts. */
    method CloseBody(start: nat)
      requires Valid() && start <= |scanned| && bodyStart.Some? && bodyStart.value <= start <= i && EndAt(a, scanned, start)
      modifies this`bodyStart, this`bodies, chars
      ensures Valid() && bodyStart == None && bodies == Behind(old(bodies), Body(old(bodyStart).value, start))
    {
      ghost var before := chars[..];
      Blank(bodyStart.value, start);
      BodiesMore(a, scanned, bodies, Body(bodyStart.value, start));
      OutlineMore(scanned, bodies, before, Body(bodyStart.value, start), chars[..]);
      bodies := bodies + [Body(bodyStart.value, start)];
      bodyStart := None;
    }

    /** A conditional directive saves, restores or joins the stack. */
    method Directive(name: string, end: nat) returns (lost: bool)
      requires Valid() && i < end && ClosedBefore(scanned, end)
      modifies this`i, this`endStack, this`frames, this`bodyStart, this`directed
      ensures Valid() && directed
      ensures lost ==> frames == old(frames)
      ensures lost <==> (TurnsCondition(name) || ClosesCondition(name)) && old(frames) == []
      ensures !lost ==> i == end
      ensures !lost && OpensCondition(name) ==> endStack == old(endStack) && frames == old(frames) + [Frame(endStack, [], false)]
      ensures !lost && TurnsCondition(name) ==>
                var top := old(frames)[|old(frames)| - 1];
                endStack == top.base && frames == old(frames)[..|old(frames)| - 1] + [Frame(top.base, top.branches + [old(endStack)], true)]
      ensures !lost && ClosesCondition(name) ==>
                var joined := Joined(old(frames)[|old(frames)| - 1], old(endStack));
                endStack == joined.0 && frames == old(frames)[..|old(frames)| - 1] && (!joined.1 ==> bodyStart == None)
      ensures bodyStart == old(bodyStart) || bodyStart == None
    {
      directed := true;
      if OpensCondition(name) {
        frames := frames + [Frame(endStack, [], false)];
      } else if TurnsCondition(name) {
        if |frames| == 0 {
          return true;
        }
        var frame := frames[|frames| - 1];
        frames := frames[..|frames| - 1] + [Frame(frame.base, frame.branches + [endStack], true)];
        endStack := frame.base;
      } else if ClosesCondition(name) {
        if |frames| == 0 {
          return true;
        }
        var frame := frames[|frames| - 1];
        frames := frames[..|frames| - 1];
        var joined := Joined(frame, endStack);
        if !joined.1 {
          bodyStart := None;
        }
        endStack := joined.0;
      }
      OffBehind(a, scanned, end);
      MoveTo(end);
      lost := false;
    }

    /** Whether a word behind an open block opens another that END closes; None where that cannot
        be told. */
    function Opens(word: string): Option<bool>
      reads this`i, this`endStack, this`angles, this`previous, this`parens, this`brackets, this`constructors
    {
      if endStack == [] || word == "end" || (angles > 0 && IsStructured(word)) then Some(false)
      else StartsBlock(a, word, scanned, i, previous, endStack, ConstructorHere())
    }

    /** The innermost open block is no structured type. */
    ghost predicate IsPlainTop()
      reads this`endStack
    {
      endStack != [] && !IsStructured(endStack[|endStack| - 1])
    }

    /** A BEGIN or ASM while no block is open: the body starts behind it. */
    method OpenBody(start: nat, word: string)
      requires Valid() && endStack == [] && IsWord(a, scanned, start, i) && LastEnd(bodies) <= start
      requires word == a.fold(scanned[start..i]) && (word == "begin" || word == "asm")
      modifies this`endStack, this`bodyStart, this`entered
      ensures Valid() && (old(Accounted()) ==> Accounted())
      ensures bodyStart == Some(i) && endStack == [word] && entered == old(entered) + [i]
    {
      if Accounted() && !directed {
        AccountEnters(entered, bodies, bodyStart, endStack, frames, i, word);
      }
      assert WordBefore(a, scanned, i);
      bodyStart := Some(i);
      entered := entered + [i];
      endStack := endStack + [word];
    }

    /** Where no block is left open, a body that is open is closed. */
    method EndBody(start: nat, ghost sound: bool)
      requires Valid() && endStack == [] && start < i && EndAt(a, scanned, start)
      requires bodyStart.Some? ==> bodyStart.value <= start
      requires sound && !directed ==>
                 bodyStart.Some? && IsAccount(entered, Behind(bodies, Body(bodyStart.value, start)), None, endStack, frames)
      modifies this`bodyStart, this`bodies, chars
      ensures Valid() && (sound ==> Accounted())
      ensures bodyStart == None
      ensures bodies == if old(bodyStart).Some? then Behind(old(bodies), Body(old(bodyStart).value, start)) else old(bodies)
    {
      if bodyStart.Some? {
        CloseBody(start);
      }
    }

    /** An END: the innermost block is closed, and with the outermost one the body. */
    method EndBlock(start: nat)
      requires Valid() && endStack != [] && start < i && EndAt(a, scanned, start) && LastEnd(bodies) <= start
      requires bodyStart.Some? ==> bodyStart.value <= start
      modifies this`endStack, this`bodyStart, this`bodies, chars
      ensures Valid() && (old(Accounted()) ==> Accounted())
      ensures endStack == old(endStack)[..|old(endStack)| - 1]
      ensures bodyStart == if |old(endStack)| == 1 then None else old(bodyStart)
      ensures bodies == if |old(endStack)| == 1 && old(bodyStart).Some? then Behind(old(bodies), Body(old(bodyStart).value, start)) else old(bodies)
    {
      ghost var sound := Accounted();
      var rest := endStack[..|endStack| - 1];
      if sound && !directed {
        AccountPops(entered, bodies, bodyStart, endStack, frames, rest, start);
      }
      endStack := rest;
      if |rest| == 0 {
        EndBody(start, sound);
      }
    }

    /** Any other word behind an open block. */
    method InnerWord(word: string) returns (lost: bool, pushed: bool)
      requires Valid() && endStack != [] && word != "end"
      modifies this`endStack
      ensures Valid() && (old(Accounted()) ==> Accounted())
      ensures lost <==> old(Opens(word)).None?
      ensures lost ==> endStack == old(endStack) && Opens(word).None?
      ensures !lost ==> pushed == old(Opens(word)).value && endStack == if pushed then old(endStack) + [word] else old(endStack)
    {
      lost, pushed := false, false;
      if !(angles > 0 && IsStructured(word)) {
        var opens := StartsBlock(a, word, scanned, i, previous, endStack, ConstructorHere());
        if opens.None? {
          return true, false;
        }
        pushed := opens.value;
      }
      if pushed {
        if Accounted() && !directed {
          AccountPushes(entered, bodies, bodyStart, endStack, frames, word);
        }
        endStack := endStack + [word];
      }
    }

    /** A word from `start` to the index opens or closes a block. */
    method Word(start: nat, word: string) returns (lost: bool, pushed: bool)
      requires Valid() && IsWord(a, scanned, start, i) && word == a.fold(scanned[start..i]) && LastEnd(bodies) <= start
      requires bodyStart.Some? ==> bodyStart.value <= start
      modifies this`endStack, this`bodyStart, this`bodies, this`entered, chars
      ensures Valid() && (old(Accounted()) ==> Accounted())
      ensures lost <==> old(Opens(word)).None?
      ensures lost ==> endStack == old(endStack) && StuckAtWord(start, word)
      ensures !lost ==> pushed == old(Opens(word)).value && Stepped(old(endStack), word, pushed, endStack)
      ensures bodies == if word == "end" && |old(endStack)| == 1 && old(bodyStart).Some? then Behind(old(bodies), Body(old(bodyStart).value, start)) else old(bodies)
      ensures old(endStack) == [] ==> !lost && !pushed
      ensures old(IsPlainTop()) && !IsStructured(word) ==> !lost && Stepped(old(endStack), word, IsStatement(word), endStack)
      ensures bodyStart == if old(endStack) == [] && endStack != [] then Some(i)
                           else if old(endStack) != [] && endStack == [] then None else old(bodyStart)
      ensures entered == if old(endStack) == [] && endStack != [] then old(entered) + [i] else old(entered)
    {
      lost, pushed := false, false;
      if |endStack| == 0 {
        if word == "begin" || word == "asm" {
          OpenBody(start, word);
        }
      } else if word == "end" {
        EndBlock(start);
      } else {
        lost, pushed := InnerWord(word);
      }
    }

    function ConstructorHere(): Option<string>
      reads this`parens, this`brackets, this`constructors
    {
      if (parens, brackets) in constructors then Some(constructors[(parens, brackets)]) else None
    }

    /** The words that make types, by the depth of brackets, behind another word. */
    static function MakersBehind(makers: map<(nat, nat), string>, word: string, depth: (nat, nat)): map<(nat, nat), string> {
      if word == "begin" || word == "asm" then map[]
      else if word == "procedure" || word == "function" || word == "array" then makers[depth := word]
      else if word == "var" then makers - {depth} else makers
    }

    /** What a word leaves behind for the words and signs that follow. */
    method Remember(word: string, pushed: bool)
      modifies this`genericOwnerReady, this`routineHeading, this`constructors, this`previous, this`previousIsIdentifier
      ensures old(Accounted()) ==> Accounted()
      ensures genericOwnerReady == (word == "class" && pushed) && previous == Some(word) && previousIsIdentifier
      ensures routineHeading == (word != "begin" && word != "asm" && (old(routineHeading) || HeadsRoutine(word)))
      ensures constructors == MakersBehind(old(constructors), word, (parens, brackets))
    {
      genericOwnerReady := word == "class" && pushed;
      if HeadsRoutine(word) {
        routineHeading := true;
      }
      if word == "begin" || word == "asm" {
        constructors := map[];
        routineHeading := false;
      } else if word == "procedure" || word == "function" || word == "array" {
        constructors := constructors[(parens, brackets) := word];
      } else if word == "var" {
        constructors := constructors - {(parens, brackets)};
      }
      previous, previousIsIdentifier := Some(word), true;
    }

    /** Counts angle brackets; a second one behind anything but a name is lost. */
    method Angle(c: char) returns (lost: bool, seen: bool)
      requires CharAt(scanned, i, c)
      modifies this`angles, this`genericOwnerReady
      ensures lost <==> c == '<' && !CharAt(scanned, i + 1, '=') && !CharAt(scanned, i + 1, '>') && old(angles) > 0 && !previousIsIdentifier
      ensures lost ==> StuckAtAngle(i)
      ensures old(Accounted()) ==> Accounted()
      ensures !lost && old(angles) == 0 && !old(genericOwnerReady) && (c == '<' ==> !routineHeading) ==> angles == 0 && !genericOwnerReady
    {
      lost, seen := false, true;
      if c == '<' && !CharAt(scanned, i + 1, '=') && !CharAt(scanned, i + 1, '>') {
        if angles > 0 {
          if !previousIsIdentifier {
            return true, true;
          }
          angles := angles + 1;
        } else if genericOwnerReady || (routineHeading && previousIsIdentifier && previous != Some("operator")) {
          angles := 1;
        }
        genericOwnerReady := false;
      } else if c == '>' && !CharAt(scanned, i + 1, '=') && angles > 0 {
        angles := angles - 1;
        genericOwnerReady := false;
      } else {
        seen := false;
      }
    }

    /** Counts brackets; the counts never fall below zero. */
    method Bracket(c: char)
      modifies this`parens, this`brackets, this`genericOwnerReady, this`routineHeading, this`constructors
      ensures old(Accounted()) ==> Accounted()
      ensures parens == if c == '(' then old(parens) + 1 else if c == ')' && old(parens) > 0 then old(parens) - 1 else old(parens)
      ensures brackets == if c == '[' then old(brackets) + 1 else if c == ']' && old(brackets) > 0 then old(brackets) - 1 else old(brackets)
      ensures constructors == if c == ')' || c == ']' || c == ';' then old(constructors) - {(old(parens), old(brackets))} else old(constructors)
      ensures routineHeading == (old(routineHeading) && c != '(' && c != ';')
      ensures genericOwnerReady == (old(genericOwnerReady) && (c == '<' || c == '>'))
    {
      if c == ')' || c == ']' || c == ';' {
        constructors := constructors - {(parens, brackets)};
      }
      if c == '(' {
        parens := parens + 1;
      } else if c == ')' {
        parens := if parens > 0 then parens - 1 else 0;
      } else if c == '[' {
        brackets := brackets + 1;
      } else if c == ']' {
        brackets := if brackets > 0 then brackets - 1 else 0;
      }
      if c == '(' || c == ';' {
        routineHeading := false;
      }
      if c != '<' && c != '>' {
        genericOwnerReady := false;
      }
    }

    /** No angle bracket is open, and the sign opens none. */
    ghost predicate StaysFlat(c: char)
      reads this`angles, this`genericOwnerReady, this`routineHeading
    {
      angles == 0 && !genericOwnerReady && (c == '<' ==> !routineHeading)
    }

    /** Counts a bracket of either sort. */
    method Punctuate(c: char) returns (lost: bool)
      requires CharAt(scanned, i, c)
      modifies this`parens, this`brackets, this`angles, this`genericOwnerReady, this`routineHeading, this`constructors,
               this`previous, this`previousIsIdentifier
      ensures old(Accounted()) ==> Accounted()
      ensures if lost then StuckAtAngle(i) else previous == Some([c]) && !previousIsIdentifier
      ensures old(StaysFlat(c)) ==> !lost && angles == 0 && !genericOwnerReady && (routineHeading ==> old(routineHeading))
    {
      var seen;
      lost, seen := Angle(c);
      if !lost {
        if !seen {
          Bracket(c);
        }
        previous, previousIsIdentifier := Some([c]), false;
      }
    }

    /** A sign that is part of no word, literal or comment. */
    method Sign() returns (lost: bool)
      requires Valid() && i < |scanned| && !StartsName(a, scanned[i])
      requires !IsEscape(a, scanned, i)
      modifies this`i, this`previous, this`previousIsIdentifier, this`parens, this`brackets, this`angles, this`genericOwnerReady,
               this`routineHeading, this`constructors
      ensures Valid() && (!lost ==> i == old(i) + 1)
      ensures old(Accounted()) ==> Accounted()
      ensures lost ==> i == old(i) && StuckAtAngle(i)
      ensures PassesName(a, scanned, old(Now()), Now(), lost)
    {
      var c := scanned[i];
      lost := Punctuate(c);
      SignPasses(a, scanned, old(Now()), if lost then Now() else Now().(i := i + 1), i + 1, lost);
      if lost {
        return;
      }
      var next := i + 1;
      OffSign(a, scanned, i, next);
      MoveTo(next);
    }

    /** The end of a comment in brackets; one that is not closed leaves its last character over. */
    method StarCommentEnd(start: nat) returns (end: nat)
      requires start + 2 <= |scanned|
      ensures start + 2 <= end <= |scanned| && (end + 1 < |scanned| ==> scanned[end - 1] == ')')
      ensures end == StarEnd(scanned, start + 2)
    {
      end := start + 2;
      while end + 1 < |scanned| && !PairAt(scanned, end, '*', ')')
        invariant start + 2 <= end <= |scanned| && StarEnd(scanned, start + 2) == StarEnd(scanned, end)
      {
        end := end + 1;
      }
      if end + 1 < |scanned| {
        end := end + 2;
      }
    }

    /** The end of a literal. */
    method LiteralEnd() returns (end: nat)
      requires i < |scanned| && scanned[i] == '\''
      ensures i < end <= |scanned| && OffNames(a, scanned, end)
      ensures end == i + ChunkLength(scanned[i..])
    {
      ghost var rest := scanned[i..];
      var blockEnd := OutlineCompactor.MultilineStringBlockEnd(scanned, i);
      if blockEnd >= 0 {
        BlockCloses(rest);
        end := blockEnd;
      } else {
        QuotedCloses(rest, 1);
        end := OutlineCompactor.QuotedStringEnd(scanned, i);
      }
      LiteralOff(a, scanned, i, rest, end - i);
    }

    /** Moves over a literal. */
    method Literal()
      requires Valid() && i < |scanned| && scanned[i] == '\''
      modifies this`i, this`previous, this`previousIsIdentifier, this`genericOwnerReady
      ensures Valid() && i == old(i) + ChunkLength(scanned[old(i)..])
      ensures previous == Some("literal") && !previousIsIdentifier && !genericOwnerReady
      ensures old(Accounted()) ==> Accounted()
      ensures KindAt(a, scanned, old(i)).Quoted? ==> Passes(a, scanned, old(Now()), Now(), false)
    {
      var end := LiteralEnd();
      previous, previousIsIdentifier := Some("literal"), false;
      genericOwnerReady := false;
      MoveTo(end);
      if KindAt(a, scanned, old(i)).Quoted? {
        OthersPass(a, scanned, old(Now()), Now(), end, false);
      }
    }

    /** The end of white space or of a comment; the index if there is none. */
    method TriviaEnd() returns (end: nat)
      requires i < |scanned| && OffNames(a, scanned, i)
      ensures i <= end <= |scanned| && OffNames(a, scanned, end)
      ensures end == if KindAt(a, scanned, i).Blank? then BlankEnd(scanned, i) else i
    {
      end := i;
      if IsSpace(scanned[i]) {
        end := RunTo(scanned, i + 1, IsSpace);
        OffBehind(a, scanned, end);
      } else if PairAt(scanned, i, '/', '/') {
        end := RunTo(scanned, i + 2, NotBreak());
        OffBefore(a, scanned, end);
      } else if scanned[i] == '{' {
        end := RunTo(scanned, i + 1, NotBrace());
        if end < |scanned| {
          end := end + 1;
          OffBehind(a, scanned, end);
        }
      } else if PairAt(scanned, i, '(', '*') {
        end := StarCommentEnd(i);
        if end + 1 < |scanned| {
          OffBehind(a, scanned, end);
        }
      }
    }

    /** Moves over white space or a comment, if there is one. */
    method Trivia() returns (moved: bool)
      requires Valid() && i < |scanned|
      modifies this`i
      ensures Valid() && (moved <==> KindAt(a, scanned, old(i)).Blank?)
      ensures i == if moved then BlankEnd(scanned, old(i)) else old(i)
      ensures old(Accounted()) ==> Accounted()
      ensures moved ==> Passes(a, scanned, old(Now()), Now(), false)
    {
      var end := TriviaEnd();
      moved := end > i;
      MoveTo(end);
      if moved {
        OthersPass(a, scanned, old(Now()), Now(), end, false);
      }
    }

    /** Moves over a word. */
    method ReadWord() returns (start: nat, word: string)
      requires Valid() && i < |scanned| && StartsName(a, scanned[i])
      modifies this`i, this`genericOwnerReady
      ensures Valid() && start == old(i) && IsWord(a, scanned, start, i) && word == a.fold(scanned[start..i])
      ensures i == NameEnd(a, scanned, start) && !genericOwnerReady
      ensures LastEnd(bodies) <= start && (bodyStart.Some? ==> bodyStart.value <= start)
      ensures old(Accounted()) ==> Accounted()
    {
      start := i;
      var end := RunTo(scanned, i + 1, NamePart(a));
      OffBefore(a, scanned, end);
      MoveTo(end);
      word := a.fold(scanned[start..i]);
      genericOwnerReady := false;
    }

    /** Lets a word that is read act on the blocks. */
    method MoveBlocks(start: nat, word: string) returns (lost: bool, pushed: bool)
      requires Valid() && IsWord(a, scanned, start, i) && word == a.fold(scanned[start..i]) && LastEnd(bodies) <= start
      requires bodyStart.Some? ==> bodyStart.value <= start
      modifies this`endStack, this`bodyStart, this`bodies, this`entered, chars
      ensures Valid() && (old(Accounted()) ==> Accounted())
      ensures lost ==> StuckAtWord(start, word)
      ensures AddsAtMostOne(old(bodies), bodies)
      ensures IsCalmFor(old(Now()), word) ==> !lost && Moves(old(Now()), word, start, pushed, Now())
    {
      ghost var before := Now();
      lost, pushed := Word(start, word);
      ghost var after := Now();
      if before.stack == [] && before.angles == 0 {
        WordMoves(before, word, start, pushed, after);
      } else if IsCalmFor(before, word) {
        assert old(IsPlainTop());
        WordMoves(before, word, start, pushed, after);
      }
    }

    /** Lets a word that is read act, and remembers it. */
    method Act(start: nat, word: string) returns (lost: bool)
      requires Valid() && IsWord(a, scanned, start, i) && word == a.fold(scanned[start..i]) && LastEnd(bodies) <= start
      requires bodyStart.Some? ==> bodyStart.value <= start
      requires !genericOwnerReady
      modifies this`endStack, this`bodyStart, this`bodies, this`entered, this`genericOwnerReady, this`routineHeading, this`constructors,
               this`previous, this`previousIsIdentifier, chars
      ensures Valid() && (old(Accounted()) ==> Accounted())
      ensures lost ==> StuckAtWord(start, word)
      ensures AddsAtMostOne(old(bodies), bodies)
      ensures IsCalmFor(old(Now()), word) ==> !lost && Acts(old(Now()), word, start, Now())
    {
      var pushed;
      lost, pushed := MoveBlocks(start, word);
      ghost var mid := Now();
      if !lost {
        Remember(word, pushed);
        if IsCalmFor(old(Now()), word) {
          RememberedActs(old(Now()), word, start, pushed, mid, Now());
        }
      }
    }

    /** Moves over a word and lets it act. */
    method Name() returns (lost: bool, ghost word: string)
      requires Valid() && i < |scanned| && StartsName(a, scanned[i])
      requires !IsEscape(a, scanned, i)
      modifies this, chars
      ensures Valid() && i > old(i) && (old(Accounted()) ==> Accounted())
      ensures lost ==> StuckAtWord(old(i), word)
      ensures AddsAtMostOne(old(bodies), bodies)
      ensures PassesName(a, scanned, old(Now()), Now(), lost)
    {
      var start, name := ReadWord();
      word := name;
      ghost var read := Now();
      lost := Act(start, name);
      NamePasses(a, scanned, old(Now()), name, read, Now(), lost);
    }

    /** Moves over an escaped identifier. */
    method Escaped()
      requires Valid() && IsEscape(a, scanned, i)
      modifies this`i, this`previous, this`previousIsIdentifier, this`genericOwnerReady
      ensures Valid() && i == NameEnd(a, scanned, old(i) + 1) && !genericOwnerReady
      ensures old(Accounted()) ==> Accounted()
      ensures PassesName(a, scanned, old(Now()), Now(), false)
    {
      var start := i;
      var end := RunTo(scanned, i + 2, NamePart(a));
      previous, previousIsIdentifier := Some(a.fold(scanned[start..end])), true;
      genericOwnerReady := false;
      OffBefore(a, scanned, end);
      MoveTo(end);
      SignPasses(a, scanned, old(Now()), Now(), end, false);
    }

    /** Moves over a word or an escaped identifier, and lets a word act. */
    method NameOrSign() returns (lost: bool, ghost word: string)
      requires Valid() && i < |scanned|
      modifies this, chars
      ensures Valid() && (!lost ==> i > old(i)) && (old(Accounted()) ==> Accounted())
      ensures lost ==> Stuck(old(i), word)
      ensures AddsAtMostOne(old(bodies), bodies)
      ensures PassesName(a, scanned, old(Now()), Now(), lost)
    {
      if IsEscape(a, scanned, i) {
        Escaped();
        lost, word := false, "";
      } else if StartsName(a, scanned[i]) {
        lost, word := Name();
      } else {
        lost := Sign();
        word := "";
      }
    }

    /** One turn of the scan. */
    method Turn() returns (lost: bool, ghost word: string)
      requires Valid() && i < |scanned|
      modifies this, chars
      ensures Valid() && (!lost ==> i > old(i)) && (old(Accounted()) ==> Accounted())
      ensures lost ==> Stuck(old(i), word)
      ensures AddsAtMostOne(old(bodies), bodies)
      ensures !IsDirective(scanned, old(i)) ==> Passes(a, scanned, old(Now()), Now(), lost)
    {
      ghost var start := i;
      var directive := DirectiveAt(a, scanned, i);
      if directive.Some? && (|endStack| > 0 || |frames| > 0) {
        lost := Directive(directive.value.0, directive.value.1);
        assert lost ==> StuckAtDirective(start);
        word := "";
        return;
      }
      lost, word := Element();
    }

    /** Moves over one element. */
    method Element() returns (lost: bool, ghost word: string)
      requires Valid() && i < |scanned|
      modifies this, chars
      ensures Valid() && (!lost ==> i > old(i)) && (old(Accounted()) ==> Accounted())
      ensures lost ==> Stuck(old(i), word)
      ensures AddsAtMostOne(old(bodies), bodies)
      ensures Passes(a, scanned, old(Now()), Now(), lost)
    {
      var moved := Trivia();
      if moved {
        return false, "";
      }
      if scanned[i] == '\'' {
        Literal();
        return false, "";
      }
      lost, word := NameOrSign();
    }

    /** The scan is where the list says. */
    ghost predicate Tracks(list: List, lists: seq<List>)
      reads this`i, this`endStack, this`frames, this`bodies, this`bodyStart, this`angles, this`routineHeading, this`genericOwnerReady
    {
      lists != [] && Follows(a, scanned, list, Now(), lists)
    }

    /** One turn, and what is left of the list behind it. */
    method FollowTurn(ghost list: List, ghost lists: seq<List>) returns (lost: bool, ghost word: string, ghost left: seq<List>)
      requires Valid() && i < |scanned| && Tracks(list, lists)
      modifies this, chars
      ensures Valid() && (!lost ==> i > old(i)) && (old(Accounted()) ==> Accounted())
      ensures lost ==> Stuck(old(i), word) && !ReadsAll(a, scanned, list)
      ensures Tracks(list, left)
    {
      lost, word := Turn();
      left := FollowsTurn(a, scanned, list, old(Now()), lists, Now());
    }

    /** The whole scan. The text comes back as it is exactly when the scan loses its way or ends
        within angle brackets or a condition; otherwise the outline does, with each body that was
        opened, if no directive acted. Where the text reads as a list of blocks the scan is not lost,
        and the bodies are those of the list. */
    method Run(ghost list: List) returns (r: string, ghost lost: bool, ghost at: nat, ghost word: string)
      requires Valid() && Accounted() && Now() == View(0, [], [], [], None, 0, false, false)
      modifies this, chars
      ensures Valid() && Accounted()
      ensures ReadsAll(a, scanned, list) ==> !lost && angles == 0 && frames == [] && bodies == Bodies(a, scanned, 0, list)
      ensures if lost then Stuck(at, word) else i == |scanned|
      ensures r == if lost || angles > 0 || frames != [] then scanned else chars[..]
    {
      at, word := i, "";
      ghost var lists := [list];
      FollowsStarts(a, scanned, list);
      while i < |scanned|
        invariant Valid() && Accounted() && Tracks(list, lists)
        decreases |scanned| - i
      {
        at := i;
        var gaveUp;
        gaveUp, word, lists := FollowTurn(list, lists);
        if gaveUp {
          return scanned, true, at, word;
        }
      }
      lost := false;
      FollowsEnds(a, scanned, list, Now(), lists);
      r := if angles > 0 || |frames| > 0 then scanned else chars[..];
    }
  }

  /** On every text, whatever the scan meets, the result has the length of the scanned text and
      differs from it only by blanks within bodies that stand between a BEGIN or ASM and an END. Of a text that
      reads as a list of blocks it blanks exactly the bodies of the outermost ones. */
  method BlankCompoundStatementBodies(a: Alphabet, text: string, scanText: Option<string>, ghost list: List)
    returns (r: string, ghost bodies: seq<Body>)
    ensures var scanned := if scanText.Some? then scanText.value else text;
      if |scanned| != |text| then r == text
      else
        && AreBodies(a, scanned, bodies) && LastEnd(bodies) <= |scanned| && IsOutline(scanned, bodies, r)
        && (ReadsAll(a, scanned, list) ==> bodies == Bodies(a, scanned, 0, list))
  {
    var scanned := if scanText.Some? then scanText.value else text;
    bodies := [];
    if |scanned| != |text| {
      return text, bodies;
    }
    var scan := new Scan(a, scanned);
    ghost var lost, at, word;
    r, lost, at, word := scan.Run(list);
    if !IsOutline(scanned, scan.bodies, r) {
      assert IsOutline(scanned, [], scanned);
    } else {
      bodies := scan.bodies;
    }
  }
}
