/** Texts without conditional directives as nested blocks: which elements a text is made of, which bodies its
    blocks have, and what a scan that keeps a stack of open blocks does on it. */
module OutlineReadings {
  import opened Wrappers
  import opened LexicalChunks
  import opened LexerGrammar
  import opened OutlineStacks

  /** From behind a word that opens a body to the word that ends it. */
  datatype Body = Body(start: nat, end: nat)

  // ----- elements -----

  function NotBreak(): char -> bool {
    c => c != '\r' && c != '\n'
  }

  function NotBrace(): char -> bool {
    c => c != '}'
  }

  datatype ElementKind = Blank | Quoted | Escaped | Word | Sign

  /** White space and comments come before literals, these before names, and these before signs. */
  function KindAt(a: Alphabet, s: string, i: nat): ElementKind
    requires i < |s|
  {
    if IsSpace(s[i]) || PairAt(s, i, '/', '/') || s[i] == '{' || PairAt(s, i, '(', '*') then Blank
    else if s[i] == '\'' then Quoted
    else if s[i] == '&' && i + 1 < |s| && StartsName(a, s[i + 1]) then Escaped
    else if StartsName(a, s[i]) then Word
    else Sign
  }

  /** Behind the first closing pair from `i` on; without one, before the last character. */
  function StarEnd(s: string, i: nat): (r: nat)
    requires i <= |s|
    ensures i <= r <= |s|
    decreases |s| - i
  {
    if i + 1 >= |s| then i else if s[i] == '*' && s[i + 1] == ')' then i + 2 else StarEnd(s, i + 1)
  }

  lemma {:induction false} StarEndIsFirst(s: string, i: nat)
    requires i <= |s|
    ensures var r := StarEnd(s, i);
            || (i <= r - 2 && StandsAt(s, "*)", r - 2) && forall k :: i <= k < r - 2 ==> !StandsAt(s, "*)", k))
            || ((r == i || r + 1 == |s|) && forall k :: i <= k ==> !StandsAt(s, "*)", k))
    decreases |s| - i
  {
    if i + 1 < |s| {
      assert s[i..i + 2] == [s[i], s[i + 1]];
      if !(s[i] == '*' && s[i + 1] == ')') {
        StarEndIsFirst(s, i + 1);
      }
    }
  }

  function BlankEnd(s: string, i: nat): (r: nat)
    requires i < |s|
    ensures i < r <= |s|
  {
    if IsSpace(s[i]) then RunEnd(s, i + 1, IsSpace)
    else if PairAt(s, i, '/', '/') then RunEnd(s, i + 2, NotBreak())
    else if s[i] == '{' then
      var close := RunEnd(s, i + 1, NotBrace());
      if close < |s| then close + 1 else close
    else if PairAt(s, i, '(', '*') then StarEnd(s, i + 2)
    else i + 1
  }

  function NameEnd(a: Alphabet, s: string, i: nat): (r: nat)
    requires i < |s|
    ensures i < r <= |s|
  {
    RunEnd(s, i + 1, NamePart(a))
  }

  /** Where the element at `i` ends. */
  function ElementEnd(a: Alphabet, s: string, i: nat): (r: nat)
    requires i < |s|
    ensures i < r <= |s|
  {
    match KindAt(a, s, i)
    case Blank => BlankEnd(s, i)
    case Quoted => i + ChunkLength(s[i..])
    case Escaped => NameEnd(a, s, i + 1)
    case Word => NameEnd(a, s, i)
    case Sign => i + 1
  }

  function Next(a: Alphabet, s: string, i: nat): (r: nat)
    ensures i < |s| ==> i < r <= |s|
  {
    if i < |s| then ElementEnd(a, s, i) else i
  }

  function WordFrom(a: Alphabet, s: string, i: nat): string
    requires i < |s|
  {
    a.fold(s[i..NameEnd(a, s, i)])
  }

  predicate IsWordAt(a: Alphabet, s: string, i: nat) {
    i < |s| && KindAt(a, s, i) == Word
  }

  /** A directive in braces or in brackets with stars. */
  predicate IsDirective(s: string, i: nat) {
    PairAt(s, i, '{', '$') || (PairAt(s, i, '(', '*') && CharAt(s, i + 2, '$'))
  }

  predicate HeadsRoutine(word: string) {
    word == "constructor" || word == "destructor" || word == "function" || word == "operator" || word == "procedure"
  }

  // ----- blocks -----

  /** A text in elements that open and close no block, and blocks with their own elements. */
  datatype List = Done | Quiet(rest: List) | Nested(inner: List, rest: List)

  /** Outside of blocks no angle bracket, and no word that opens a body; inside no structured type, no heading of
      a routine, and no word that opens or closes a block. */
  predicate QuietAt(a: Alphabet, s: string, i: nat, inside: bool) {
    && i < |s| && !IsDirective(s, i)
    && (KindAt(a, s, i) == Sign && !inside ==> s[i] != '<')
    && (KindAt(a, s, i) == Word ==>
          var word := WordFrom(a, s, i);
          && word != "begin" && word != "asm"
          && (inside ==> word != "case" && word != "try" && word != "end" && !IsStructured(word) && !HeadsRoutine(word)))
  }

  /** A body is opened by BEGIN or ASM; within one CASE and TRY open blocks too. */
  predicate OpensAt(a: Alphabet, s: string, i: nat, inside: bool) {
    && IsWordAt(a, s, i)
    && var word := WordFrom(a, s, i);
       word == "begin" || word == "asm" || (inside && (word == "case" || word == "try"))
  }

  predicate ClosesAt(a: Alphabet, s: string, i: nat) {
    IsWordAt(a, s, i) && WordFrom(a, s, i) == "end"
  }

  /** The place behind the elements of a list. */
  function After(a: Alphabet, s: string, i: nat, list: List): nat
    decreases list
  {
    match list
    case Done => i
    case Quiet(rest) => After(a, s, Next(a, s, i), rest)
    case Nested(inner, rest) => After(a, s, Next(a, s, After(a, s, Next(a, s, i), inner)), rest)
  }

  /** The text reads as the list from `i`. */
  ghost predicate Reads(a: Alphabet, s: string, i: nat, list: List, inside: bool)
    decreases list
  {
    match list
    case Done => true
    case Quiet(rest) => QuietAt(a, s, i, inside) && Reads(a, s, Next(a, s, i), rest, inside)
    case Nested(inner, rest) =>
      var close := After(a, s, Next(a, s, i), inner);
      && OpensAt(a, s, i, inside) && Reads(a, s, Next(a, s, i), inner, true)
      && ClosesAt(a, s, close) && Reads(a, s, Next(a, s, close), rest, inside)
  }

  /** The bodies of the outermost blocks: each from behind its first word to its last. */
  function Bodies(a: Alphabet, s: string, i: nat, list: List): seq<Body>
    decreases list
  {
    match list
    case Done => []
    case Quiet(rest) => Bodies(a, s, Next(a, s, i), rest)
    case Nested(inner, rest) =>
      var close := After(a, s, Next(a, s, i), inner);
      [Body(Next(a, s, i), close)] + Bodies(a, s, Next(a, s, close), rest)
  }

  /** The whole text reads as the list. */
  ghost predicate ReadsAll(a: Alphabet, s: string, list: List) {
    Reads(a, s, 0, list, false) && After(a, s, 0, list) == |s|
  }

  // ----- the lists that are left -----

  /** From `i` the innermost list reads, and behind the word that closes it the next one, to the end of the text. */
  ghost predicate Left(a: Alphabet, s: string, i: nat, lists: seq<List>)
    requires lists != []
    decreases |lists|
  {
    var top, below := lists[|lists| - 1], lists[..|lists| - 1];
    var close := After(a, s, i, top);
    if below == [] then Reads(a, s, i, top, false) && close == |s|
    else Reads(a, s, i, top, true) && ClosesAt(a, s, close) && Left(a, s, Next(a, s, close), below)
  }

  /** The bodies that are still to come, the open one first. */
  function Coming(a: Alphabet, s: string, i: nat, lists: seq<List>, start: nat): seq<Body>
    requires lists != []
    decreases |lists|
  {
    var top, below := lists[|lists| - 1], lists[..|lists| - 1];
    var close := After(a, s, i, top);
    if below == [] then Bodies(a, s, i, top)
    else if |below| == 1 then [Body(start, close)] + Bodies(a, s, Next(a, s, close), below[0])
    else Coming(a, s, Next(a, s, close), below, start)
  }

  /** What is left behind the element at the place. */
  function Moved(lists: seq<List>): seq<List>
    requires lists != []
  {
    var top, below := lists[|lists| - 1], lists[..|lists| - 1];
    match top
    case Done => below
    case Quiet(rest) => below + [rest]
    case Nested(inner, rest) => below + [rest] + [inner]
  }

  // ----- a scan -----

  /** What the scan looks at to follow the blocks. */
  datatype View = View(i: nat, stack: Stack, frames: seq<Frame>, bodies: seq<Body>, bodyStart: Option<nat>,
                       angles: nat, heading: bool, owner: bool)

  /** Neither a directive nor an angle bracket nor a structured type is in the way. */
  predicate IsCalm(a: Alphabet, s: string, v: View) {
    && v.i < |s| && !IsDirective(s, v.i) && v.angles == 0 && !v.owner
    && (KindAt(a, s, v.i) == Sign && s[v.i] == '<' ==> !v.heading)
    && (KindAt(a, s, v.i) == Word && v.stack != [] ==> !IsStructured(WordFrom(a, s, v.i)) && !IsStructured(v.stack[|v.stack| - 1]))
  }

  /** One word pushes itself, pops the top, or leaves the stack. */
  ghost predicate Stepped(before: Stack, word: string, pushed: bool, after: Stack) {
    if before == [] then after == if word == "begin" || word == "asm" then [word] else []
    else if word == "end" then after == before[..|before| - 1]
    else after == if pushed then before + [word] else before
  }

  /** What one element does to a calm scan: it is passed, and only words touch the stack and the bodies. */
  ghost predicate Steps(a: Alphabet, s: string, v: View, w: View)
    requires v.i < |s|
  {
    && w.i == Next(a, s, v.i) && w.frames == v.frames && w.angles == 0 && !w.owner
    && if KindAt(a, s, v.i) == Word then
         var word := WordFrom(a, s, v.i);
         && Stepped(v.stack, word, IsStatement(word), w.stack)
         && w.bodies == (if word == "end" && |v.stack| == 1 && v.bodyStart.Some? then v.bodies + [Body(v.bodyStart.value, v.i)] else v.bodies)
         && w.bodyStart == (if v.stack == [] && w.stack != [] then Some(w.i) else if v.stack != [] && w.stack == [] then None else v.bodyStart)
         && (w.heading ==> !(word == "begin" || word == "asm") && (v.heading || HeadsRoutine(word)))
       else w.stack == v.stack && w.bodies == v.bodies && w.bodyStart == v.bodyStart && (w.heading ==> v.heading)
  }

  function StartOf(v: View): nat {
    if v.bodyStart.Some? then v.bodyStart.value else 0
  }

  /** The scan is in line with the lists that are left, and has the same bodies before it and to come. */
  ghost predicate IsLevel(a: Alphabet, s: string, v: View, lists: seq<List>, all: seq<Body>) {
    && |lists| == |v.stack| + 1 && (forall k :: 0 <= k < |v.stack| ==> IsStatement(v.stack[k]))
    && (v.stack != [] ==> !v.heading) && (v.bodyStart.Some? <==> v.stack != [])
    && Left(a, s, v.i, lists) && v.bodies + Coming(a, s, v.i, lists, StartOf(v)) == all
  }

  /** Unless the scan is lost the whole element is passed, and a calm scan takes the step of the element. */
  ghost predicate Passes(a: Alphabet, s: string, v: View, w: View, lost: bool) {
    v.i < |s| && (!lost ==> w.i == Next(a, s, v.i)) && (IsCalm(a, s, v) ==> !lost && Steps(a, s, v, w))
  }

  /** An element that is no word is passed by moving behind it. */
  lemma {:induction false} OthersPass(a: Alphabet, s: string, v: View, w: View, end: nat, lost: bool)
    requires v.i < |s| && end == ElementEnd(a, s, v.i) && !KindAt(a, s, v.i).Word?
    requires w.stack == v.stack && w.frames == v.frames && w.bodies == v.bodies && w.bodyStart == v.bodyStart && (!lost ==> w.i == end)
    requires IsCalm(a, s, v) ==> !lost && w.angles == 0 && !w.owner && (w.heading ==> v.heading)
    ensures Passes(a, s, v, w, lost)
  {
  }

  predicate IsEscape(a: Alphabet, s: string, i: nat) {
    i + 1 < |s| && s[i] == '&' && StartsName(a, s[i + 1])
  }

  /** Where there is neither white space nor a comment nor a literal, the element is passed. */
  ghost predicate PassesName(a: Alphabet, s: string, v: View, w: View, lost: bool) {
    v.i < |s| && !KindAt(a, s, v.i).Blank? && !KindAt(a, s, v.i).Quoted? ==> Passes(a, s, v, w, lost)
  }

  lemma {:induction false} SignPasses(a: Alphabet, s: string, v: View, w: View, end: nat, lost: bool)
    requires v.i < |s| && if IsEscape(a, s, v.i) then end == NameEnd(a, s, v.i + 1) else !StartsName(a, s[v.i]) && end == v.i + 1
    requires w.stack == v.stack && w.frames == v.frames && w.bodies == v.bodies && w.bodyStart == v.bodyStart && (!lost ==> w.i == end)
    requires v.angles == 0 && !v.owner && (s[v.i] == '<' ==> !v.heading) ==> !lost && w.angles == 0 && !w.owner && (w.heading ==> v.heading)
    ensures PassesName(a, s, v, w, lost)
  {
    if !KindAt(a, s, v.i).Blank? && !KindAt(a, s, v.i).Quoted? {
      OthersPass(a, s, v, w, end, lost);
    }
  }

  /** No angle bracket is open, and the word neither opens nor stands in a structured type. */
  predicate IsCalmFor(v: View, word: string) {
    v.angles == 0 && (v.stack != [] ==> !IsStructured(word) && !IsStructured(v.stack[|v.stack| - 1]))
  }

  /** What a word that starts at `start` does to the stack and the bodies once it is read. */
  ghost predicate Acts(v: View, word: string, start: nat, w: View) {
    && w.i == v.i && w.frames == v.frames && w.angles == 0 && !w.owner
    && Stepped(v.stack, word, IsStatement(word), w.stack)
    && w.bodies == (if word == "end" && |v.stack| == 1 && v.bodyStart.Some? then v.bodies + [Body(v.bodyStart.value, start)] else v.bodies)
    && w.bodyStart == (if v.stack == [] && w.stack != [] then Some(w.i) else if v.stack != [] && w.stack == [] then None else v.bodyStart)
    && (w.heading ==> word != "begin" && word != "asm" && (v.heading || HeadsRoutine(word)))
  }

  /** The same before it is remembered. */
  ghost predicate Moves(v: View, word: string, start: nat, pushed: bool, w: View) {
    w.heading == v.heading && (pushed ==> word != "class") && Acts(v, word, start, w.(owner := false, heading := false))
  }

  lemma {:induction false} WordMoves(v: View, word: string, start: nat, pushed: bool, w: View)
    requires w.i == v.i && w.frames == v.frames && w.angles == 0 && w.heading == v.heading
    requires if v.stack == [] then !pushed else !IsStructured(word)
    requires Stepped(v.stack, word, IsStatement(word), w.stack)
    requires w.bodies == if word == "end" && |v.stack| == 1 && v.bodyStart.Some? then v.bodies + [Body(v.bodyStart.value, start)] else v.bodies
    requires w.bodyStart == if v.stack == [] && w.stack != [] then Some(w.i) else if v.stack != [] && w.stack == [] then None else v.bodyStart
    ensures Moves(v, word, start, pushed, w)
  {
  }

  lemma {:induction false} RememberedActs(v: View, word: string, start: nat, pushed: bool, mid: View, w: View)
    requires Moves(v, word, start, pushed, mid) && w == mid.(owner := word == "class" && pushed, heading := w.heading)
    requires w.heading == (word != "begin" && word != "asm" && (mid.heading || HeadsRoutine(word)))
    ensures Acts(v, word, start, w)
  {
  }

  lemma {:induction false} NamePasses(a: Alphabet, s: string, v: View, word: string, read: View, w: View, lost: bool)
    requires v.i < |s| && StartsName(a, s[v.i]) && !IsEscape(a, s, v.i) && word == WordFrom(a, s, v.i)
    requires read == v.(i := NameEnd(a, s, v.i), owner := false) && w.i == read.i
    requires IsCalmFor(read, word) ==> !lost && Acts(read, word, v.i, w)
    ensures PassesName(a, s, v, w, lost)
  {
    if !KindAt(a, s, v.i).Blank? && !KindAt(a, s, v.i).Quoted? {
      WordsPass(a, s, v, word, read, w, lost);
    }
  }

  lemma {:induction false} WordsPass(a: Alphabet, s: string, v: View, word: string, read: View, w: View, lost: bool)
    requires v.i < |s| && KindAt(a, s, v.i).Word? && word == WordFrom(a, s, v.i)
    requires read == v.(i := NameEnd(a, s, v.i), owner := false) && w.i == read.i
    requires IsCalmFor(read, word) ==> !lost && Acts(read, word, v.i, w)
    ensures Passes(a, s, v, w, lost)
  {
  }

  /** The scan has followed the list so far. */
  ghost predicate Follows(a: Alphabet, s: string, list: List, v: View, lists: seq<List>) {
    ReadsAll(a, s, list) ==>
      v.i <= |s| && v.frames == [] && v.angles == 0 && !v.owner && IsLevel(a, s, v, lists, Bodies(a, s, 0, list))
  }

  lemma {:induction false} FollowsStarts(a: Alphabet, s: string, list: List)
    ensures Follows(a, s, list, View(0, [], [], [], None, 0, false, false), [list])
  {
    assert [list][..0] == [];
  }

  lemma {:induction false} FollowsEnds(a: Alphabet, s: string, list: List, v: View, lists: seq<List>)
    requires Follows(a, s, list, v, lists) && v.i == |s|
    ensures ReadsAll(a, s, list) ==> v.angles == 0 && v.frames == [] && v.bodies == Bodies(a, s, 0, list)
  {
    if ReadsAll(a, s, list) {
      LeftEnds(a, s, lists);
      assert v.bodies + [] == v.bodies;
    }
  }

  /** At the end of the text nothing is left. */
  lemma {:induction false} LeftEnds(a: Alphabet, s: string, lists: seq<List>)
    requires lists != [] && Left(a, s, |s|, lists)
    ensures lists == [Done]
  {
  }

  lemma {:induction false} TopIsCalm(a: Alphabet, s: string, v: View, lists: seq<List>, all: seq<Body>)
    requires lists != [] && IsLevel(a, s, v, lists, all) && v.i < |s| && v.angles == 0 && !v.owner
    ensures IsCalm(a, s, v)
  {
  }

  lemma {:induction false} QuietMoves(a: Alphabet, s: string, v: View, lists: seq<List>, below: seq<List>, rest: List, all: seq<Body>, w: View)
    requires lists == below + [Quiet(rest)] && IsLevel(a, s, v, lists, all) && v.i < |s| && Steps(a, s, v, w)
    ensures IsLevel(a, s, w, below + [rest], all)
  {
    var after := below + [rest];
    assert lists[..|lists| - 1] == below && after[..|after| - 1] == below;
  }

  lemma {:induction false} NestedMoves(a: Alphabet, s: string, v: View, lists: seq<List>, below: seq<List>, inner: List, rest: List,
                                       all: seq<Body>, w: View)
    requires lists == below + [Nested(inner, rest)] && IsLevel(a, s, v, lists, all) && v.i < |s| && Steps(a, s, v, w)
    ensures IsLevel(a, s, w, below + [rest] + [inner], all)
  {
    NestedLeaves(a, s, v.i, lists, below, inner, rest, StartOf(v), w.i);
    WordPushes(a, s, v, w);
  }

  /** Behind the word that opens a block its elements are left, and behind them the rest. */
  lemma {:induction false} NestedLeaves(a: Alphabet, s: string, i: nat, lists: seq<List>, below: seq<List>, inner: List, rest: List,
                                        start: nat, next: nat)
    requires lists == below + [Nested(inner, rest)] && i < |s| && Left(a, s, i, lists) && next == Next(a, s, i)
    ensures OpensAt(a, s, i, below != []) && Left(a, s, next, below + [rest] + [inner])
    ensures Coming(a, s, i, lists, start) == Coming(a, s, next, below + [rest] + [inner], if below == [] then next else start)
  {
    var middle := below + [rest];
    var after := middle + [inner];
    assert lists[..|lists| - 1] == below && middle[..|middle| - 1] == below && after[..|after| - 1] == middle;
  }

  lemma {:induction false} WordPushes(a: Alphabet, s: string, v: View, w: View)
    requires v.i < |s| && OpensAt(a, s, v.i, v.stack != []) && Steps(a, s, v, w)
    ensures exists word :: IsStatement(word) && w.stack == v.stack + [word]
    ensures w.bodies == v.bodies && w.bodyStart == (if v.stack == [] then Some(w.i) else v.bodyStart)
    ensures v.stack != [] && !v.heading ==> !w.heading
    ensures v.stack == [] ==> !w.heading
  {
    var word := WordFrom(a, s, v.i);
    assert w.stack == v.stack + [word];
    assert !HeadsRoutine("begin") && !HeadsRoutine("asm") && !HeadsRoutine("case") && !HeadsRoutine("try");
  }

  lemma {:induction false} DoneMoves(a: Alphabet, s: string, v: View, lists: seq<List>, below: seq<List>, all: seq<Body>, w: View)
    requires lists == below + [Done] && IsLevel(a, s, v, lists, all) && v.i < |s| && Steps(a, s, v, w)
    ensures IsLevel(a, s, w, below, all)
  {
    DoneLeaves(a, s, v.i, lists, below, StartOf(v), w.i);
    EndPops(a, s, v, w);
    if |below| == 1 {
      Regroup(v.bodies, [Body(StartOf(v), v.i)], Bodies(a, s, w.i, below[0]), all);
      assert w.stack == [] && below[..0] == [];
    }
  }

  lemma {:induction false} Regroup<T>(a: seq<T>, b: seq<T>, c: seq<T>, whole: seq<T>)
    requires a + (b + c) == whole
    ensures (a + b) + c == whole
  {
  }

  /** The place closes the list that is used up. */
  lemma {:induction false} DoneLeaves(a: Alphabet, s: string, i: nat, lists: seq<List>, below: seq<List>, start: nat, next: nat)
    requires lists == below + [Done] && i < |s| && Left(a, s, i, lists) && next == Next(a, s, i)
    ensures below != [] && ClosesAt(a, s, i) && Left(a, s, next, below)
    ensures Coming(a, s, i, lists, start) == if |below| == 1 then [Body(start, i)] + Bodies(a, s, next, below[0]) else Coming(a, s, next, below, start)
  {
    assert lists[..|lists| - 1] == below;
  }

  lemma {:induction false} EndPops(a: Alphabet, s: string, v: View, w: View)
    requires v.i < |s| && ClosesAt(a, s, v.i) && v.stack != [] && v.bodyStart.Some? && Steps(a, s, v, w)
    ensures w.stack == v.stack[..|v.stack| - 1]
    ensures w.bodies == if |v.stack| == 1 then v.bodies + [Body(v.bodyStart.value, v.i)] else v.bodies
    ensures w.bodyStart == if |v.stack| == 1 then None else v.bodyStart
    ensures w.heading ==> v.heading
  {
    assert WordFrom(a, s, v.i) == "end" && !HeadsRoutine("end");
  }

  lemma {:induction false} TopMoves(a: Alphabet, s: string, v: View, lists: seq<List>, all: seq<Body>, w: View)
    requires lists != [] && IsLevel(a, s, v, lists, all) && v.i < |s| && Steps(a, s, v, w)
    ensures IsLevel(a, s, w, Moved(lists), all)
  {
    var top, below := lists[|lists| - 1], lists[..|lists| - 1];
    assert lists == below + [top];
    match top
    case Done => DoneMoves(a, s, v, lists, below, all, w);
    case Quiet(rest) => QuietMoves(a, s, v, lists, below, rest, all, w);
    case Nested(inner, rest) => NestedMoves(a, s, v, lists, below, inner, rest, all, w);
  }

  /** The lists behind an element, whatever the scan did. */
  lemma {:induction false} FollowsTurn(a: Alphabet, s: string, list: List, v: View, lists: seq<List>, w: View) returns (left: seq<List>)
    requires Follows(a, s, list, v, lists) && v.i < |s| && lists != []
    requires !IsDirective(s, v.i) && IsCalm(a, s, v) ==> Steps(a, s, v, w)
    ensures left != [] && Follows(a, s, list, w, left)
    ensures ReadsAll(a, s, list) ==> IsCalm(a, s, v)
  {
    if ReadsAll(a, s, list) {
      TopIsCalm(a, s, v, lists, Bodies(a, s, 0, list));
    }
    FollowsStep(a, s, list, v, lists, w);
    left := if Moved(lists) == [] then lists else Moved(lists);
  }

  /** Where a list is left the element is calm, and the scan stays with the list behind it. */
  lemma {:induction false} FollowsStep(a: Alphabet, s: string, list: List, v: View, lists: seq<List>, w: View)
    requires Follows(a, s, list, v, lists) && v.i < |s| && lists != []
    requires IsCalm(a, s, v) ==> Steps(a, s, v, w)
    ensures Follows(a, s, list, w, Moved(lists))
    ensures ReadsAll(a, s, list) ==> Moved(lists) != []
  {
    if ReadsAll(a, s, list) {
      TopIsCalm(a, s, v, lists, Bodies(a, s, 0, list));
      TopMoves(a, s, v, lists, Bodies(a, s, 0, list), w);
    }
  }
}
