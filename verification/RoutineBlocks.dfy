/** What the END that closes a block is: a grammar of nested blocks, told from the tokens, and the
    proof that the keyword stack finds exactly its ENDs. */
module RoutineBlocks {
  import opened RoutineTokens
  import opened Wrappers

  // ----- nested blocks -----

  /** A word that may act as a keyword, and is the given one. */
  predicate IsWord(ts: Tokens, i: nat, word: string) {
    i < |ts| && ts[i].word && !ts[i].escaped && !ts[i].directive && ts[i].value == word
  }

  predicate IsStructuredWord(word: string) {
    word == "class" || word == "record" || word == "object" || word == "interface" || word == "dispinterface"
  }

  /** The token opens a structured type: behind `=`, `:` or `packed`, as `record` or `object` also behind
      `^`, or behind the `of` of an array that starts at most 198 tokens back; a `class of` opens none,
      nor does a constraint behind `:` within angle brackets. */
  ghost predicate OpensType(ts: Tokens, i: nat)
    requires i < |ts|
  {
    && IsStructuredWord(ts[i].value) && i > 0
    && !(ts[i].value == "class" && i + 1 < |ts| && ts[i + 1].value == "of")
    && var previous := ts[i - 1].value;
       || previous == "=" || previous == "packed"
       || (previous == ":" && !InsideAngles(ts, i - 1, 0, 99))
       || (previous == "^" && (ts[i].value == "record" || ts[i].value == "object"))
       || (previous == "of" && (ts[i].value == "record" || ts[i].value == "object") && ArrayBefore(ts, i - 2, 198))
  }

  /** `array` at `j`, at most so many tokens back, with nothing in between that rules it out. */
  ghost predicate ArrayAt(ts: Tokens, j: int, i: int, reach: nat) {
    && i - reach < j <= i && 0 <= j <= i < |ts| && ts[j].value == "array"
    && forall k :: j < k <= i ==> ts[k].value !in {"procedure", "function", "reference", "=", ";"}
  }

  ghost predicate ArrayBefore(ts: Tokens, i: int, reach: nat) {
    exists j :: ArrayAt(ts, j, i, reach)
  }

  lemma {:induction false} ArrayIsFound(ts: Tokens, i: int, reach: nat)
    ensures IsArrayOf(ts, i, reach) <==> ArrayBefore(ts, i, reach)
    decreases reach
  {
    if reach > 0 && 0 <= i < |ts| {
      if ts[i].value == "array" {
        assert ArrayAt(ts, i, i, reach);
      } else {
        var before, less := i - 1, reach - 1;
        ArrayIsFound(ts, before, less);
        if ts[i].value !in {"procedure", "function", "reference", "=", ";"} && ArrayBefore(ts, before, less) {
          var j :| ArrayAt(ts, j, before, less);
          assert ArrayAt(ts, j, i, reach);
        }
        if j :| ArrayAt(ts, j, i, reach) {
          assert ArrayAt(ts, j, before, less);
        }
      }
    }
  }

  lemma {:induction false} OpensTypeHolds(ts: Tokens, i: nat)
    requires i < |ts| && IsStructuredWord(ts[i].value)
    ensures OpensType(ts, i) <==> IsStructuredOpener(ts, i)
  {
    if i > 0 {
      ArrayIsFound(ts, i - 2, 198);
    }
  }

  /** Behind an open block with the given word the token opens another one: never in assembler text,
      and a `case` directly in a structured type is its variant part. */
  ghost predicate OpensIn(ts: Tokens, i: nat, within: string)
    requires i < |ts|
  {
    && ts[i].word && !ts[i].escaped && !ts[i].directive && within != "asm"
    && (|| ts[i].value == "begin" || ts[i].value == "try" || ts[i].value == "asm"
        || (ts[i].value == "case" && !IsStructuredWord(within))
        || OpensType(ts, i))
  }

  /** The token neither opens nor closes anything there, and is no directive. */
  ghost predicate IsNeutral(ts: Tokens, i: nat, within: string)
    requires i < |ts|
  {
    !ts[i].directive && !IsWord(ts, i, "end") && !OpensIn(ts, i, within)
  }

  /** From the opener at `o` to its END at `e`: between them neutral tokens and whole blocks. */
  ghost predicate IsBlock(ts: Tokens, o: nat, e: nat)
    requires o < |ts|
    decreases e - o, 0
  {
    o < e && IsWord(ts, e, "end") && IsInner(ts, o + 1, e, ts[o].value)
  }

  /** From `i` up to `e` there are only neutral tokens and whole blocks. */
  ghost predicate IsInner(ts: Tokens, i: nat, e: nat, within: string)
    requires e <= |ts|
    decreases e - i, 1
  {
    || i == e
    || (i < e && IsNeutral(ts, i, within) && IsInner(ts, i + 1, e, within))
    || (i < e && OpensIn(ts, i, within) && exists f: nat :: IsNested(ts, i, f, e, within))
  }

  ghost predicate IsNested(ts: Tokens, i: nat, f: nat, e: nat, within: string)
    requires i < e <= |ts|
    decreases e - i, 0
  {
    i < f < e && IsBlock(ts, i, f) && IsInner(ts, f + 1, e, within)
  }

  // ----- the keyword stack closes them -----

  /** From `i` the open blocks close one after the other, the last at `e`. */
  ghost predicate Closes(ts: Tokens, i: nat, stack: seq<string>, e: nat)
    requires stack != []
    decreases |stack|
  {
    exists f: nat :: ClosesAt(ts, i, stack, e, f)
  }

  ghost predicate ClosesAt(ts: Tokens, i: nat, stack: seq<string>, e: nat, f: nat)
    requires stack != []
    decreases |stack|, 0
  {
    && i <= f && IsWord(ts, f, "end") && IsInner(ts, i, f, stack[|stack| - 1])
    && if |stack| == 1 then e == f else Closes(ts, f + 1, stack[..|stack| - 1], e)
  }

  /** What the loop makes of one token. */
  lemma {:induction false} ClosingStep(ts: Tokens, i: nat, stack: seq<string>, top: string)
    requires i < |ts| && stack != [] && top == stack[|stack| - 1] && !ts[i].directive
    ensures ClosingFrom(ts, i, stack) ==
            if OpensIn(ts, i, top) then ClosingFrom(ts, i + 1, stack + [ts[i].value])
            else if IsNeutral(ts, i, top) then ClosingFrom(ts, i + 1, stack)
            else if |stack| == 1 then Some(i)
            else ClosingFrom(ts, i + 1, stack[..|stack| - 1])
  {
    assert IsStructuredWord(top) <==> top in STRUCTURED_TYPE_WORDS;
    assert IsStructuredWord(ts[i].value) <==> ts[i].value in STRUCTURED_TYPE_WORDS;
    if IsStructuredWord(ts[i].value) {
      OpensTypeHolds(ts, i);
    }
  }

  lemma {:induction false} ClosingCloses(ts: Tokens, i: nat, stack: seq<string>, e: nat)
    requires stack != [] && ClosingFrom(ts, i, stack) == Some(e)
    ensures Closes(ts, i, stack, e)
    decreases |ts| - i
  {
    var top, next := stack[|stack| - 1], i + 1;
    ClosingStep(ts, i, stack, top);
    if OpensIn(ts, i, top) {
      var more := stack + [ts[i].value];
      assert more[..|more| - 1] == stack;
      ClosingCloses(ts, next, more, e);
      var f: nat :| ClosesAt(ts, next, more, e, f);
      var behind := f + 1;
      assert Closes(ts, behind, stack, e);
      var g: nat :| ClosesAt(ts, behind, stack, e, g);
      assert IsBlock(ts, i, f) && IsNested(ts, i, f, g, top);
      assert ClosesAt(ts, i, stack, e, g);
    } else if IsNeutral(ts, i, top) {
      ClosingCloses(ts, next, stack, e);
      var f: nat :| ClosesAt(ts, next, stack, e, f);
      assert ClosesAt(ts, i, stack, e, f);
    } else {
      if |stack| > 1 {
        ClosingCloses(ts, next, stack[..|stack| - 1], e);
      }
      assert ClosesAt(ts, i, stack, e, i);
    }
  }

  lemma {:induction false} ClosesClosing(ts: Tokens, i: nat, stack: seq<string>, e: nat)
    requires stack != [] && Closes(ts, i, stack, e)
    ensures ClosingFrom(ts, i, stack) == Some(e)
    decreases |ts| - i
  {
    var top, next := stack[|stack| - 1], i + 1;
    var f: nat :| ClosesAt(ts, i, stack, e, f);
    ClosingStep(ts, i, stack, top);
    if i == f {
      if |stack| > 1 {
        ClosesClosing(ts, next, stack[..|stack| - 1], e);
      }
    } else if OpensIn(ts, i, top) {
      var more := stack + [ts[i].value];
      assert more[..|more| - 1] == stack;
      assert IsInner(ts, i, f, top) && !IsNeutral(ts, i, top);
      var g: nat :| IsNested(ts, i, g, f, top);
      assert IsBlock(ts, i, g) && IsInner(ts, g + 1, f, top);
      assert ClosesAt(ts, g + 1, stack, e, f);
      assert Closes(ts, g + 1, more[..|more| - 1], e);
      assert ClosesAt(ts, next, more, e, g);
      ClosesClosing(ts, next, more, e);
    } else {
      assert ClosesAt(ts, next, stack, e, f);
      ClosesClosing(ts, next, stack, e);
    }
  }

  /** The token found is the END of the block that opens there, and none is found exactly if there
      is no such END. */
  lemma {:induction false} ClosingIsBlock(ts: Tokens, o: nat, e: nat)
    requires o < |ts|
    ensures ClosingFrom(ts, o + 1, [ts[o].value]) == Some(e) <==> IsBlock(ts, o, e)
  {
    var stack := [ts[o].value];
    if ClosingFrom(ts, o + 1, stack) == Some(e) {
      ClosingCloses(ts, o + 1, stack, e);
      var f: nat :| ClosesAt(ts, o + 1, stack, e, f);
    }
    if IsBlock(ts, o, e) {
      assert ClosesAt(ts, o + 1, stack, e, e);
      ClosesClosing(ts, o + 1, stack, e);
    }
  }

  /** A block has one END. */
  lemma {:induction false} OneEnd(ts: Tokens, o: nat, e: nat, f: nat)
    requires o < |ts| && IsBlock(ts, o, e) && IsBlock(ts, o, f)
    ensures e == f
  {
    ClosingIsBlock(ts, o, e);
    ClosingIsBlock(ts, o, f);
  }

  /** The text position behind the END at `e`, and behind a semicolon or a dot that follows it. */
  function BehindEnd(ts: Tokens, e: nat): nat
    requires e < |ts|
  {
    if e + 1 < |ts| && (ts[e + 1].value == ";" || ts[e + 1].value == ".") then ts[e + 1].end else ts[e].end
  }

  /** The answer for the opener at `o`, told from the tokens. */
  ghost predicate EndsBlock(ts: Tokens, o: nat, r: Option<nat>)
    requires o < |ts|
  {
    if r.None? then forall e: nat :: !IsBlock(ts, o, e) else exists e: nat :: IsBlock(ts, o, e) && r.value == BehindEnd(ts, e)
  }

  lemma {:induction false} BlockEndHolds(ts: Tokens, o: nat)
    requires o < |ts|
    ensures EndsBlock(ts, o, BlockEnd(ts, o))
    ensures forall e: nat :: IsBlock(ts, o, e) ==> BlockEnd(ts, o) == Some(BehindEnd(ts, e))
  {
    forall e: nat
      ensures ClosingFrom(ts, o + 1, [ts[o].value]) == Some(e) <==> IsBlock(ts, o, e)
    {
      ClosingIsBlock(ts, o, e);
    }
    var close := ClosingFrom(ts, o + 1, [ts[o].value]);
    if close.Some? {
      assert IsBlock(ts, o, close.value);
    }
  }

  /** The text position behind the END that closes the block, with a following `;` or `.`. */
  method MatchEndTerminatedBlock(ts: Tokens, opener: nat) returns (r: Option<nat>)
    requires opener < |ts|
    ensures r == BlockEnd(ts, opener) && EndsBlock(ts, opener, r)
  {
    BlockEndHolds(ts, opener);
    var stack := [ts[opener].value];
    var index := opener + 1;
    while index < |ts|
      invariant stack != []
      invariant ClosingFrom(ts, index, stack) == ClosingFrom(ts, opener + 1, [ts[opener].value])
    {
      var token := ts[index];
      if token.directive {
        return None;
      }
      if token.word && !token.escaped {
        var top, value := stack[|stack| - 1], token.value;
        if top != "asm" && value in BLOCK_WORDS {
          if !(value == "case" && top in STRUCTURED_TYPE_WORDS) {
            stack := stack + [value];
          }
        } else if top != "asm" && value in STRUCTURED_TYPE_WORDS && IsStructuredOpener(ts, index) {
          stack := stack + [value];
        } else if value == "end" {
          if |stack| == 1 {
            return Some(if Value(ts, index + 1) in {";", "."} then ts[index + 1].end else token.end);
          }
          stack := stack[..|stack| - 1];
        }
      }
      index := index + 1;
    }
    return None;
  }
}
