/** Lists of tokens as the parser takes them apart: brackets, separators, the end of a stretch. */
module TokenLists {
  import opened Wrappers
  import opened LexerGrammar

  /** What the parser looks at in a token; `word` is the folded value. */
  datatype Tok = Tok(kind: TokenKind, value: string, word: string, start: nat, end: nat, line: nat, column: nat)

  datatype Depths = Depths(round: nat, square: nat, angle: nat) {
    predicate Flat() {
      round == 0 && square == 0 && angle == 0
    }
  }

  const FLAT := Depths(0, 0, 0)

  function Less(n: nat): nat {
    if n > 0 then n - 1 else 0
  }

  function Deepen(d: Depths, value: string): Depths {
    if value == "(" then d.(round := d.round + 1)
    else if value == ")" then d.(round := Less(d.round))
    else if value == "[" then d.(square := d.square + 1)
    else if value == "]" then d.(square := Less(d.square))
    else if value == "<" then d.(angle := d.angle + 1)
    else if value == ">" then d.(angle := Less(d.angle))
    else d
  }

  // ----- splitting -----

  /** The last token is a separator outside of all brackets. */
  predicate EndsPart(values: seq<Tok>, separator: string)
    requires values != []
  {
    values[|values| - 1].value == separator && DepthsOfParts(values[..|values| - 1], separator).Flat()
  }

  /** The depths behind a list whose separators outside of brackets are left out. */
  function DepthsOfParts(values: seq<Tok>, separator: string): Depths {
    if values == [] then FLAT
    else
      var before := DepthsOfParts(values[..|values| - 1], separator);
      if values[|values| - 1].value == separator && before.Flat() then before else Deepen(before, values[|values| - 1].value)
  }

  /** The parts between the separators outside of brackets; the last one is still open. */
  function Parts(values: seq<Tok>, separator: string): (r: seq<seq<Tok>>)
    ensures r != []
  {
    if values == [] then [[]]
    else
      var before := Parts(values[..|values| - 1], separator);
      if EndsPart(values, separator) then before + [[]]
      else before[..|before| - 1] + [before[|before| - 1] + [values[|values| - 1]]]
  }

  method SplitTopLevel(values: seq<Tok>, separator: string) returns (r: seq<seq<Tok>>)
    ensures r == if values == [] then [] else Parts(values, separator)
  {
    if |values| == 0 {
      return [];
    }
    var done: seq<seq<Tok>> := [];
    var current: seq<Tok> := [];
    var d := FLAT;
    for k := 0 to |values|
      invariant done + [current] == Parts(values[..k], separator) && d == DepthsOfParts(values[..k], separator)
    {
      assert values[..k + 1][..k] == values[..k];
      if values[k].value == separator && d.Flat() {
        done := done + [current];
        current := [];
      } else {
        assert (done + [current])[..|done|] == done;
        current := current + [values[k]];
        d := Deepen(d, values[k].value);
      }
    }
    assert values[..|values|] == values;
    r := done + [current];
  }

  /** The parts with a separator between each two. */
  function Rejoin(parts: seq<seq<Tok>>, separators: seq<Tok>): seq<Tok>
    requires |parts| == |separators| + 1
  {
    if |parts| == 1 then parts[0]
    else Rejoin(parts[..|parts| - 1], separators[..|separators| - 1]) + [separators[|separators| - 1]] + parts[|parts| - 1]
  }

  /** The separators that split a list. */
  function Splitters(values: seq<Tok>, separator: string): (r: seq<Tok>)
    ensures |r| + 1 == |Parts(values, separator)|
    ensures forall t :: t in r ==> t.value == separator
  {
    if values == [] then []
    else Splitters(values[..|values| - 1], separator) + if EndsPart(values, separator) then [values[|values| - 1]] else []
  }

  lemma {:induction false} RejoinNew(parts: seq<seq<Tok>>, separators: seq<Tok>, t: Tok)
    requires |parts| == |separators| + 1
    ensures Rejoin(parts + [[]], separators + [t]) == Rejoin(parts, separators) + [t]
  {
    assert (parts + [[]])[..|parts|] == parts && (separators + [t])[..|separators|] == separators;
  }

  lemma {:induction false} RejoinGrow(parts: seq<seq<Tok>>, separators: seq<Tok>, t: Tok)
    requires |parts| == |separators| + 1
    ensures Rejoin(parts[..|parts| - 1] + [parts[|parts| - 1] + [t]], separators) == Rejoin(parts, separators) + [t]
  {
    var n := |parts| - 1;
    var after := parts[..n] + [parts[n] + [t]];
    assert after[..n] == parts[..n] && after[n] == parts[n] + [t];
    if n > 0 {
      var front := Rejoin(parts[..n], separators[..n - 1]) + [separators[n - 1]];
      assert front + (parts[n] + [t]) == (front + parts[n]) + [t];
    }
  }

  /** Splitting loses nothing: with its separators put back the parts are the list. */
  lemma {:induction false} SplitRejoins(values: seq<Tok>, separator: string)
    ensures Rejoin(Parts(values, separator), Splitters(values, separator)) == values
  {
    if values != [] {
      var n := |values| - 1;
      SplitRejoins(values[..n], separator);
      assert values == values[..n] + [values[n]];
      if EndsPart(values, separator) {
        RejoinNew(Parts(values[..n], separator), Splitters(values[..n], separator), values[n]);
      } else {
        assert Splitters(values, separator) == Splitters(values[..n], separator);
        RejoinGrow(Parts(values[..n], separator), Splitters(values[..n], separator), values[n]);
      }
    }
  }

  /** No part is longer than the list. */
  lemma {:induction false} PartsAreShort(values: seq<Tok>, separator: string, p: seq<Tok>)
    requires p in Parts(values, separator)
    ensures |p| <= |values|
  {
    if values != [] {
      var before := Parts(values[..|values| - 1], separator);
      if p in before {
        PartsAreShort(values[..|values| - 1], separator, p);
      } else if p != [] {
        assert before[|before| - 1] in before;
        PartsAreShort(values[..|values| - 1], separator, before[|before| - 1]);
      }
    }
  }

  // ----- brackets -----

  /** The number of openings not closed in `values[start..end]`, counting down below zero too. */
  function Balance(values: seq<Tok>, start: nat, end: nat, opening: string, closing: string): int
    requires start <= end <= |values|
    decreases end - start
  {
    if start == end then 0
    else
      Balance(values, start, end - 1, opening, closing)
      + (if values[end - 1].value == opening then 1 else if values[end - 1].value == closing then -1 else 0)
  }

  /** The closing bracket that brings the balance from `start` to zero. */
  function Matching(values: seq<Tok>, start: nat, i: nat, opening: string, closing: string): (r: Option<nat>)
    requires start <= i <= |values|
    ensures r.Some? ==> i <= r.value < |values| && values[r.value].value == closing && values[r.value].value != opening
    ensures r.Some? ==> Balance(values, start, r.value + 1, opening, closing) == 0
    ensures r.Some? ==> forall k :: i <= k < r.value && values[k].value == closing && values[k].value != opening ==>
                          Balance(values, start, k + 1, opening, closing) != 0
    ensures r.None? ==> forall k :: i <= k < |values| && values[k].value == closing && values[k].value != opening ==>
                          Balance(values, start, k + 1, opening, closing) != 0
    decreases |values| - i
  {
    if i == |values| then None
    else if values[i].value != opening && values[i].value == closing && Balance(values, start, i + 1, opening, closing) == 0 then Some(i)
    else Matching(values, start, i + 1, opening, closing)
  }

  method MatchingToken(values: seq<Tok>, start: nat, opening: string, closing: string) returns (r: Option<nat>)
    requires start <= |values|
    ensures r == Matching(values, start, start, opening, closing)
  {
    var depth := 0;
    for k := start to |values|
      invariant depth == Balance(values, start, k, opening, closing)
      invariant Matching(values, start, start, opening, closing) == Matching(values, start, k, opening, closing)
    {
      if values[k].value == opening {
        depth := depth + 1;
      } else if values[k].value == closing {
        depth := depth - 1;
        if depth == 0 {
          return Some(k);
        }
      }
    }
    r := None;
  }
}
