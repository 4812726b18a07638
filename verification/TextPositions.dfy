/** Lines and columns, counted from the text before a place. */
module TextPositions {

  function Newlines(s: string): nat {
    if s == [] then 0 else Newlines(s[..|s| - 1]) + if s[|s| - 1] == '\n' then 1 else 0
  }

  /** The line of the place behind `before`, from 1. */
  function LineOf(before: string): nat {
    Newlines(before) + 1
  }

  /** The column of the place behind `before`, from 1. */
  function ColumnOf(before: string): nat {
    if before == [] || before[|before| - 1] == '\n' then 1 else ColumnOf(before[..|before| - 1]) + 1
  }

  lemma {:induction false} NewlinesAdd(a: string, b: string)
    ensures Newlines(a + b) == Newlines(a) + Newlines(b)
  {
    if b == [] {
      assert a + b == a;
    } else {
      NewlinesAdd(a, b[..|b| - 1]);
      assert (a + b)[..|a + b| - 1] == a + b[..|b| - 1];
    }
  }

  /** Behind the last newline the column counts the characters since. */
  lemma {:induction false} ColumnSince(before: string, start: nat)
    requires start <= |before| && Newlines(before[start..]) == 0
    ensures ColumnOf(before) == (if start == 0 then 1 else ColumnOf(before[..start])) + |before| - start
  {
    if start < |before| {
      var rest := before[..|before| - 1];
      assert before[start..][..|before| - 1 - start] == rest[start..];
      ColumnSince(rest, start);
      assert rest[..start] == before[..start];
    } else {
      assert before[..start] == before;
    }
  }

  lemma {:induction false} NoNewlines(s: string)
    requires forall i :: 0 <= i < |s| ==> s[i] != '\n'
    ensures Newlines(s) == 0
  {
    if s != [] {
      NoNewlines(s[..|s| - 1]);
    }
  }
}
