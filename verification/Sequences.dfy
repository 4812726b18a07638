/** Facts about sequences and finite sets that several parts share. */
module Sequences {

  ghost predicate Distinct<T>(s: seq<T>) {
    forall i, j :: 0 <= i < j < |s| ==> s[i] != s[j]
  }

  function Reversed<T>(s: seq<T>): (r: seq<T>)
    ensures |r| == |s|
  {
    if s == [] then [] else Reversed(s[1..]) + [s[0]]
  }

  function Flatten<T>(ss: seq<seq<T>>): seq<T> {
    if ss == [] then [] else ss[0] + Flatten(ss[1..])
  }

  lemma {:induction false} FlattenAppend<T>(ss: seq<seq<T>>, last: seq<T>)
    ensures Flatten(ss + [last]) == Flatten(ss) + last
  {
    if ss == [] {
      assert Flatten([last]) == last + Flatten<T>([]);
    } else {
      assert (ss + [last])[1..] == ss[1..] + [last];
      FlattenAppend(ss[1..], last);
    }
  }

  /** A duplicate-free sequence drawn from a set is no longer than the set. */
  lemma {:induction false} DistinctBound<T>(s: seq<T>, all: set<T>)
    requires Distinct(s)
    requires forall i :: 0 <= i < |s| ==> s[i] in all
    ensures |s| <= |all|
  {
    if s != [] {
      assert forall i :: 0 <= i < |s[1..]| ==> s[1..][i] in all - {s[0]};
      DistinctBound(s[1..], all - {s[0]});
    }
  }

  /** A set drawn from a sequence is no larger than its length. */
  lemma {:induction false} DrawnBound<T>(s: seq<T>, drawn: set<T>)
    requires forall x :: x in drawn ==> x in s
    ensures |drawn| <= |s|
  {
    if s == [] {
      assert drawn == {};
    } else {
      var rest := drawn - {s[0]};
      DrawnBound(s[1..], rest);
      assert drawn <= rest + {s[0]};
      if s[0] in drawn {
        assert drawn == rest + {s[0]};
      } else {
        assert drawn == rest;
      }
    }
  }

  /** Pigeonhole: a sequence longer than the set it is drawn from repeats an element. */
  lemma {:induction false} Repeats<T>(s: seq<T>, all: set<T>) returns (i: nat, j: nat)
    requires forall k :: 0 <= k < |s| ==> s[k] in all
    requires |s| > |all|
    ensures i < j < |s| && s[i] == s[j]
  {
    if Distinct(s) {
      DistinctBound(s, all);
    }
    i, j :| 0 <= i < j < |s| && s[i] == s[j];
  }

  predicate IsLeast(s: set<nat>, m: nat) {
    m in s && forall x :: x in s ==> m <= x
  }

  function Least(s: set<nat>): (m: nat)
    requires s != {}
    ensures IsLeast(s, m)
  {
    SomeIsLeast(s);
    var m :| m in s && IsLeast(s, m);
    m
  }

  /** The elements of a finite set of numbers in ascending order. */
  function Ascending(s: set<nat>): seq<nat> {
    if s == {} then [] else [Least(s)] + Ascending(s - {Least(s)})
  }

  lemma {:induction false} AscendingSorts(s: set<nat>)
    ensures forall x :: x in Ascending(s) <==> x in s
    ensures forall i, j :: 0 <= i < j < |Ascending(s)| ==> Ascending(s)[i] < Ascending(s)[j]
  {
    if s != {} {
      var rest := Ascending(s - {Least(s)});
      AscendingSorts(s - {Least(s)});
      forall j | 0 <= j < |rest|
        ensures rest[j] in s && Least(s) < rest[j]
      {
        assert rest[j] in rest;
      }
    }
  }

  lemma {:induction false} SomeIsLeast(s: set<nat>)
    requires s != {}
    ensures exists m :: m in s && IsLeast(s, m)
  {
    var m := HasLeast(s);
  }

  lemma {:induction false} HasLeast(s: set<nat>) returns (m: nat)
    requires s != {}
    ensures IsLeast(s, m)
  {
    var y :| y in s;
    m := y;
    if s != {y} {
      var rest := HasLeast(s - {y});
      m := if y <= rest then y else rest;
      forall x | x in s
        ensures m <= x
      {
        assert x == y || x in s - {y};
      }
    }
  }

  /** The first place whose value exceeds `x`. */
  function BisectRight(s: seq<nat>, x: int): (r: nat)
    ensures r <= |s| && forall i :: 0 <= i < r ==> s[i] <= x
    ensures r < |s| ==> s[r] > x
  {
    if s == [] || s[0] > x then 0 else 1 + BisectRight(s[1..], x)
  }
}
