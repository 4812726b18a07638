/** Which routine bodies one search records, and how two of them come to cross. The search
    may go back: behind a routine without a body it looks on at the end of the declaration,
    which can lie before the token that said there is no body, and so before the end of a
    body recorded in between. */
module RoutineNesting {
  import opened RoutineSearch
  import opened Wrappers

  // ----- the order in which routines are settled -----

  /** The routines settled by the search from `i`, in order; what is recorded is passed. */
  function SettledFrom(sites: Sites, known: Spans, i: nat): seq<nat>
    decreases |sites| + 2 - i
  {
    if i >= |sites| then []
    else
      match sites[i].move
      case Done(_) => []
      case Go(next) => SettledFrom(sites, known, next)
      case Nested =>
        if i in known then SettledFrom(sites, known, Follow(sites, i, known[i]))
        else
          var nested := OutcomeWith(sites, known, i);
          Visit(sites, known, i)
          + if nested.Reject? then [] else SettledFrom(sites, known, Resume(sites, i, nested))
  }

  /** The routines settled while looking for the body of `r`. */
  function Inside(sites: Sites, known: Spans, r: nat): seq<nat>
    decreases |sites| + 2 - r, 0
  {
    if r >= |sites| || sites[r].heading.None? then [] else SettledFrom(sites, known, sites[r].heading.value + 1)
  }

  /** The routines settled by a search for `r`. */
  function Visit(sites: Sites, known: Spans, r: nat): seq<nat>
    decreases |sites| + 2 - r, 1
  {
    Inside(sites, known, r) + [r]
  }

  lemma {:induction false} SettledInPlace(sites: Sites, known: Spans, i: nat, k: nat)
    requires k < |SettledFrom(sites, known, i)|
    ensures i <= SettledFrom(sites, known, i)[k] < |sites| && SettledFrom(sites, known, i)[k] !in known
    decreases |sites| + 2 - i
  {
    match sites[i].move
    case Go(next) => SettledInPlace(sites, known, next, k);
    case Nested =>
      if i in known {
        SettledInPlace(sites, known, Follow(sites, i, known[i]), k);
      } else {
        var inside := Inside(sites, known, i);
        if k < |inside| {
          SettledInPlace(sites, known, sites[i].heading.value + 1, k);
        } else if k > |inside| {
          SettledInPlace(sites, known, Resume(sites, i, OutcomeWith(sites, known, i)), k - |inside| - 1);
        }
      }
  }

  lemma {:induction false} InsideInPlace(sites: Sites, known: Spans, r: nat, k: nat)
    requires k < |Inside(sites, known, r)|
    ensures r < Inside(sites, known, r)[k] < |sites| && Inside(sites, known, r)[k] !in known
  {
    SettledInPlace(sites, known, sites[r].heading.value + 1, k);
  }

  lemma {:induction false} VisitMembers(sites: Sites, known: Spans, r: nat)
    ensures forall x :: x in Visit(sites, known, r) <==> x in Inside(sites, known, r) || x == r
    ensures forall x :: x in Inside(sites, known, r) ==> r < x < |sites| && x !in known
  {
    var inside, order := Inside(sites, known, r), Visit(sites, known, r);
    forall x
      ensures x in order <==> x in inside || x == r
    {
      if x == r {
        assert order[|inside|] == r;
      }
      if k :| 0 <= k < |inside| && inside[k] == x {
        assert order[k] == x;
      }
    }
    forall x | x in inside
      ensures r < x < |sites| && x !in known
    {
      var k :| 0 <= k < |inside| && inside[k] == x;
      InsideInPlace(sites, known, r, k);
    }
  }

  /** At a routine that is not recorded the search settles it with what is inside, and goes on. */
  lemma {:induction false} SettledMembers(sites: Sites, known: Spans, i: nat)
    requires i < |sites| && sites[i].move == Nested && i !in known
    ensures var nested := OutcomeWith(sites, known, i);
            forall x :: x in SettledFrom(sites, known, i) <==>
                          || x in Visit(sites, known, i)
                          || (!nested.Reject? && x in SettledFrom(sites, known, Resume(sites, i, nested)))
  {
  }

  ghost predicate HasBody(sites: Sites, known: Spans, r: nat) {
    r < |sites| && OutcomeWith(sites, known, r).Body?
  }

  // ----- a search records the bodies of the routines it settles -----

  /** What is found inside the routine is recorded or lies ahead. */
  ghost predicate Keeps(sites: Sites, known: Spans, within: seq<nat>, spans: Spans, ahead: seq<nat>) {
    forall x :: x in within && HasBody(sites, known, x) ==> x in spans || x in ahead
  }

  ghost predicate FrameKeeps(sites: Sites, known: Spans, root: nat, f: Frame, spans: Spans)
    requires root < |sites|
  {
    && f.routine < |sites| && f.routine in Visit(sites, known, root)
    && Keeps(sites, known, Inside(sites, known, f.routine), spans, SettledFrom(sites, known, f.index))
    && forall x :: x in SettledFrom(sites, known, f.index) ==> x in Inside(sites, known, root)
  }

  ghost predicate EntryKeeps(sites: Sites, known: Spans, root: nat, spans: Spans, r: nat)
    requires root < |sites|
  {
    r < |sites| && r in Visit(sites, known, root) && Keeps(sites, known, Inside(sites, known, r), spans, [])
  }

  ghost predicate Recording(sites: Sites, known: Spans, root: nat, m: Machine)
    requires root < |sites|
  {
    && (forall r :: r in m.spans && r !in known ==> EntryKeeps(sites, known, root, m.spans, r))
    && forall j :: 0 <= j < |m.frames| ==> FrameKeeps(sites, known, root, m.frames[j], m.spans)
  }

  /** The search for `root` records routines that it settles, and of these exactly the bodies. */
  ghost predicate Recorded(sites: Sites, known: Spans, root: nat, spans: Spans)
    requires root < |sites|
  {
    && (forall r :: r in spans && r !in known ==> r in Visit(sites, known, root))
    && forall r :: r in spans && r !in known && spans[r].Some? <==> r in Visit(sites, known, root) && HasBody(sites, known, r)
  }

  lemma {:induction false} MoreKeeps(sites: Sites, known: Spans, within: seq<nat>, spans: Spans, more: Spans, ahead: seq<nat>)
    requires Keeps(sites, known, within, spans, ahead) && spans.Keys <= more.Keys
    ensures Keeps(sites, known, within, more, ahead)
  {
    forall x | x in within && HasBody(sites, known, x)
      ensures x in more || x in ahead
    {
      assert x in spans ==> x in spans.Keys;
    }
  }

  lemma {:induction false} FrameKeepsMore(sites: Sites, known: Spans, root: nat, f: Frame, spans: Spans, more: Spans)
    requires root < |sites| && FrameKeeps(sites, known, root, f, spans) && spans.Keys <= more.Keys
    ensures FrameKeeps(sites, known, root, f, more)
  {
    MoreKeeps(sites, known, Inside(sites, known, f.routine), spans, more, SettledFrom(sites, known, f.index));
  }

  /** Settling a routine whose bodies inside are recorded. */
  lemma {:induction false} SettledRecords(sites: Sites, known: Spans, root: nat, m: Machine, frames: seq<Frame>, r: nat, entry: Option<Span>)
    requires root < |sites| && Recording(sites, known, root, m) && frames <= m.frames
    requires EntryKeeps(sites, known, root, m.spans, r)
    ensures Recording(sites, known, root, Machine(frames, m.spans[r := entry]))
  {
    var spans := m.spans[r := entry];
    assert m.spans.Keys <= spans.Keys;
    forall q | q in spans && q !in known
      ensures EntryKeeps(sites, known, root, spans, q)
    {
      assert EntryKeeps(sites, known, root, m.spans, q);
      MoreKeeps(sites, known, Inside(sites, known, q), m.spans, spans, []);
    }
    forall j | 0 <= j < |frames|
      ensures FrameKeeps(sites, known, root, frames[j], spans)
    {
      FrameKeepsMore(sites, known, root, m.frames[j], m.spans, spans);
    }
  }

  lemma {:induction false} MovedRecords(sites: Sites, known: Spans, root: nat, m: Machine, index: nat)
    requires root < |sites| && Recording(sites, known, root, m) && m.frames != []
    requires forall x :: x in SettledFrom(sites, known, index) ==> x in SettledFrom(sites, known, Top(m).index)
    requires Keeps(sites, known, SettledFrom(sites, known, Top(m).index), m.spans, SettledFrom(sites, known, index))
    ensures Recording(sites, known, root, Moved(m, index))
  {
    var n := Moved(m, index);
    var last := |m.frames| - 1;
    assert FrameKeeps(sites, known, root, m.frames[last], m.spans);
    assert FrameKeeps(sites, known, root, Frame(Top(m).routine, index), m.spans);
    forall j | 0 <= j < |n.frames|
      ensures FrameKeeps(sites, known, root, n.frames[j], n.spans)
    {
      if j < last {
        assert n.frames[j] == m.frames[j];
      }
    }
  }

  /** Behind a settled declaration everything inside it is recorded. */
  lemma {:induction false} ResumedRecords(sites: Sites, known: Spans, root: nat, m: Machine)
    requires root < |sites| && Recording(sites, known, root, m) && Fits(sites, known, m) && m.frames != []
    requires Top(m).index < |sites| && sites[Top(m).index].move == Nested && Top(m).index in m.spans
    ensures Recording(sites, known, root, Moved(m, Follow(sites, Top(m).index, m.spans[Top(m).index])))
  {
    var i := Top(m).index;
    ResumesAlike(sites, known, m, i);
    if i !in known {
      assert EntryKeeps(sites, known, root, m.spans, i);
    }
    MovedRecords(sites, known, root, m, Follow(sites, i, m.spans[i]));
  }

  lemma {:induction false} EnteredRecords(sites: Sites, known: Spans, root: nat, m: Machine)
    requires root < |sites| && Recording(sites, known, root, m) && m.frames != []
    requires Top(m).index < |sites| && sites[Top(m).index].move == Nested && Top(m).index !in known
    requires sites[Top(m).index].heading.Some?
    ensures Recording(sites, known, root, Entered(m, sites[Top(m).index].heading.value))
  {
    var i := Top(m).index;
    var n := Entered(m, sites[i].heading.value);
    var last := |m.frames| - 1;
    assert FrameKeeps(sites, known, root, m.frames[last], m.spans);
    SettledMembers(sites, known, i);
    VisitMembers(sites, known, i);
    VisitMembers(sites, known, root);
    assert FrameKeeps(sites, known, root, Frame(i, sites[i].heading.value + 1), m.spans);
    forall j | 0 <= j < |n.frames|
      ensures FrameKeeps(sites, known, root, n.frames[j], n.spans)
    {
      if j <= last {
        assert n.frames[j] == m.frames[j];
      }
    }
  }

  /** When the search gives up, what was found inside every active routine is recorded. */
  lemma {:induction false} RejectedKeeps(sites: Sites, known: Spans, root: nat, m: Machine, j: nat)
    requires root < |sites| && Recording(sites, known, root, m) && Fits(sites, known, m) && j < |m.frames|
    requires ScanWith(sites, known, Top(m).index).Reject? && SettledFrom(sites, known, Top(m).index) == []
    ensures m.frames[j].routine < |sites|
    ensures Keeps(sites, known, Inside(sites, known, m.frames[j].routine), m.spans, [])
    decreases |m.frames| - j
  {
    assert FrameKeeps(sites, known, root, m.frames[j], m.spans);
    var k := j + 1;
    if k < |m.frames| {
      RejectedKeeps(sites, known, root, m, k);
      RejectSpreads(sites, known, m, k);
      assert Waits(sites, m.frames[j], m.frames[k]);
      SettledMembers(sites, known, m.frames[k].routine);
      VisitMembers(sites, known, m.frames[k].routine);
      assert FrameFits(sites, known, m.frames[k], m.spans);
    }
  }

  lemma {:induction false} RejectedRecorded(sites: Sites, known: Spans, root: nat, m: Machine)
    requires root < |sites| && Recording(sites, known, root, m) && Fits(sites, known, m)
    requires m.frames != [] && m.frames[0].routine == root
    requires ScanWith(sites, known, Top(m).index).Reject? && SettledFrom(sites, known, Top(m).index) == []
    ensures Recorded(sites, known, root, Rejected(m).spans)
  {
    RejectedKeeps(sites, known, root, m, 0);
    RejectSpreads(sites, known, m, 0);
    VisitMembers(sites, known, root);
    var spans := Rejected(m).spans;
    forall r | r in spans && r !in known
      ensures r in Visit(sites, known, root)
    {
      RejectFramesExact(m.frames, m.spans, r);
      if j :| 0 <= j < |m.frames| && m.frames[j].routine == r {
        assert FrameKeeps(sites, known, root, m.frames[j], m.spans);
      } else {
        assert EntryKeeps(sites, known, root, m.spans, r);
      }
    }
    forall r
      ensures r in spans && r !in known && spans[r].Some? <==> r in Visit(sites, known, root) && HasBody(sites, known, r)
    {
      RejectFramesExact(m.frames, m.spans, r);
      if r in m.spans && r !in known {
        assert EntryKeeps(sites, known, root, m.spans, r) && GrownAt(sites, known, m.spans, r);
      }
      if r in Visit(sites, known, root) && HasBody(sites, known, r) && Active(m.frames, r) {
        var j :| 0 <= j < |m.frames| && m.frames[j].routine == r;
        RejectSpreads(sites, known, m, j);
      }
    }
  }

  /** One turn keeps the account of recorded bodies, and the last one closes it. */
  lemma {:induction false} NextRecords(sites: Sites, known: Spans, root: nat, m: Machine)
    requires m.frames != [] && Running(sites, known, root, m) && Recording(sites, known, root, m)
    ensures var n := Next(sites, m);
            if n.frames == [] then Recorded(sites, known, root, n.spans) else Recording(sites, known, root, n)
  {
    var last := |m.frames| - 1;
    assert FrameFits(sites, known, m.frames[last], m.spans) && FrameKeeps(sites, known, root, m.frames[last], m.spans);
    var i := Top(m).index;
    if i >= |sites| {
      RejectedRecorded(sites, known, root, m);
    } else {
      match sites[i].move
      case Done(outcome) =>
        if outcome.Reject? {
          RejectedRecorded(sites, known, root, m);
        } else {
          SettledRecords(sites, known, root, m, Below(m), Top(m).routine, SpanOf(sites, Top(m).routine, outcome));
          if Below(m) == [] {
            EmptiedRecorded(sites, known, root, Next(sites, m));
          }
        }
      case Go(next) => MovedRecords(sites, known, root, m, next);
      case Nested =>
        if i in m.spans {
          ResumedRecords(sites, known, root, m);
        } else if sites[i].heading.None? {
          SettledMembers(sites, known, i);
          VisitMembers(sites, known, i);
          VisitMembers(sites, known, root);
          SettledRecords(sites, known, root, m, m.frames, i, None);
        } else {
          EnteredRecords(sites, known, root, m);
        }
    }
  }

  lemma {:induction false} EmptiedRecorded(sites: Sites, known: Spans, root: nat, m: Machine)
    requires root < |sites| && root !in known && root in m.spans && Recording(sites, known, root, m)
    requires Grown(sites, known, m.spans)
    ensures Recorded(sites, known, root, m.spans)
  {
    assert EntryKeeps(sites, known, root, m.spans, root);
    VisitMembers(sites, known, root);
    assert forall r :: r in m.spans && r !in known ==> EntryKeeps(sites, known, root, m.spans, r);
    forall r
      ensures r in m.spans && r !in known && m.spans[r].Some? <==> r in Visit(sites, known, root) && HasBody(sites, known, r)
    {
      if r in m.spans && r !in known {
        assert EntryKeeps(sites, known, root, m.spans, r);
      }
      if r in m.spans {
        assert GrownAt(sites, known, m.spans, r);
      }
    }
  }

  /** The search for a routine begins with one frame behind the heading. */
  lemma {:induction false} StartRuns(sites: Sites, known: Spans, root: nat)
    requires root < |sites| && root !in known && sites[root].heading.Some?
    ensures Running(sites, known, root, Machine([Frame(root, sites[root].heading.value + 1)], known))
    ensures Recording(sites, known, root, Machine([Frame(root, sites[root].heading.value + 1)], known))
  {
    VisitMembers(sites, known, root);
    var f := Frame(root, sites[root].heading.value + 1);
    assert FrameFits(sites, known, f, known) && FrameKeeps(sites, known, root, f, known);
  }

  // ----- a search that is not given up leaves no abandoned entry -----

  lemma {:induction false} NoneRejected(sites: Sites, known: Spans, i: nat, x: nat)
    requires !ScanWith(sites, known, i).Reject? && x in SettledFrom(sites, known, i)
    ensures x < |sites| && !OutcomeWith(sites, known, x).Reject?
    decreases |sites| + 2 - i
  {
    match sites[i].move
    case Go(next) => NoneRejected(sites, known, next, x);
    case Nested =>
      if i in known {
        NoneRejected(sites, known, Follow(sites, i, known[i]), x);
      } else {
        SettledMembers(sites, known, i);
        VisitMembers(sites, known, i);
        if x in Inside(sites, known, i) {
          NoneRejected(sites, known, sites[i].heading.value + 1, x);
        } else if x != i {
          NoneRejected(sites, known, Resume(sites, i, OutcomeWith(sites, known, i)), x);
        }
      }
  }

  /** A cache without abandoned entries stays so exactly if the definition does not give up on the
      routine searched for. */
  lemma {:induction false} UntaintedStays(sites: Sites, known: Spans, root: nat, spans: Spans)
    requires Faithful(sites, known) && Untainted(sites, known) && root < |sites| && root !in known && root in spans
    requires Grown(sites, known, spans) && Recorded(sites, known, root, spans)
    ensures Untainted(sites, spans) <==> !OutcomeOf(sites, root).Reject?
  {
    if !OutcomeOf(sites, root).Reject? {
      UntaintedIsPlain(sites, known, root);
      VisitMembers(sites, known, root);
      forall r | r in spans && r < |sites|
        ensures !OutcomeOf(sites, r).Reject?
      {
        UntaintedIsPlain(sites, known, r);
        if r !in known && r != root {
          NoneRejected(sites, known, sites[root].heading.value + 1, r);
        }
      }
    }
  }

  // ----- when two bodies cross -----

  /** The token behind the body of `r`, if it has one. */
  function BodyIndex(sites: Sites, known: Spans, r: nat): nat {
    if r >= |sites| then 0
    else
      var outcome := OutcomeWith(sites, known, r);
      if outcome.Body? then outcome.index else 0
  }

  /** The body of `b` starts inside that of `a` and runs on beyond its end. */
  predicate Overruns(sites: Sites, known: Spans, a: nat, b: nat) {
    a < b < BodyIndex(sites, known, a) < BodyIndex(sites, known, b)
  }

  predicate Cross(sites: Sites, known: Spans, a: nat, b: nat) {
    Overruns(sites, known, a, b) || Overruns(sites, known, b, a)
  }

  /** Behind the routine `q`, which has no body, the search goes back to before `index`. */
  predicate GoesBack(sites: Sites, known: Spans, q: nat, index: nat) {
    q < |sites| && OutcomeWith(sites, known, q).NoBody? && sites[q].past < index
  }

  /** Behind its n-th routine the search goes back to before the end of the body of its m-th
      routine, which it had settled while looking into the n-th. */
  predicate GoesBackOver(sites: Sites, known: Spans, order: seq<nat>, m: nat, n: nat) {
    && m < n < |order| && n <= m + |Inside(sites, known, order[n])|
    && GoesBack(sites, known, order[n], BodyIndex(sites, known, order[m]))
  }

  /** The search goes back over a body and then settles a routine whose body crosses it. */
  predicate CrossesBack(sites: Sites, known: Spans, order: seq<nat>) {
    exists l: nat, n: nat, m: nat ::
      m < n < l < |order| && GoesBackOver(sites, known, order, m, n) && Cross(sites, known, order[m], order[l])
  }

  /** It goes back over the m-th body before it settles the l-th routine. */
  ghost predicate GoneBackOver(sites: Sites, known: Spans, order: seq<nat>, m: nat, l: nat) {
    exists n: nat :: GoesBackOver(sites, known, order, m, n) && n < l
  }

  /** `part` stands in `order` from a place on. */
  ghost predicate PartOf(part: seq<nat>, order: seq<nat>, from: nat) {
    from + |part| <= |order| && forall k :: 0 <= k < |part| ==> order[from + k] == part[k]
  }

  lemma {:induction false} GoneInPart(sites: Sites, known: Spans, part: seq<nat>, order: seq<nat>, from: nat, m: nat, l: nat, l': nat)
    requires PartOf(part, order, from) && GoneBackOver(sites, known, part, m, l) && from + l <= l'
    ensures GoneBackOver(sites, known, order, from + m, l')
  {
    var n: nat :| GoesBackOver(sites, known, part, m, n) && n < l;
    assert GoesBackOver(sites, known, order, from + m, from + n);
  }

  /** The token at which the search from `i` ends. */
  function StopWith(sites: Sites, known: Spans, i: nat): (r: nat)
    ensures i <= r
    decreases |sites| + 2 - i
  {
    if i >= |sites| then i
    else
      match sites[i].move
      case Done(_) => i
      case Go(next) => StopWith(sites, known, next)
      case Nested =>
        StopWith(sites, known,
                 if i in known then Follow(sites, i, known[i]) else Resume(sites, i, OutcomeWith(sites, known, i)))
  }

  /** A search that ends in a body does so behind the token that opens it. */
  lemma {:induction false} BodyBehindStop(sites: Sites, known: Spans, i: nat)
    requires ScanWith(sites, known, i).Body?
    ensures StopWith(sites, known, i) < ScanWith(sites, known, i).index
    decreases |sites| + 2 - i
  {
    match sites[i].move
    case Done(_) =>
    case Go(next) => BodyBehindStop(sites, known, next);
    case Nested =>
      BodyBehindStop(sites, known,
                     if i in known then Follow(sites, i, known[i]) else Resume(sites, i, OutcomeWith(sites, known, i)));
  }

  /** A body recorded on the way ends before the search does, unless it is gone back over. */
  ghost predicate EndsOrGoneOver(sites: Sites, known: Spans, order: seq<nat>, m: nat, stop: nat)
    requires m < |order|
  {
    BodyIndex(sites, known, order[m]) <= stop || GoneBackOver(sites, known, order, m, |order|)
  }

  lemma {:induction false} StopsOrGoneOver(sites: Sites, known: Spans, i: nat, m: nat)
    requires !ScanWith(sites, known, i).Reject? && m < |SettledFrom(sites, known, i)|
    ensures EndsOrGoneOver(sites, known, SettledFrom(sites, known, i), m, StopWith(sites, known, i))
    decreases |sites| + 2 - i, 3
  {
    match sites[i].move
    case Go(next) => StopsOrGoneOver(sites, known, next, m);
    case Nested =>
      if i in known {
        StopsOrGoneOver(sites, known, Follow(sites, i, known[i]), m);
      } else {
        NestedStopsOrGoneOver(sites, known, i, m);
      }
  }

  lemma {:induction false} NestedStopsOrGoneOver(sites: Sites, known: Spans, i: nat, m: nat)
    requires i < |sites| && sites[i].move == Nested && i !in known && !ScanWith(sites, known, i).Reject?
    requires m < |SettledFrom(sites, known, i)|
    ensures EndsOrGoneOver(sites, known, SettledFrom(sites, known, i), m, StopWith(sites, known, i))
    decreases |sites| + 2 - i, 2
  {
    var order, visit := SettledFrom(sites, known, i), Visit(sites, known, i);
    var next := Resume(sites, i, OutcomeWith(sites, known, i));
    var rest := SettledFrom(sites, known, next);
    assert order == visit + rest;
    if m < |visit| {
      VisitEndsOrGoneOver(sites, known, i, m);
      assert PartOf(visit, order, 0);
      if GoneBackOver(sites, known, visit, m, |visit|) {
        GoneInPart(sites, known, visit, order, 0, m, |visit|, |order|);
      }
    } else {
      StopsOrGoneOver(sites, known, next, m - |visit|);
      assert PartOf(rest, order, |visit|);
      if GoneBackOver(sites, known, rest, m - |visit|, |rest|) {
        GoneInPart(sites, known, rest, order, |visit|, m - |visit|, |rest|, |order|);
      }
    }
  }

  /** A body recorded inside a routine, or its own, ends before the search resumes behind
      it, or it is gone back over at the latest there. */
  lemma {:induction false} VisitEndsOrGoneOver(sites: Sites, known: Spans, i: nat, m: nat)
    requires i < |sites| && !OutcomeWith(sites, known, i).Reject? && m < |Visit(sites, known, i)|
    ensures EndsOrGoneOver(sites, known, Visit(sites, known, i), m, Resume(sites, i, OutcomeWith(sites, known, i)))
    decreases |sites| + 2 - i, 1
  {
    var n, order := |Inside(sites, known, i)|, Visit(sites, known, i);
    if m < n {
      InsideEndsOrGoneOver(sites, known, i, m);
      if OutcomeWith(sites, known, i).NoBody? && sites[i].past < BodyIndex(sites, known, order[m]) {
        assert GoesBackOver(sites, known, order, m, n);
      }
    }
  }

  /** A body recorded inside a routine that has one ends before that. */
  lemma {:induction false} InsideEndsOrGoneOver(sites: Sites, known: Spans, i: nat, m: nat)
    requires i < |sites| && !OutcomeWith(sites, known, i).Reject? && m < |Inside(sites, known, i)|
    ensures OutcomeWith(sites, known, i).Body? ==>
              || BodyIndex(sites, known, Inside(sites, known, i)[m]) < BodyIndex(sites, known, i)
              || GoneBackOver(sites, known, Visit(sites, known, i), m, |Inside(sites, known, i)|)
    decreases |sites| + 2 - i, 0
  {
    var inside, order := Inside(sites, known, i), Visit(sites, known, i);
    var from := sites[i].heading.value + 1;
    if OutcomeWith(sites, known, i).Body? {
      StopsOrGoneOver(sites, known, from, m);
      BodyBehindStop(sites, known, from);
      assert PartOf(inside, order, 0);
      if GoneBackOver(sites, known, inside, m, |inside|) {
        GoneInPart(sites, known, inside, order, 0, m, |inside|, |inside|);
      }
    }
  }

  /** Of two crossing bodies each reaches beyond the other's keyword, and the one that
      starts later ends later. */
  lemma {:induction false} CrossReaches(sites: Sites, known: Spans, x: nat, y: nat)
    requires Cross(sites, known, x, y)
    ensures y < BodyIndex(sites, known, x)
    ensures y < x ==> 0 < BodyIndex(sites, known, y) < BodyIndex(sites, known, x)
  {
  }

  /** Bodies settled one after the other cross only if the first was gone back over. */
  lemma {:induction false} CrossingGoesBack(sites: Sites, known: Spans, i: nat, m: nat, l: nat)
    requires m < l < |SettledFrom(sites, known, i)|
    requires Cross(sites, known, SettledFrom(sites, known, i)[m], SettledFrom(sites, known, i)[l])
    ensures GoneBackOver(sites, known, SettledFrom(sites, known, i), m, l)
    decreases |sites| + 2 - i, 2
  {
    match sites[i].move
    case Go(next) => CrossingGoesBack(sites, known, next, m, l);
    case Nested =>
      if i in known {
        CrossingGoesBack(sites, known, Follow(sites, i, known[i]), m, l);
      } else {
        var order, visit := SettledFrom(sites, known, i), Visit(sites, known, i);
        if l < |visit| {
          assert PartOf(visit, order, 0);
          CrossingInside(sites, known, i, m, l);
          GoneInPart(sites, known, visit, order, 0, m, l, l);
        } else {
          CrossingBehind(sites, known, i, m, l);
        }
      }
  }

  /** The second of them is settled after the search resumed behind `i`. */
  lemma {:induction false} CrossingBehind(sites: Sites, known: Spans, i: nat, m: nat, l: nat)
    requires i < |sites| && sites[i].move == Nested && i !in known
    requires |Visit(sites, known, i)| <= l && m < l < |SettledFrom(sites, known, i)|
    requires Cross(sites, known, SettledFrom(sites, known, i)[m], SettledFrom(sites, known, i)[l])
    ensures GoneBackOver(sites, known, SettledFrom(sites, known, i), m, l)
    decreases |sites| + 2 - i, 1
  {
    var order, visit := SettledFrom(sites, known, i), Visit(sites, known, i);
    var next := Resume(sites, i, OutcomeWith(sites, known, i));
    var rest := SettledFrom(sites, known, next);
    var k := l - |visit|;
    assert order == visit + rest && order[l] == rest[k];
    if m < |visit| {
      CrossReaches(sites, known, order[m], order[l]);
      SettledInPlace(sites, known, next, k);
      assert order[m] == visit[m];
      VisitEndsOrGoneOver(sites, known, i, m);
      assert PartOf(visit, order, 0);
      GoneInPart(sites, known, visit, order, 0, m, |visit|, l);
    } else {
      CrossingGoesBack(sites, known, next, m - |visit|, k);
      assert PartOf(rest, order, |visit|);
      GoneInPart(sites, known, rest, order, |visit|, m - |visit|, k, l);
    }
  }

  /** Among the routines settled inside `i`, and `i` itself. */
  lemma {:induction false} CrossingInside(sites: Sites, known: Spans, i: nat, m: nat, l: nat)
    requires i < |sites| && m < l < |Visit(sites, known, i)|
    requires Cross(sites, known, Visit(sites, known, i)[m], Visit(sites, known, i)[l])
    ensures GoneBackOver(sites, known, Visit(sites, known, i), m, l)
    decreases |sites| + 2 - i, 0
  {
    var inside, order := Inside(sites, known, i), Visit(sites, known, i);
    assert order[m] == inside[m];
    if l < |inside| {
      CrossingGoesBack(sites, known, sites[i].heading.value + 1, m, l);
      assert PartOf(inside, order, 0);
      GoneInPart(sites, known, inside, order, 0, m, l, l);
    } else {
      CrossReaches(sites, known, order[m], i);
      InsideInPlace(sites, known, i, m);
      InsideEndsOrGoneOver(sites, known, i, m);
    }
  }

  // ----- recorded spans cross only where the search goes back -----

  /** Any two recorded spans are nested or disjoint. */
  ghost predicate Laminar(spans: Spans) {
    forall a, b :: a in spans && b in spans && a < b && spans[a].Some? && spans[b].Some? ==>
              spans[a].value.index <= b || spans[b].value.index <= spans[a].value.index
  }

  /** The entries that a search added. */
  ghost function Added(known: Spans, spans: Spans): Spans {
    map r | r in spans && r !in known :: spans[r]
  }

  lemma {:induction false} SpansCrossBack(sites: Sites, known: Spans, r: nat, spans: Spans)
    requires r < |sites| && Grown(sites, known, spans) && Recorded(sites, known, r, spans)
    requires !Laminar(Added(known, spans))
    ensures CrossesBack(sites, known, Visit(sites, known, r))
  {
    var order, added := Visit(sites, known, r), Added(known, spans);
    var a, b :| a in added && b in added && a < b && added[a].Some? && added[b].Some?
                && !(added[a].value.index <= b || added[b].value.index <= added[a].value.index);
    assert GrownAt(sites, known, spans, a) && GrownAt(sites, known, spans, b);
    assert a in order && b in order;
    var k, l :| 0 <= k < |order| && order[k] == a && 0 <= l < |order| && order[l] == b;
    assert Overruns(sites, known, a, b);
    PairCrossesBack(sites, known, r, if k < l then k else l, if k < l then l else k);
  }

  /** The spans that a search adds are pairwise nested or disjoint unless, and only unless, it goes
      back over a body and then settles a routine whose body crosses that one. */
  lemma {:induction false} NestsUnlessGoneBack(sites: Sites, known: Spans, r: nat, spans: Spans)
    requires r < |sites| && Grown(sites, known, spans) && Recorded(sites, known, r, spans)
    ensures Laminar(Added(known, spans)) <==> !CrossesBack(sites, known, Visit(sites, known, r))
  {
    var order, added := Visit(sites, known, r), Added(known, spans);
    if !Laminar(added) {
      SpansCrossBack(sites, known, r, spans);
    }
    if CrossesBack(sites, known, order) {
      var l: nat, n: nat, m: nat :|
        m < n < l < |order| && GoesBackOver(sites, known, order, m, n) && Cross(sites, known, order[m], order[l]);
      CrossedSpans(sites, known, r, spans, order[m], order[l]);
    }
  }

  lemma {:induction false} PairCrossesBack(sites: Sites, known: Spans, r: nat, m: nat, l: nat)
    requires r < |sites| && m < l < |Visit(sites, known, r)|
    requires Cross(sites, known, Visit(sites, known, r)[m], Visit(sites, known, r)[l])
    ensures CrossesBack(sites, known, Visit(sites, known, r))
  {
    var order := Visit(sites, known, r);
    CrossingInside(sites, known, r, m, l);
  }

  lemma {:induction false} CrossedSpans(sites: Sites, known: Spans, r: nat, spans: Spans, a: nat, b: nat)
    requires r < |sites| && Grown(sites, known, spans) && Recorded(sites, known, r, spans)
    requires a in Visit(sites, known, r) && b in Visit(sites, known, r) && Cross(sites, known, a, b)
    ensures !Laminar(Added(known, spans))
  {
    var added := Added(known, spans);
    assert HasBody(sites, known, a) && HasBody(sites, known, b);
    assert a in added && b in added;
    assert GrownAt(sites, known, spans, a) && GrownAt(sites, known, spans, b);
  }
}
