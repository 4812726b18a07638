/** The search for routine bodies over what each token decides: a plain recursive definition,
    the same definition reading off a cache, and the explicit frame stack that the program
    runs, which always computes the second and computes the first exactly when no abandoned
    search that the cache still holds stands in its way. */
module RoutineSearch {
  import opened Wrappers

  /** How the tokens behind a heading end: in a body, in a directive that says there is
      none, or in something that makes the whole search give up. */
  datatype Outcome = Body(end: nat, index: nat) | NoBody | Reject

  /** A recorded span: the text positions and the token index behind it. */
  datatype Span = Span(start: nat, end: nat, index: nat)

  /** What one token decides: the outcome, the next token to look at, or a routine
      declaration that stands in the way. */
  datatype Move = Done(outcome: Outcome) | Go(next: nat) | Nested

  /** What the search reads off a token: where it starts, what it decides, and, where it
      opens a routine, the semicolon of the heading and the token behind the declaration. */
  datatype Site = Site(start: nat, move: Move, heading: Option<nat>, past: nat)

  predicate LeadsOn(s: Site, i: nat) {
    && (s.move.Go? ==> i < s.move.next)
    && (s.move.Done? && s.move.outcome.Body? ==> i < s.move.outcome.index)
    && (s.heading.Some? ==> i < s.heading.value)
    && i < s.past
  }

  type Sites = s: seq<Site> | forall i :: 0 <= i < |s| ==> LeadsOn(s[i], i)

  type Spans = map<nat, Option<Span>>

  function Max(a: nat, b: nat): nat {
    if a < b then b else a
  }

  /** Where the search resumes behind a nested declaration with the given outcome. */
  function Resume(sites: Sites, i: nat, nested: Outcome): (r: nat)
    requires i < |sites|
    ensures i < r
  {
    if nested.Body? then Max(i + 1, nested.index) else sites[i].past
  }

  /** Where it resumes behind a nested declaration with the given recorded span. */
  function Follow(sites: Sites, i: nat, entry: Option<Span>): (r: nat)
    requires i < |sites|
    ensures i < r
  {
    if entry.Some? then Max(i + 1, entry.value.index) else sites[i].past
  }

  function SpanOf(sites: Sites, r: nat, outcome: Outcome): Option<Span>
    requires r < |sites|
  {
    if outcome.Body? then Some(Span(sites[r].start, outcome.end, outcome.index)) else None
  }

  // ----- the definition -----

  /** The outcome of the tokens from `i`. */
  function Scan(sites: Sites, i: nat): Outcome
    decreases |sites| + 2 - i
  {
    if i >= |sites| then Reject
    else
      match sites[i].move
      case Done(outcome) => outcome
      case Go(next) => Scan(sites, next)
      case Nested =>
        var nested := OutcomeOf(sites, i);
        if nested.Reject? then Reject else Scan(sites, Resume(sites, i, nested))
  }

  /** The outcome of the routine whose keyword is at `r`; without a heading it has no body. */
  function OutcomeOf(sites: Sites, r: nat): Outcome
    requires r < |sites|
    decreases |sites| + 2 - r, 0
  {
    if sites[r].heading.None? then NoBody else Scan(sites, sites[r].heading.value + 1)
  }

  // ----- the definition read off a cache -----

  /** The outcome of the tokens from `i` when recorded routines are passed by their entries. */
  function ScanWith(sites: Sites, known: Spans, i: nat): Outcome
    decreases |sites| + 2 - i
  {
    if i >= |sites| then Reject
    else
      match sites[i].move
      case Done(outcome) => outcome
      case Go(next) => ScanWith(sites, known, next)
      case Nested =>
        if i in known then ScanWith(sites, known, Follow(sites, i, known[i]))
        else
          var nested := OutcomeWith(sites, known, i);
          if nested.Reject? then Reject else ScanWith(sites, known, Resume(sites, i, nested))
  }

  function OutcomeWith(sites: Sites, known: Spans, r: nat): Outcome
    requires r < |sites|
    decreases |sites| + 2 - r, 0
  {
    if sites[r].heading.None? then NoBody else ScanWith(sites, known, sites[r].heading.value + 1)
  }

  /** The span a search for the routine `r` answers with. */
  function AnswerWith(sites: Sites, known: Spans, r: nat): Option<Span>
    requires r < |sites|
  {
    if r in known then known[r] else SpanOf(sites, r, OutcomeWith(sites, known, r))
  }

  /** Every entry that stands for a body or for the lack of one is right. */
  ghost predicate Faithful(sites: Sites, spans: Spans) {
    forall r :: r in spans ==> FaithfulAt(sites, spans, r)
  }

  ghost predicate FaithfulAt(sites: Sites, spans: Spans, r: nat)
    requires r in spans
  {
    r < |sites| && (OutcomeOf(sites, r).Reject? || spans[r] == SpanOf(sites, r, OutcomeOf(sites, r)))
  }

  /** Whether the search from `i` passes an entry for a routine on which the definition
      gives up: the entry was left by a search that was abandoned. */
  predicate PassesAbandoned(sites: Sites, known: Spans, i: nat)
    decreases |sites| + 2 - i
  {
    if i >= |sites| then false
    else
      match sites[i].move
      case Done(_) => false
      case Go(next) => PassesAbandoned(sites, known, next)
      case Nested =>
        if i in known then
          OutcomeOf(sites, i).Reject? || PassesAbandoned(sites, known, Follow(sites, i, known[i]))
        else
          || (sites[i].heading.Some? && PassesAbandoned(sites, known, sites[i].heading.value + 1))
          || (!OutcomeWith(sites, known, i).Reject?
              && PassesAbandoned(sites, known, Resume(sites, i, OutcomeWith(sites, known, i))))
  }

  lemma {:induction false} PassingIsRejected(sites: Sites, known: Spans, i: nat)
    requires Faithful(sites, known)
    ensures if PassesAbandoned(sites, known, i) then Scan(sites, i).Reject? else Scan(sites, i) == ScanWith(sites, known, i)
    decreases |sites| + 2 - i
  {
    if i < |sites| {
      match sites[i].move
      case Done(_) =>
      case Go(next) => PassingIsRejected(sites, known, next);
      case Nested =>
        var nested := OutcomeOf(sites, i);
        if i in known {
          assert FaithfulAt(sites, known, i);
          PassingIsRejected(sites, known, Follow(sites, i, known[i]));
        } else {
          if sites[i].heading.Some? {
            PassingIsRejected(sites, known, sites[i].heading.value + 1);
          }
          PassingIsRejected(sites, known, Resume(sites, i, OutcomeWith(sites, known, i)));
        }
    }
  }

  /** A search over a faithful cache disagrees with the definition in one case only: it
      finds a body behind the entry of an abandoned search. */
  lemma {:induction false} AgreesExactly(sites: Sites, known: Spans, r: nat)
    requires Faithful(sites, known) && r < |sites| && r !in known
    ensures AnswerWith(sites, known, r) == SpanOf(sites, r, OutcomeOf(sites, r)) <==>
            !(sites[r].heading.Some? && PassesAbandoned(sites, known, sites[r].heading.value + 1)
              && ScanWith(sites, known, sites[r].heading.value + 1).Body?)
    ensures !OutcomeOf(sites, r).Reject? ==> AnswerWith(sites, known, r) == SpanOf(sites, r, OutcomeOf(sites, r))
  {
    if sites[r].heading.Some? {
      PassingIsRejected(sites, known, sites[r].heading.value + 1);
    }
  }

  /** An entry agrees unless it records a body for a routine on which the definition gives up. */
  lemma {:induction false} EntryAgreesExactly(sites: Sites, known: Spans, r: nat)
    requires Faithful(sites, known) && r in known
    ensures r < |sites|
    ensures AnswerWith(sites, known, r) == SpanOf(sites, r, OutcomeOf(sites, r)) <==>
            !(known[r].Some? && OutcomeOf(sites, r).Reject?)
  {
    assert FaithfulAt(sites, known, r);
  }

  // ----- caches without abandoned entries -----

  /** The definition gives up on no recorded routine. */
  predicate Untainted(sites: Sites, known: Spans) {
    forall r :: r in known && r < |sites| ==> !OutcomeOf(sites, r).Reject?
  }

  lemma {:induction false} UntaintedPassesNone(sites: Sites, known: Spans, i: nat)
    requires Untainted(sites, known)
    ensures !PassesAbandoned(sites, known, i)
    decreases |sites| + 2 - i
  {
    if i < |sites| {
      match sites[i].move
      case Done(_) =>
      case Go(next) => UntaintedPassesNone(sites, known, next);
      case Nested =>
        if i in known {
          UntaintedPassesNone(sites, known, Follow(sites, i, known[i]));
        } else {
          if sites[i].heading.Some? {
            UntaintedPassesNone(sites, known, sites[i].heading.value + 1);
          }
          UntaintedPassesNone(sites, known, Resume(sites, i, OutcomeWith(sites, known, i)));
        }
    }
  }

  /** Reading off a right cache without abandoned entries is the definition. */
  lemma {:induction false} UntaintedIsPlain(sites: Sites, known: Spans, r: nat)
    requires Faithful(sites, known) && Untainted(sites, known) && r < |sites|
    ensures OutcomeWith(sites, known, r) == OutcomeOf(sites, r)
    ensures AnswerWith(sites, known, r) == SpanOf(sites, r, OutcomeOf(sites, r))
  {
    if sites[r].heading.Some? {
      UntaintedPassesNone(sites, known, sites[r].heading.value + 1);
      PassingIsRejected(sites, known, sites[r].heading.value + 1);
    }
    assert r in known ==> FaithfulAt(sites, known, r);
  }

  // ----- the frame stack -----

  /** A routine whose body is being looked for, and the next token to look at. */
  datatype Frame = Frame(routine: nat, index: nat)

  datatype Machine = Machine(frames: seq<Frame>, spans: Spans)

  /** Giving up on every active routine. */
  function RejectFrames(frames: seq<Frame>, spans: Spans): Spans {
    if frames == [] then spans
    else RejectFrames(frames[..|frames| - 1], spans)[frames[|frames| - 1].routine := None]
  }

  function Top(m: Machine): Frame
    requires m.frames != []
  {
    m.frames[|m.frames| - 1]
  }

  function Below(m: Machine): seq<Frame>
    requires m.frames != []
  {
    m.frames[..|m.frames| - 1]
  }

  function Moved(m: Machine, index: nat): Machine
    requires m.frames != []
  {
    m.(frames := Below(m) + [Frame(Top(m).routine, index)])
  }

  function Settled(m: Machine, entry: Option<Span>): Machine
    requires m.frames != []
  {
    Machine(Below(m), m.spans[Top(m).routine := entry])
  }

  function Rejected(m: Machine): Machine {
    Machine([], RejectFrames(m.frames, m.spans))
  }

  function Entered(m: Machine, heading: nat): Machine
    requires m.frames != []
  {
    m.(frames := m.frames + [Frame(Top(m).index, heading + 1)])
  }

  /** One turn of the loop. */
  function Next(sites: Sites, m: Machine): Machine
    requires m.frames != [] && Top(m).routine < |sites|
  {
    var i := Top(m).index;
    if i >= |sites| then Rejected(m)
    else
      match sites[i].move
      case Done(outcome) => if outcome.Reject? then Rejected(m) else Settled(m, SpanOf(sites, Top(m).routine, outcome))
      case Go(next) => Moved(m, next)
      case Nested =>
        if i in m.spans then Moved(m, Follow(sites, i, m.spans[i]))
        else if sites[i].heading.None? then m.(spans := m.spans[i := None])
        else Entered(m, sites[i].heading.value)
  }

  /** The cache holds the entries it began with, and besides only what the definition reads
      off those. */
  ghost predicate Grown(sites: Sites, known: Spans, spans: Spans) {
    && (forall r :: r in known ==> r in spans)
    && forall r :: r in spans ==> GrownAt(sites, known, spans, r)
  }

  ghost predicate GrownAt(sites: Sites, known: Spans, spans: Spans, r: nat)
    requires r in spans
  {
    if r in known then spans[r] == known[r]
    else r < |sites| && spans[r] == SpanOf(sites, r, OutcomeWith(sites, known, r))
  }

  /** A cache that grows from a faithful one is faithful. */
  lemma {:induction false} GrownIsFaithful(sites: Sites, known: Spans, spans: Spans)
    requires Faithful(sites, known) && Grown(sites, known, spans)
    ensures Faithful(sites, spans)
  {
    forall r | r in spans
      ensures FaithfulAt(sites, spans, r)
    {
      assert GrownAt(sites, known, spans, r);
      if r in known {
        assert FaithfulAt(sites, known, r);
      } else {
        AgreesExactly(sites, known, r);
      }
    }
  }

  /** The frame still has to find what the definition finds from its index. */
  ghost predicate FrameFits(sites: Sites, known: Spans, f: Frame, spans: Spans) {
    && f.routine < |sites| && f.routine < f.index && f.routine !in spans
    && sites[f.routine].heading.Some?
    && OutcomeWith(sites, known, f.routine) == ScanWith(sites, known, f.index)
  }

  /** Each frame waits at the nested declaration that the frame above it is looking into. */
  ghost predicate Waits(sites: Sites, f: Frame, g: Frame) {
    f.index == g.routine && f.index < |sites| && sites[f.index].move == Nested
  }

  ghost predicate FramesFit(sites: Sites, known: Spans, frames: seq<Frame>, spans: Spans) {
    && (forall j :: 0 <= j < |frames| ==> FrameFits(sites, known, frames[j], spans))
    && forall j, k :: 0 <= j && k == j + 1 < |frames| ==> Waits(sites, frames[j], frames[k])
  }

  /** While the search runs, none of the routines it settled was given up on. */
  ghost predicate Fits(sites: Sites, known: Spans, m: Machine) {
    && Grown(sites, known, m.spans)
    && (forall r :: r in m.spans && r !in known ==> r < |sites| && !OutcomeWith(sites, known, r).Reject?)
    && FramesFit(sites, known, m.frames, m.spans)
  }

  lemma {:induction false} FramesAscend(sites: Sites, known: Spans, frames: seq<Frame>, spans: Spans, j: nat, k: nat)
    requires FramesFit(sites, known, frames, spans) && j < k < |frames|
    ensures frames[j].routine < frames[j].index <= frames[k].routine
    decreases k
  {
    var h := k - 1;
    assert FrameFits(sites, known, frames[j], spans) && FrameFits(sites, known, frames[h], spans);
    assert Waits(sites, frames[h], frames[k]);
    if j < h {
      FramesAscend(sites, known, frames, spans, j, h);
    }
  }

  /** When the top frame's search gives up, so does the search of every frame. */
  lemma {:induction false} RejectSpreads(sites: Sites, known: Spans, m: Machine, j: nat)
    requires Fits(sites, known, m) && j < |m.frames| && ScanWith(sites, known, Top(m).index).Reject?
    ensures m.frames[j].routine < |sites| && OutcomeWith(sites, known, m.frames[j].routine).Reject?
    decreases |m.frames| - j
  {
    assert FrameFits(sites, known, m.frames[j], m.spans);
    var k := j + 1;
    if k < |m.frames| {
      RejectSpreads(sites, known, m, k);
      assert Waits(sites, m.frames[j], m.frames[k]);
      assert FrameFits(sites, known, m.frames[k], m.spans);
    }
  }

  /** `r` is the routine of one of the frames. */
  predicate Active(frames: seq<Frame>, r: nat) {
    exists j :: 0 <= j < |frames| && frames[j].routine == r
  }

  lemma {:induction false} ActiveSnoc(frames: seq<Frame>, r: nat)
    requires frames != []
    ensures Active(frames, r) <==> Active(frames[..|frames| - 1], r) || frames[|frames| - 1].routine == r
  {
    var init := frames[..|frames| - 1];
    if j :| 0 <= j < |init| && init[j].routine == r {
      assert frames[j].routine == r;
    }
  }

  lemma {:induction false} RejectFramesExact(frames: seq<Frame>, spans: Spans, r: nat)
    ensures r in RejectFrames(frames, spans) <==> r in spans || Active(frames, r)
    ensures r in RejectFrames(frames, spans) ==> RejectFrames(frames, spans)[r] == if Active(frames, r) then None else spans[r]
  {
    if frames != [] {
      RejectFramesExact(frames[..|frames| - 1], spans, r);
      ActiveSnoc(frames, r);
    }
  }

  // ----- one turn keeps the frames in step with the definition -----

  lemma {:induction false} MovedFits(sites: Sites, known: Spans, m: Machine, index: nat)
    requires Fits(sites, known, m) && m.frames != [] && Top(m).index < index
    requires ScanWith(sites, known, index) == ScanWith(sites, known, Top(m).index)
    ensures Fits(sites, known, Moved(m, index))
  {
    var n := Moved(m, index);
    var last := |m.frames| - 1;
    assert FrameFits(sites, known, m.frames[last], m.spans);
    forall j | 0 <= j < |n.frames|
      ensures FrameFits(sites, known, n.frames[j], n.spans)
    {
      assert FrameFits(sites, known, m.frames[j], m.spans);
    }
    forall j, k | 0 <= j && k == j + 1 < |n.frames|
      ensures Waits(sites, n.frames[j], n.frames[k])
    {
      assert Waits(sites, m.frames[j], m.frames[k]);
    }
  }

  /** Settling a routine that no frame is looking into. */
  lemma {:induction false} SettledFits(sites: Sites, known: Spans, m: Machine, frames: seq<Frame>, r: nat)
    requires Fits(sites, known, m) && frames <= m.frames
    requires r < |sites| && r !in m.spans && forall j :: 0 <= j < |frames| ==> frames[j].routine != r
    requires !OutcomeWith(sites, known, r).Reject?
    ensures Fits(sites, known, Machine(frames, m.spans[r := SpanOf(sites, r, OutcomeWith(sites, known, r))]))
  {
    var spans := m.spans[r := SpanOf(sites, r, OutcomeWith(sites, known, r))];
    forall q | q in spans
      ensures GrownAt(sites, known, spans, q)
    {
      if q != r {
        assert GrownAt(sites, known, m.spans, q);
      }
    }
    forall j | 0 <= j < |frames|
      ensures FrameFits(sites, known, frames[j], spans)
    {
      assert FrameFits(sites, known, m.frames[j], m.spans);
    }
    forall j, k | 0 <= j && k == j + 1 < |frames|
      ensures Waits(sites, frames[j], frames[k])
    {
      assert Waits(sites, m.frames[j], m.frames[k]);
    }
  }

  lemma {:induction false} EnteredFits(sites: Sites, known: Spans, m: Machine)
    requires Fits(sites, known, m) && m.frames != [] && Top(m).index < |sites| && Top(m).index !in m.spans
    requires sites[Top(m).index].move == Nested && sites[Top(m).index].heading.Some?
    ensures Fits(sites, known, Entered(m, sites[Top(m).index].heading.value))
  {
    var n := Entered(m, sites[Top(m).index].heading.value);
    forall j | 0 <= j < |n.frames|
      ensures FrameFits(sites, known, n.frames[j], n.spans)
    {
      if j < |m.frames| {
        assert FrameFits(sites, known, m.frames[j], m.spans);
      }
    }
    forall j, k | 0 <= j && k == j + 1 < |n.frames|
      ensures Waits(sites, n.frames[j], n.frames[k])
    {
      if k < |m.frames| {
        assert Waits(sites, m.frames[j], m.frames[k]);
      }
    }
  }

  /** After giving up, every active routine is settled as having no span. */
  lemma {:induction false} RejectedFits(sites: Sites, known: Spans, m: Machine)
    requires Fits(sites, known, m) && m.frames != [] && ScanWith(sites, known, Top(m).index).Reject?
    ensures Grown(sites, known, Rejected(m).spans)
  {
    var spans := Rejected(m).spans;
    forall r | r in known
      ensures r in spans
    {
      RejectFramesExact(m.frames, m.spans, r);
    }
    forall r | r in spans
      ensures GrownAt(sites, known, spans, r)
    {
      RejectFramesExact(m.frames, m.spans, r);
      if j :| 0 <= j < |m.frames| && m.frames[j].routine == r {
        RejectSpreads(sites, known, m, j);
        assert FrameFits(sites, known, m.frames[j], m.spans);
      } else {
        assert GrownAt(sites, known, m.spans, r);
      }
    }
  }

  /** Passing a settled declaration does not change what is found. */
  lemma {:induction false} ResumesAlike(sites: Sites, known: Spans, m: Machine, i: nat)
    requires Fits(sites, known, m) && i < |sites| && sites[i].move == Nested && i in m.spans
    ensures i !in known ==> Follow(sites, i, m.spans[i]) == Resume(sites, i, OutcomeWith(sites, known, i))
    ensures i in known ==> m.spans[i] == known[i]
    ensures ScanWith(sites, known, Follow(sites, i, m.spans[i])) == ScanWith(sites, known, i)
  {
    assert GrownAt(sites, known, m.spans, i);
  }

  /** A turn ends with frames that still fit, or with no frames and the cache right. */
  lemma {:induction false} NextFits(sites: Sites, known: Spans, m: Machine)
    requires Fits(sites, known, m) && m.frames != []
    ensures Top(m).routine < |sites|
    ensures Grown(sites, known, Next(sites, m).spans)
    ensures Next(sites, m).frames != [] ==> Fits(sites, known, Next(sites, m))
  {
    var last := |m.frames| - 1;
    assert FrameFits(sites, known, m.frames[last], m.spans);
    var routine, i := Top(m).routine, Top(m).index;
    if i >= |sites| {
      RejectedFits(sites, known, m);
    } else {
      match sites[i].move
      case Done(outcome) =>
        if outcome.Reject? {
          RejectedFits(sites, known, m);
        } else {
          NotBelow(sites, known, m, routine);
          SettledFits(sites, known, m, Below(m), routine);
        }
      case Go(next) => MovedFits(sites, known, m, next);
      case Nested =>
        if i in m.spans {
          ResumesAlike(sites, known, m, i);
          MovedFits(sites, known, m, Follow(sites, i, m.spans[i]));
        } else if sites[i].heading.None? {
          NotBelow(sites, known, m, i);
          SettledFits(sites, known, m, m.frames, i);
        } else {
          EnteredFits(sites, known, m);
        }
    }
  }

  /** Neither the routine nor the index of the top frame is a routine further down. */
  lemma {:induction false} NotBelow(sites: Sites, known: Spans, m: Machine, r: nat)
    requires Fits(sites, known, m) && m.frames != [] && (r == Top(m).routine || r == Top(m).index)
    ensures forall j :: 0 <= j < |Below(m)| ==> Below(m)[j].routine != r
    ensures r == Top(m).index ==> Top(m).routine != r
  {
    var last := |m.frames| - 1;
    assert FrameFits(sites, known, m.frames[last], m.spans);
    forall j | 0 <= j < last
      ensures Below(m)[j].routine != r
    {
      FramesAscend(sites, known, m.frames, m.spans, j, last);
    }
  }

  /** The bottom frame is settled, rightly, when the stack runs empty. */
  lemma {:induction false} NextSettlesRoot(sites: Sites, known: Spans, m: Machine)
    requires Fits(sites, known, m) && m.frames != [] && Top(m).routine < |sites| && Next(sites, m).frames == []
    ensures var r, spans := m.frames[0].routine, Next(sites, m).spans;
            r < |sites| && r !in known && r in spans && spans[r] == SpanOf(sites, r, OutcomeWith(sites, known, r))
  {
    assert FrameFits(sites, known, m.frames[0], m.spans);
    var r := m.frames[0].routine;
    RejectFramesExact(m.frames, m.spans, r);
    assert Active(m.frames, r);
    NextFits(sites, known, m);
    assert r in Next(sites, m).spans && GrownAt(sites, known, Next(sites, m).spans, r);
  }

  // ----- termination -----

  ghost function Open(n: nat, spans: Spans): set<nat> {
    set r: nat | r < n && r !in spans
  }

  ghost function Left(n: nat, m: nat): nat {
    if n < m then m - n else 0
  }

  ghost function RoutineLeft(n: nat, frames: seq<Frame>): nat {
    if frames == [] then 0 else Left(frames[|frames| - 1].routine, n) + 1
  }

  ghost function IndexLeft(n: nat, frames: seq<Frame>): nat {
    if frames == [] then 0 else Left(frames[|frames| - 1].index, n)
  }

  lemma {:induction false} Settling(n: nat, before: Spans, after: Spans, r: nat)
    requires r < n && r !in before && r in after && before.Keys <= after.Keys
    ensures |Open(n, after)| < |Open(n, before)|
  {
    var a, b := Open(n, after), Open(n, before);
    assert a <= b - {r};
    Subset(a, b - {r});
    assert r in b;
  }

  lemma {:induction false} Subset<T>(a: set<T>, b: set<T>)
    requires a <= b
    ensures |a| <= |b|
  {
    if a != {} {
      var x :| x in a;
      Subset(a - {x}, b - {x});
    }
  }

  /** Either a routine is settled, or a later one is entered, or the top index grows. */
  lemma {:induction false} NextProgress(sites: Sites, known: Spans, m: Machine)
    requires Fits(sites, known, m) && m.frames != [] && Top(m).routine < |sites|
    ensures var n, size := Next(sites, m), |sites|;
            var a, b := |Open(size, m.spans)|, |Open(size, n.spans)|;
            var c, d := RoutineLeft(size, m.frames), RoutineLeft(size, n.frames);
            b < a || (b == a && (d < c || (d == c && IndexLeft(size, n.frames) < IndexLeft(size, m.frames))))
  {
    var n := Next(sites, m);
    var last := |m.frames| - 1;
    assert FrameFits(sites, known, m.frames[last], m.spans);
    if n == Rejected(m) {
      Drained(sites, m);
    } else if n.spans != m.spans {
      Settling(|sites|, m.spans, n.spans, if |n.frames| < |m.frames| then Top(m).routine else Top(m).index);
    }
  }

  /** Giving up settles the top routine. */
  lemma {:induction false} Drained(sites: Sites, m: Machine)
    requires m.frames != [] && Top(m).routine < |sites| && Top(m).routine !in m.spans
    ensures |Open(|sites|, Rejected(m).spans)| < |Open(|sites|, m.spans)|
  {
    var routine, last := Top(m).routine, |m.frames| - 1;
    RejectFramesExact(m.frames, m.spans, routine);
    assert m.frames[last].routine == routine && Active(m.frames, routine);
    forall r | r in m.spans
      ensures r in Rejected(m).spans
    {
      RejectFramesExact(m.frames, m.spans, r);
    }
    Settling(|sites|, m.spans, Rejected(m).spans, routine);
  }

  /** What holds between turns of a search for `routine`: frames that fit, or the answer. */
  ghost predicate Running(sites: Sites, known: Spans, routine: nat, m: Machine) {
    && routine < |sites| && routine !in known && Grown(sites, known, m.spans)
    && (m.frames != [] ==> Fits(sites, known, m) && m.frames[0].routine == routine && Top(m).routine < |sites|)
    && (m.frames == [] ==> routine in m.spans)
  }

  lemma {:induction false} RunningStep(sites: Sites, known: Spans, routine: nat, m: Machine)
    requires m.frames != [] && Running(sites, known, routine, m)
    ensures Running(sites, known, routine, Next(sites, m))
  {
    NextFits(sites, known, m);
    var n := Next(sites, m);
    if n.frames == [] {
      NextSettlesRoot(sites, known, m);
    } else {
      assert n.frames[0].routine == routine;
      var last := |n.frames| - 1;
      assert FrameFits(sites, known, n.frames[last], n.spans);
    }
  }
}
