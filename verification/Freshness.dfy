/** When a request may trust the last revision: requests one at a time, invalidations by any
    number of watching threads at any moment. The clock counts steps; it and what is measured by
    it exist only to say what came before what. */
module Freshness {
  import opened Wrappers

  type Project = string
  type Revision = string
  type Time = int
  type Watcher = nat

  /** What a cached value was built for. */
  datatype Tag = Tag(project: Project, revision: Revision)

  datatype Caches = Caches(registry: Option<Tag>, relation: Option<Tag>, metrics: Option<Tag>, cpg: set<Tag>, prepared: set<Tag>)

  const NO_CACHES := Caches(None, None, None, {}, {})

  /** The values that the request in progress has loaded. */
  datatype Pc =
    | Idle
    | Begun(start: nat, wanted: Project, previous: Project)
    | Timed(start: nat, wanted: Project, previous: Project, now: Time)
    | Armed(start: nat, wanted: Project, previous: Project, now: Time, epoch: int, armed: nat)
    | Reading(start: nat, wanted: Project, previous: Project, now: Time, epoch: int, armed: nat, began: nat)
    | Read(start: nat, previous: Project, now: Time, epoch: int, armed: nat, began: nat, revision: Revision)
    | Tested(start: nat, previous: Project, now: Time, same: bool, began: nat, tested: nat, revision: Revision)
    | Checked(start: nat, previous: Project, began: nat, revision: Revision)
    | Serving(start: nat, began: nat, revision: Revision, registry: Option<Tag>, used: set<Tag>)

  /** An invalidation: when it raised the epoch and when it took back the stamp. */
  datatype Invalidation = Invalidation(raised: nat, completed: nat)

  /** The last stamp that was set in a step of its own: when its read of the revision began,
      when the epoch was tested for it, and when it was set. */
  datatype Window = Window(began: nat, tested: nat, stamped: nat)

  /** `checkedAt` is None for minus infinity; `began` is when the read of the last revision began. */
  datatype State = State(
    epoch: int, checkedAt: Option<Time>, last: Revision, active: Project, caches: Caches, pc: Pc,
    now: Time, clock: nat, began: nat, raised: map<Watcher, nat>, past: seq<Invalidation>,
    window: Option<Window>)

  /** `atomic` says that the test of the epoch and the stamp are one step. */
  datatype Config = Config(interval: Time, atomic: bool)

  datatype Action =
    | Pass(now: Time)
    | Begin(wanted: Project)
    | LookAtClock
    | LoadEpoch
    | Decide
    | ReadDone(found: Revision)
    | ReadFails
    | TestEpoch
    | Stamp
    | Settle
    | UseRegistry
    | UseRelation(targetsComplete: bool)
    | UseMetrics
    | UseCpg(hit: Option<Tag>)
    | UsePrepared(hit: Option<Tag>)
    | Evict(navigation: bool)
    | Trim(cpg: set<Tag>, prepared: set<Tag>)
    | Finish
    | Raise(w: Watcher)
    | TakeBack(w: Watcher)

  function Initial(project: Project, revision: Revision, now: Time, cfg: Config): State {
    State(0, Some(if cfg.interval > 0 then now else 0), revision, project, NO_CACHES, Idle, now, 1, 0, map[], [], None)
  }

  // ----- the steps -----

  function To(s: State, pc: Pc): Option<State> {
    Some(s.(pc := pc, clock := s.clock + 1))
  }

  predicate IsFresh(cfg: Config, s: State)
    requires s.pc.Armed?
  {
    var changed := s.pc.wanted != "" && s.pc.wanted != s.pc.previous;
    !changed && cfg.interval > 0 && s.checkedAt.Some? && s.pc.now - s.checkedAt.value < cfg.interval
  }

  /** One step, or None where the action is not possible. */
  function Next(cfg: Config, s: State, a: Action): Option<State> {
    match a
    case Pass(now) => if now >= s.now then Some(s.(now := now, clock := s.clock + 1)) else None
    case Begin(wanted) => if s.pc.Idle? then To(s, Begun(s.clock, wanted, s.active)) else None
    case LookAtClock => if s.pc.Begun? then To(s, Timed(s.pc.start, s.pc.wanted, s.pc.previous, s.now)) else None
    case LoadEpoch =>
      if s.pc.Timed? then To(s, Armed(s.pc.start, s.pc.wanted, s.pc.previous, s.pc.now, s.epoch, s.clock)) else None
    case Decide =>
      if !s.pc.Armed? then None
      else if IsFresh(cfg, s) then To(s, Checked(s.pc.start, s.pc.previous, s.began, s.last))
      else To(s, Reading(s.pc.start, s.pc.wanted, s.pc.previous, s.pc.now, s.pc.epoch, s.pc.armed, s.clock))
    case ReadDone(found) =>
      if !s.pc.Reading? then None
      else
        var active := if s.pc.wanted != "" then s.pc.wanted else s.active;
        To(s.(active := active), Read(s.pc.start, s.pc.previous, s.pc.now, s.pc.epoch, s.pc.armed, s.pc.began, found))
    case ReadFails => if s.pc.Reading? then To(s, Idle) else None
    case TestEpoch =>
      if s.pc.Read? && !cfg.atomic then To(s, Tested(s.pc.start, s.pc.previous, s.pc.now, s.epoch == s.pc.epoch, s.pc.began, s.clock, s.pc.revision))
      else None
    case Stamp =>
      if s.pc.Read? && cfg.atomic then
        To(if s.epoch == s.pc.epoch then s.(checkedAt := Some(s.pc.now), window := None) else s, Checked(s.pc.start, s.pc.previous, s.pc.began, s.pc.revision))
      else if s.pc.Tested? then
        To(if s.pc.same then s.(checkedAt := Some(s.pc.now), window := Some(Window(s.pc.began, s.pc.tested, s.clock))) else s,
           Checked(s.pc.start, s.pc.previous, s.pc.began, s.pc.revision))
      else None
    case Settle =>
      if !s.pc.Checked? then None
      else
        var keep := s.active == s.pc.previous && s.pc.revision == s.last;
        To(s.(caches := if keep then s.caches else NO_CACHES, last := s.pc.revision, began := s.pc.began),
           Serving(s.pc.start, s.pc.began, s.pc.revision, None, {}))
    case UseRegistry => if s.pc.Serving? then UsesRegistry(s) else None
    case UseRelation(targetsComplete) => if s.pc.Serving? && s.pc.registry.Some? then UsesRelation(s, targetsComplete) else None
    case UseMetrics => if s.pc.Serving? then UsesMetrics(s) else None
    case UseCpg(hit) => if s.pc.Serving? && s.pc.registry.Some? then UsesCpg(s, hit) else None
    case UsePrepared(hit) => if s.pc.Serving? then UsesPrepared(s, hit) else None
    case Evict(navigation) => if s.pc.Serving? then Some(s.(caches := Evicted(s.caches, navigation), clock := s.clock + 1)) else None
    case Trim(cpg, prepared) =>
      if s.pc.Serving? && cpg <= s.caches.cpg && prepared <= s.caches.prepared then
        Some(s.(caches := s.caches.(cpg := cpg, prepared := prepared), clock := s.clock + 1))
      else None
    case Finish => if s.pc.Serving? then To(s, Idle) else None
    case Raise(w) =>
      if w in s.raised then None
      else Some(s.(epoch := s.epoch + 1, raised := s.raised[w := s.clock], clock := s.clock + 1))
    case TakeBack(w) =>
      if w !in s.raised then None
      else Some(s.(checkedAt := None, past := s.past + [Invalidation(s.raised[w], s.clock)], raised := s.raised - {w}, clock := s.clock + 1))
  }

  /** Under memory pressure the registry goes last. */
  function Evicted(caches: Caches, navigation: bool): Caches {
    if navigation then NO_CACHES else NO_CACHES.(registry := caches.registry)
  }

  function Using(s: State, caches: Caches, tag: Tag): Option<State>
    requires s.pc.Serving?
  {
    Some(s.(caches := caches, pc := s.pc.(used := s.pc.used + {tag}), clock := s.clock + 1))
  }

  /** The registry is rebuilt unless it is of the active project and the revision. */
  function UsesRegistry(s: State): Option<State>
    requires s.pc.Serving?
  {
    var held := s.caches.registry;
    var tag := if held.Some? && held.value.project == s.active && held.value.revision == s.pc.revision then held.value
               else Tag(s.active, s.pc.revision);
    var n := s.(pc := s.pc.(registry := Some(tag)));
    Using(n, s.caches.(registry := Some(tag)), tag)
  }

  /** The relation index is compared with the registry, and rebuilt when its targets are not all there. */
  function UsesRelation(s: State, targetsComplete: bool): Option<State>
    requires s.pc.Serving? && s.pc.registry.Some?
  {
    var held, registry := s.caches.relation, s.pc.registry.value;
    var tag := if held.Some? && held.value.project == registry.project && held.value.revision == registry.revision && targetsComplete
               then held.value else registry;
    Using(s, s.caches.(relation := Some(tag)), tag)
  }

  /** Only the revision of the metrics is compared. */
  function UsesMetrics(s: State): Option<State>
    requires s.pc.Serving?
  {
    var held := s.caches.metrics;
    var tag := if held.Some? && held.value.revision == s.pc.revision then held.value else Tag(s.active, s.pc.revision);
    Using(s, s.caches.(metrics := Some(tag)), tag)
  }

  /** A graph is looked up under the revision of the registry; the project is not in the key. */
  function UsesCpg(s: State, hit: Option<Tag>): Option<State>
    requires s.pc.Serving? && s.pc.registry.Some?
  {
    var registry := s.pc.registry.value;
    if hit.Some? && !(hit.value in s.caches.cpg && hit.value.revision == registry.revision) then None
    else
      var tag := if hit.Some? then hit.value else registry;
      Using(s, s.caches.(cpg := s.caches.cpg + {tag}), tag)
  }

  /** A prepared response is looked up under the revision and a fingerprint with the project. */
  function UsesPrepared(s: State, hit: Option<Tag>): Option<State>
    requires s.pc.Serving?
  {
    if hit.Some? && !(hit.value in s.caches.prepared && hit.value == Tag(s.active, s.pc.revision)) then None
    else
      var tag := if hit.Some? then hit.value else Tag(s.active, s.pc.revision);
      Using(s, s.caches.(prepared := s.caches.prepared + {tag}), tag)
  }

  /** The state after a run of actions. */
  function Run(cfg: Config, s: State, run: seq<Action>): Option<State> {
    if run == [] then Some(s)
    else
      var before := Run(cfg, s, run[..|run| - 1]);
      if before.None? then None else Next(cfg, before.value, run[|run| - 1])
  }

  // ----- the invariant -----

  /** The epoch was raised before `t` by all that ever raised it. */
  ghost predicate AllRaisedBefore(s: State, t: nat) {
    && (forall w :: w in s.raised ==> s.raised[w] < t)
    && (forall i :: 0 <= i < |s.past| ==> s.past[i].raised < t)
  }

  /** Nobody raised the epoch between `from` and `until`. */
  ghost predicate NotRaisedBetween(s: State, from: nat, until: nat) {
    && (forall w :: w in s.raised ==> s.raised[w] < from || until < s.raised[w])
    && (forall i :: 0 <= i < |s.past| ==> s.past[i].raised < from || until < s.past[i].raised)
  }

  /** The invalidation raised the epoch and took back the stamp after the epoch was tested for
      the stamp and before the stamp was set. */
  predicate InWindow(window: Option<Window>, i: Invalidation) {
    window.Some? && window.value.tested < i.raised && i.completed < window.value.stamped
  }

  /** When the read began that the next fresh request would answer from. */
  function LastRead(s: State): nat {
    if s.pc.Checked? then s.pc.began else s.began
  }

  ghost predicate PastClocked(s: State) {
    && s.began < s.clock
    && (forall w :: w in s.raised ==> s.raised[w] < s.clock)
    && (forall i :: 0 <= i < |s.past| ==> s.past[i].raised < s.past[i].completed < s.clock)
  }

  ghost predicate PcClocked(s: State) {
    && (!s.pc.Idle? ==> s.pc.start < s.clock)
    && (s.pc.Armed? || s.pc.Reading? || s.pc.Read? ==> s.pc.start < s.pc.armed < s.clock)
  }

  ghost predicate BeganClocked(s: State) {
    && (s.pc.Reading? || s.pc.Read? ==> s.pc.armed < s.pc.began < s.clock)
    && (s.pc.Tested? ==> s.pc.start < s.pc.began < s.pc.tested < s.clock)
    && (s.pc.Checked? || s.pc.Serving? ==> s.pc.began < s.clock)
  }

  ghost predicate ReadClocked(s: State) {
    && (s.pc.Reading? || s.pc.Read? || s.pc.Tested? || s.pc.Checked? ==> s.began <= s.pc.began)
    && (s.pc.Serving? ==> s.pc.began == s.began)
  }

  ghost predicate WindowClocked(s: State) {
    s.window.Some? ==> s.window.value.began < s.window.value.tested < s.window.value.stamped < s.clock
  }

  /** A read that is not the one the window was set for began after the window. */
  ghost predicate WindowTells(s: State) {
    s.window.Some? ==>
      && (s.pc.Reading? || s.pc.Read? || s.pc.Tested? ==> s.window.value.stamped < s.pc.began)
      && (LastRead(s) == s.window.value.began || s.window.value.stamped < LastRead(s))
  }

  /** An epoch that has not moved since it was loaded was raised by nobody since. */
  ghost predicate EpochTells(s: State) {
    && (s.pc.Armed? || s.pc.Reading? || s.pc.Read? ==>
          s.pc.epoch <= s.epoch && (s.pc.epoch == s.epoch ==> AllRaisedBefore(s, s.pc.armed)))
    && (s.pc.Tested? && s.pc.same ==> NotRaisedBetween(s, s.pc.began, s.pc.tested))
  }

  /** A stamp stands for a read that began after every completed invalidation raised the epoch,
      those in the window excepted. */
  ghost predicate StampTells(s: State) {
    s.checkedAt.Some? ==>
      forall i :: 0 <= i < |s.past| ==> s.past[i].raised < LastRead(s) || InWindow(s.window, s.past[i])
  }

  /** The request in progress answers from a read that began after every invalidation that was
      complete when it started, those in the window excepted. */
  ghost predicate Fresh(s: State) {
    s.pc.Checked? || s.pc.Serving? ==>
      forall i :: 0 <= i < |s.past| && s.past[i].completed < s.pc.start ==>
        s.past[i].raised < s.pc.began || InWindow(s.window, s.past[i])
  }

  ghost predicate AllTagged(c: Caches, tag: Tag) {
    && (c.registry.Some? ==> c.registry.value == tag)
    && (c.relation.Some? ==> c.relation.value == tag)
    && (c.metrics.Some? ==> c.metrics.value == tag)
    && (forall t :: t in c.cpg || t in c.prepared ==> t == tag)
  }

  /** The caches belong to one project and revision, and what a response uses is theirs. */
  ghost predicate Tagged(s: State) {
    && (s.pc.Begun? || s.pc.Timed? || s.pc.Armed? || s.pc.Reading? ==> s.pc.previous == s.active)
    && CachesTagged(s)
    && (s.pc.Serving? ==>
          && s.pc.revision == s.last
          && (s.pc.registry.Some? ==> s.pc.registry.value == Tag(s.active, s.last))
          && forall t :: t in s.pc.used ==> t == Tag(s.active, s.last))
  }

  ghost predicate CachesTagged(s: State) {
    AllTagged(s.caches, Tag(if s.pc.Read? || s.pc.Tested? || s.pc.Checked? then s.pc.previous else s.active, s.last))
  }

  ghost predicate Sound(cfg: Config, s: State) {
    && PastClocked(s) && PcClocked(s) && BeganClocked(s) && ReadClocked(s) && WindowClocked(s) && WindowTells(s) && EpochTells(s) && StampTells(s) && Fresh(s) && Tagged(s)
    && (cfg.atomic ==> !s.pc.Tested? && s.window == None)
  }

  lemma {:induction false} StepPastClocked(cfg: Config, s: State, a: Action)
    requires PastClocked(s) && PcClocked(s) && BeganClocked(s) && Next(cfg, s, a).Some?
    ensures PastClocked(Next(cfg, s, a).value)
  {
  }

  lemma {:induction false} StepPcClocked(cfg: Config, s: State, a: Action)
    requires PcClocked(s) && Next(cfg, s, a).Some?
    ensures PcClocked(Next(cfg, s, a).value)
  {
  }

  lemma {:induction false} StepBeganClocked(cfg: Config, s: State, a: Action)
    requires PastClocked(s) && PcClocked(s) && BeganClocked(s) && Next(cfg, s, a).Some?
    ensures BeganClocked(Next(cfg, s, a).value)
  {
  }

  lemma {:induction false} StepReadClocked(cfg: Config, s: State, a: Action)
    requires PastClocked(s) && PcClocked(s) && BeganClocked(s) && ReadClocked(s) && Next(cfg, s, a).Some?
    ensures ReadClocked(Next(cfg, s, a).value)
  {
  }

  lemma {:induction false} StepWindowClocked(cfg: Config, s: State, a: Action)
    requires BeganClocked(s) && WindowClocked(s) && Next(cfg, s, a).Some?
    ensures WindowClocked(Next(cfg, s, a).value)
  {
  }

  lemma {:induction false} StepWindow(cfg: Config, s: State, a: Action)
    requires PastClocked(s) && PcClocked(s) && BeganClocked(s) && ReadClocked(s) && WindowClocked(s) && WindowTells(s) && Next(cfg, s, a).Some?
    ensures WindowTells(Next(cfg, s, a).value)
  {
  }

  lemma {:induction false} StepEpoch(cfg: Config, s: State, a: Action)
    requires PastClocked(s) && PcClocked(s) && BeganClocked(s) && EpochTells(s) && Next(cfg, s, a).Some?
    ensures EpochTells(Next(cfg, s, a).value)
  {
  }

  lemma {:induction false} StepStamp(cfg: Config, s: State, a: Action)
    requires Sound(cfg, s) && Next(cfg, s, a).Some?
    ensures StampTells(Next(cfg, s, a).value)
  {
  }

  lemma {:induction false} StepFresh(cfg: Config, s: State, a: Action)
    requires Sound(cfg, s) && Next(cfg, s, a).Some?
    ensures Fresh(Next(cfg, s, a).value)
  {
  }

  lemma {:induction false} StepCachesTagged(cfg: Config, s: State, a: Action)
    requires Tagged(s) && Next(cfg, s, a).Some?
    ensures CachesTagged(Next(cfg, s, a).value)
  {
  }

  lemma {:induction false} StepTagged(cfg: Config, s: State, a: Action)
    requires Tagged(s) && Next(cfg, s, a).Some?
    ensures Tagged(Next(cfg, s, a).value)
  {
    StepCachesTagged(cfg, s, a);
  }

  lemma {:induction false} StepAtomic(cfg: Config, s: State, a: Action)
    requires (cfg.atomic ==> !s.pc.Tested? && s.window == None) && Next(cfg, s, a).Some?
    ensures cfg.atomic ==> !Next(cfg, s, a).value.pc.Tested? && Next(cfg, s, a).value.window == None
  {
  }

  lemma {:induction false} StepSound(cfg: Config, s: State, a: Action)
    requires Sound(cfg, s) && Next(cfg, s, a).Some?
    ensures Sound(cfg, Next(cfg, s, a).value)
  {
    StepPastClocked(cfg, s, a);
    StepPcClocked(cfg, s, a);
    StepBeganClocked(cfg, s, a);
    StepReadClocked(cfg, s, a);
    StepWindowClocked(cfg, s, a);
    StepWindow(cfg, s, a);
    StepEpoch(cfg, s, a);
    StepStamp(cfg, s, a);
    StepFresh(cfg, s, a);
    StepTagged(cfg, s, a);
    StepAtomic(cfg, s, a);
  }

  /** Every run from a sound state, and so from the initial one, goes through sound states. */
  lemma {:induction false} RunsAreSound(cfg: Config, s: State, run: seq<Action>)
    requires Sound(cfg, s) && Run(cfg, s, run).Some?
    ensures Sound(cfg, Run(cfg, s, run).value)
  {
    if run != [] {
      RunsAreSound(cfg, s, run[..|run| - 1]);
      StepSound(cfg, Run(cfg, s, run[..|run| - 1]).value, run[|run| - 1]);
    }
  }

  /** The request in progress answers from a read that began before the invalidation raised the
      epoch, though the invalidation was complete when the request started. */
  predicate Lost(s: State, i: nat) {
    s.pc.Serving? && i < |s.past| && s.past[i].completed < s.pc.start && s.past[i].raised >= s.pc.began
  }

  /** An invalidation can be lost only if the epoch was raised and the stamp taken back both
      between a test that found the epoch unchanged and the stamp that followed it. Nothing
      that a response uses is of another project or revision. */
  lemma {:induction false} LostOnlyInWindow(cfg: Config, project: Project, revision: Revision, now: Time, run: seq<Action>, i: nat)
    requires Run(cfg, Initial(project, revision, now, cfg), run).Some?
    ensures var s := Run(cfg, Initial(project, revision, now, cfg), run).value;
      && (Lost(s, i) ==> !cfg.atomic && InWindow(s.window, s.past[i]) && s.window.value.began == s.pc.began)
      && (s.pc.Serving? ==> s.pc.revision == s.last && forall t :: t in s.pc.used ==> t == Tag(s.active, s.pc.revision))
  {
    RunsAreSound(cfg, Initial(project, revision, now, cfg), run);
  }

  /** With the test and the stamp in one step no invalidation is lost: a request that started
      after an invalidation was complete answers from a read of the revision that began after the
      invalidation raised the epoch. */
  lemma {:induction false} NoInvalidationIsLost(cfg: Config, project: Project, revision: Revision, now: Time, run: seq<Action>, i: nat)
    requires cfg.atomic && Run(cfg, Initial(project, revision, now, cfg), run).Some?
    ensures !Lost(Run(cfg, Initial(project, revision, now, cfg), run).value, i)
  {
    LostOnlyInWindow(cfg, project, revision, now, run, i);
  }

  // ----- which invalidations are lost -----

  /** The invalidation fell in the window of the stamp, the stamp still stands and is young
      enough, and the revision has not been read anew since. */
  predicate Exposed(cfg: Config, s: State, i: nat) {
    && i < |s.past| && InWindow(s.window, s.past[i]) && LastRead(s) == s.window.value.began
    && s.checkedAt.Some? && cfg.interval > 0 && s.now - s.checkedAt.value < cfg.interval
  }

  /** The time a request in progress compares the stamp with, or the next one would. */
  function Horizon(s: State): Time {
    if s.pc.Timed? || s.pc.Armed? then s.pc.now else s.now
  }

  /** The stamp stands for a read from after the invalidation, or is too old. */
  ghost predicate StampSpares(cfg: Config, s: State, raised: nat) {
    s.checkedAt.Some? && cfg.interval > 0 && Horizon(s) - s.checkedAt.value < cfg.interval ==> raised < LastRead(s)
  }

  /** So does the read of the request in progress. */
  ghost predicate ReadSpares(s: State, raised: nat) {
    && raised < s.clock && Horizon(s) <= s.now
    && (s.pc.Reading? || s.pc.Read? || s.pc.Tested? || s.pc.Checked? || s.pc.Serving? ==> raised < s.pc.began)
  }

  /** No request from here on can lose the invalidation. */
  ghost predicate Spared(cfg: Config, s: State, i: nat) {
    i < |s.past| && StampSpares(cfg, s, s.past[i].raised) && ReadSpares(s, s.past[i].raised)
  }

  lemma {:induction false} StepStampSpares(cfg: Config, s: State, raised: nat, a: Action)
    requires ReadClocked(s) && StampSpares(cfg, s, raised) && ReadSpares(s, raised) && Next(cfg, s, a).Some?
    ensures StampSpares(cfg, Next(cfg, s, a).value, raised)
  {
  }

  lemma {:induction false} StepReadSpares(cfg: Config, s: State, raised: nat, a: Action)
    requires StampSpares(cfg, s, raised) && ReadSpares(s, raised) && Next(cfg, s, a).Some?
    ensures ReadSpares(Next(cfg, s, a).value, raised)
  {
  }

  lemma {:induction false} StepPast(cfg: Config, s: State, i: nat, a: Action)
    requires i < |s.past| && Next(cfg, s, a).Some?
    ensures i < |Next(cfg, s, a).value.past| && Next(cfg, s, a).value.past[i] == s.past[i]
  {
  }

  lemma {:induction false} StepSpared(cfg: Config, s: State, i: nat, a: Action)
    requires Sound(cfg, s) && Spared(cfg, s, i) && Next(cfg, s, a).Some?
    ensures Spared(cfg, Next(cfg, s, a).value, i)
  {
    StepPast(cfg, s, i, a);
    StepStampSpares(cfg, s, s.past[i].raised, a);
    StepReadSpares(cfg, s, s.past[i].raised, a);
  }

  lemma {:induction false} RunsSpare(cfg: Config, s: State, i: nat, run: seq<Action>)
    requires Sound(cfg, s) && Spared(cfg, s, i) && Run(cfg, s, run).Some?
    ensures Spared(cfg, Run(cfg, s, run).value, i)
  {
    if run != [] {
      RunsSpare(cfg, s, i, run[..|run| - 1]);
      RunsAreSound(cfg, s, run[..|run| - 1]);
      StepSpared(cfg, Run(cfg, s, run[..|run| - 1]).value, i, run[|run| - 1]);
    }
  }

  /** Between requests, an invalidation that is not exposed is spared. */
  lemma {:induction false} UnexposedIsSpared(cfg: Config, s: State, i: nat)
    requires Sound(cfg, s) && s.pc.Idle? && i < |s.past| && !Exposed(cfg, s, i)
    ensures Spared(cfg, s, i)
  {
  }

  /** How many steps the request in progress can still take. */
  function Rank(pc: Pc): nat {
    match pc
    case Begun(_, _, _) => 5
    case Timed(_, _, _, _) => 4
    case Armed(_, _, _, _, _, _) => 3
    case Checked(_, _, _, _) => 2
    case Reading(_, _, _, _, _, _, _) => 1
    case Serving(_, _, _, _, _) => 1
    case _ => 0
  }

  /** The step that brings a request to its end without a new read. */
  function Onward(pc: Pc): Action {
    match pc
    case Begun(_, _, _) => LookAtClock
    case Timed(_, _, _, _) => LoadEpoch
    case Armed(_, _, _, _, _, _) => Decide
    case Checked(_, _, _, _) => Settle
    case Reading(_, _, _, _, _, _, _) => ReadFails
    case _ => Finish
  }

  /** Nothing that the stamp is judged by has changed. */
  ghost predicate Still(s: State, t: State) {
    && t.past == s.past && t.window == s.window && t.checkedAt == s.checkedAt && t.now == s.now
    && LastRead(t) == LastRead(s)
  }

  lemma {:induction false} OnwardStays(cfg: Config, s: State)
    requires Sound(cfg, s) && !s.pc.Idle? && !s.pc.Read? && !s.pc.Tested?
    ensures Next(cfg, s, Onward(s.pc)).Some?
    ensures var n := Next(cfg, s, Onward(s.pc)).value;
            Still(s, n) && !n.pc.Read? && !n.pc.Tested? && Rank(n.pc) < Rank(s.pc)
  {
  }

  /** A request that has not read anew can end with the stamp as it was. */
  lemma {:induction false} WindsDown(cfg: Config, s: State) returns (run: seq<Action>, t: State)
    requires Sound(cfg, s) && !s.pc.Read? && !s.pc.Tested?
    ensures Run(cfg, s, run) == Some(t) && t.pc.Idle? && Still(s, t)
    decreases Rank(s.pc)
  {
    if s.pc.Idle? {
      run, t := [], s;
    } else {
      OnwardStays(cfg, s);
      var a := Onward(s.pc);
      var n := Next(cfg, s, a).value;
      StepSound(cfg, s, a);
      var later;
      later, t := WindsDown(cfg, n);
      RunMore(cfg, s, s, [], a);
      assert [] + [a] == [a];
      RunOn(cfg, s, [a], n, later);
      run := [a] + later;
    }
  }

  /** The request that trusts the stamp. */
  const TRUSTS := [Begin(""), LookAtClock, LoadEpoch, Decide]

  lemma {:induction false} TrustingLoses(cfg: Config, s: State, i: nat)
    requires Sound(cfg, s) && s.pc.Idle? && Exposed(cfg, s, i)
    ensures Run(cfg, s, TRUSTS + [Settle]).Some? && Lost(Run(cfg, s, TRUSTS + [Settle]).value, i)
  {
    Run4(cfg, s, Begin(""), LookAtClock, LoadEpoch, Decide);
    RunMore(cfg, s, Run(cfg, s, TRUSTS).value, TRUSTS, Settle);
  }

  /** From every state in which an invalidation is exposed, and the request in progress has not
      read the revision anew, a run leads to a request that loses it. */
  lemma {:induction false} ExposedIsLost(cfg: Config, s: State, i: nat) returns (run: seq<Action>)
    requires Sound(cfg, s) && Exposed(cfg, s, i) && !s.pc.Read? && !s.pc.Tested?
    ensures Run(cfg, s, run).Some? && Lost(Run(cfg, s, run).value, i)
  {
    var first, t := WindsDown(cfg, s);
    RunsAreSound(cfg, s, first);
    TrustingLoses(cfg, t, i);
    RunOn(cfg, s, first, t, TRUSTS + [Settle]);
    run := first + (TRUSTS + [Settle]);
  }

  /** Between requests of any run, a later request can lose an invalidation if and only if it is
      exposed: it fell between the test of the epoch and the stamp, and the stamp is still trusted. */
  lemma {:induction false} LosesExactly(cfg: Config, project: Project, revision: Revision, now: Time, past: seq<Action>, s: State, i: nat)
    requires Run(cfg, Initial(project, revision, now, cfg), past) == Some(s) && s.pc.Idle? && i < |s.past|
    ensures Exposed(cfg, s, i) <==> exists run :: Run(cfg, s, run).Some? && Lost(Run(cfg, s, run).value, i)
  {
    RunsAreSound(cfg, Initial(project, revision, now, cfg), past);
    if Exposed(cfg, s, i) {
      var run := ExposedIsLost(cfg, s, i);
    } else {
      UnexposedIsSpared(cfg, s, i);
      forall run | Run(cfg, s, run).Some?
        ensures !Lost(Run(cfg, s, run).value, i)
      {
        RunsSpare(cfg, s, i, run);
      }
    }
  }

  // ----- runs -----

  lemma {:induction false} RunMore(cfg: Config, s0: State, s: State, run: seq<Action>, a: Action)
    requires Run(cfg, s0, run) == Some(s)
    ensures Run(cfg, s0, run + [a]) == Next(cfg, s, a)
  {
    assert (run + [a])[..|run|] == run;
  }

  lemma {:induction false} RunOn(cfg: Config, s0: State, first: seq<Action>, s: State, later: seq<Action>)
    requires Run(cfg, s0, first) == Some(s)
    ensures Run(cfg, s0, first + later) == Run(cfg, s, later)
  {
    if later == [] {
      assert first + later == first;
    } else {
      RunOn(cfg, s0, first, s, later[..|later| - 1]);
      assert (first + later)[..|first + later| - 1] == first + later[..|later| - 1];
    }
  }

  lemma {:induction false} Run4(cfg: Config, s: State, a: Action, b: Action, c: Action, d: Action)
    requires Next(cfg, s, a).Some?
    requires Next(cfg, Next(cfg, s, a).value, b).Some?
    requires Next(cfg, Next(cfg, Next(cfg, s, a).value, b).value, c).Some?
    ensures Run(cfg, s, [a, b, c, d]) == Next(cfg, Next(cfg, Next(cfg, Next(cfg, s, a).value, b).value, c).value, d)
  {
    assert Run(cfg, s, []) == Some(s);
    RunMore(cfg, s, s, [], a);
    assert [] + [a] == [a];
    RunMore(cfg, s, Next(cfg, s, a).value, [a], b);
    assert [a] + [b] == [a, b];
    RunMore(cfg, s, Next(cfg, Next(cfg, s, a).value, b).value, [a, b], c);
    assert [a, b] + [c] == [a, b, c];
    RunMore(cfg, s, Next(cfg, Next(cfg, Next(cfg, s, a).value, b).value, c).value, [a, b, c], d);
    assert [a, b, c] + [d] == [a, b, c, d];
  }

  const SPLIT := Config(10, false)
  const START := Initial("p", "old", 0, SPLIT)

  /** A request loads the epoch and begins to read; */
  const READS := [Pass(100), Begin(""), LookAtClock, LoadEpoch]
  /** it has read and tests the epoch; a watcher raises it */
  const TESTS := [Decide, ReadDone("old"), TestEpoch, Raise(0)]
  /** and takes the stamp back; the request sets it all the same. */
  const STAMPS := [TakeBack(0), Stamp, Settle, Finish]
  function AfterReads(): State {
    State(0, Some(0), "old", "p", NO_CACHES, Armed(2, "", "p", 100, 0, 4), 100, 5, 0, map[], [], None)
  }

  function AfterTests(): State {
    State(1, Some(0), "old", "p", NO_CACHES, Tested(2, "p", 100, true, 5, 7, "old"), 100, 9, 0, map[0 := 8], [], None)
  }

  function AfterStamps(): State {
    State(1, Some(100), "old", "p", NO_CACHES, Idle, 100, 13, 5, map[], [Invalidation(8, 9)], Some(Window(5, 7, 10)))
  }

  lemma {:induction false} Part1()
    ensures Run(SPLIT, START, READS) == Some(AfterReads())
  {
    Run4(SPLIT, START, Pass(100), Begin(""), LookAtClock, LoadEpoch);
  }

  lemma {:induction false} Part2()
    ensures Run(SPLIT, AfterReads(), TESTS) == Some(AfterTests())
  {
    Run4(SPLIT, AfterReads(), Decide, ReadDone("old"), TestEpoch, Raise(0));
  }

  lemma {:induction false} Part3()
    ensures Run(SPLIT, AfterTests(), STAMPS) == Some(AfterStamps())
  {
    var s := Next(SPLIT, AfterTests(), TakeBack(0)).value;
    assert s.raised == map[];
    assert s.past == [Invalidation(8, 9)];
    Run4(SPLIT, AfterTests(), TakeBack(0), Stamp, Settle, Finish);
  }

  lemma {:induction false} Parts()
    ensures Run(SPLIT, START, READS + TESTS + STAMPS) == Some(AfterStamps())
  {
    Part1();
    Part2();
    Part3();
    RunOn(SPLIT, START, READS, AfterReads(), TESTS);
    RunOn(SPLIT, START, READS + TESTS, AfterTests(), STAMPS);
  }

  /** With the test and the stamp in two steps an invalidation can be lost: there is a run in
      which one falls between them, and so a request that answers from a read that began before
      the epoch was raised. */
  lemma {:induction false} TwoStepsLoseOne()
    ensures Run(SPLIT, START, READS + TESTS + STAMPS) == Some(AfterStamps()) && Exposed(SPLIT, AfterStamps(), 0)
    ensures exists run :: Run(SPLIT, START, run).Some? && Lost(Run(SPLIT, START, run).value, 0)
  {
    Parts();
    RunsAreSound(SPLIT, START, READS + TESTS + STAMPS);
    var later := ExposedIsLost(SPLIT, AfterStamps(), 0);
    RunOn(SPLIT, START, READS + TESTS + STAMPS, AfterStamps(), later);
  }
}
