/** The per-root start locks of one process: a map of counted locks behind a guard, used by
    any number of threads. Every step below is one access to shared state. */
module StartLock {
  import opened Wrappers

  type Thread = nat
  type Root = string
  type Lock = nat

  datatype Entry = Entry(lk: Lock, users: int)

  /** Where a thread is. */
  datatype Pc =
    | Idle
    | Entering(root: Root)
    | Reading(root: Root)
    | Writing(root: Root, lk: Lock, users: int)
    | Entered(root: Root, lk: Lock)
    | Waiting(root: Root, lk: Lock)
    | Critical(root: Root, lk: Lock)
    | Exiting(root: Root)
    | Rereading(root: Root)
    | Rewriting(root: Root, lk: Lock, users: int)
    | Leaving
    | Failed

  /** The guard's holder, the shared map, the holders of the lock objects, the next lock object. */
  datatype State = State(guard: Option<Thread>, locks: map<Root, Entry>, owner: map<Lock, Thread>, unused: Lock, pcs: map<Thread, Pc>)

  function At(s: State, t: Thread): Pc {
    if t in s.pcs then s.pcs[t] else Idle
  }

  function Go(s: State, t: Thread, pc: Pc): State {
    s.(pcs := s.pcs[t := pc])
  }

  predicate HoldsGuard(pc: Pc) {
    pc.Reading? || pc.Writing? || pc.Entered? || pc.Rereading? || pc.Rewriting? || pc.Leaving?
  }

  /** Between the write that counts the thread and the write that counts it out. */
  predicate Registered(pc: Pc, root: Root) {
    (pc.Entered? || pc.Waiting? || pc.Critical? || pc.Exiting? || pc.Rereading? || pc.Rewriting?) && pc.root == root
  }

  function Users(s: State, root: Root): set<Thread> {
    set t | t in s.pcs && Registered(s.pcs[t], root)
  }

  // ----- steps -----

  /** What thread `t` may do next. A start of the protocol chooses a root; a wait may be
      broken off by an exception. */
  ghost predicate Step(s: State, t: Thread, n: State) {
    var pc := At(s, t);
    match pc
    case Idle => exists root :: n == Go(s, t, Entering(root))
    case Entering(root) => s.guard.None? && n == Go(s.(guard := Some(t)), t, Reading(root))
    case Reading(root) =>
      var entry := if root in s.locks then s.locks[root] else Entry(s.unused, 0);
      n == Go(s.(unused := s.unused + 1), t, Writing(root, entry.lk, entry.users))
    case Writing(root, lk, users) => n == Go(s.(locks := s.locks[root := Entry(lk, users + 1)]), t, Entered(root, lk))
    case Entered(root, lk) => n == Go(s.(guard := None), t, Waiting(root, lk))
    case Waiting(root, lk) =>
      || (lk !in s.owner && n == Go(s.(owner := s.owner[lk := t]), t, Critical(root, lk)))
      || n == Go(s, t, Exiting(root))
    case Critical(root, lk) => n == Go(s.(owner := s.owner - {lk}), t, Exiting(root))
    case Exiting(root) => s.guard.None? && n == Go(s.(guard := Some(t)), t, Rereading(root))
    case Rereading(root) =>
      if root in s.locks then n == Go(s, t, Rewriting(root, s.locks[root].lk, s.locks[root].users)) else n == Go(s, t, Failed)
    case Rewriting(root, lk, users) =>
      if users == 1 then n == Go(s.(locks := s.locks - {root}), t, Leaving)
      else n == Go(s.(locks := s.locks[root := Entry(lk, users - 1)]), t, Leaving)
    case Leaving => n == Go(s.(guard := None), t, Idle)
    case Failed => false
  }

  const INITIAL := State(None, map[], map[], 0, map[])

  /** A run from the initial state: in every step some thread moves. */
  ghost predicate IsRun(run: seq<State>) {
    && run != [] && run[0] == INITIAL
    && forall i, j :: 0 <= i && j == i + 1 < |run| ==> Moves(run[i], run[j])
  }

  ghost predicate Moves(s: State, n: State) {
    exists t :: Step(s, t, n)
  }

  // ----- the invariant -----

  ghost predicate Guarded(s: State) {
    forall t: Thread :: HoldsGuard(At(s, t)) <==> s.guard == Some(t)
  }

  /** An entry exists exactly while threads use the root, and counts them. */
  ghost predicate Counted(s: State) {
    forall root :: CountedAt(s, root)
  }

  ghost predicate CountedAt(s: State, root: Root) {
    if root in s.locks then s.locks[root].users == |Users(s, root)| > 0 else Users(s, root) == {}
  }

  /** All who queue for a root or hold it use the lock of its entry. */
  ghost predicate Shared(s: State) {
    forall t: Thread :: SharedBy(s, At(s, t))
  }

  ghost predicate SharedBy(s: State, pc: Pc) {
    pc.Entered? || pc.Waiting? || pc.Critical? ==> pc.root in s.locks && s.locks[pc.root].lk == pc.lk
  }

  /** What was read under the guard is still what the map says. */
  ghost predicate Current(s: State) {
    forall t: Thread :: var pc := At(s, t);
      && (pc.Writing? ==>
            if pc.root in s.locks then s.locks[pc.root] == Entry(pc.lk, pc.users)
            else pc.users == 0 && pc.lk < s.unused && pc.lk !in s.owner && forall r :: r in s.locks ==> s.locks[r].lk != pc.lk)
      && (pc.Rewriting? ==> pc.root in s.locks && s.locks[pc.root] == Entry(pc.lk, pc.users))
  }

  /** No two roots share a lock object. */
  ghost predicate Separate(s: State) {
    && (forall r :: r in s.locks ==> s.locks[r].lk < s.unused)
    && (forall r, q :: r in s.locks && q in s.locks && s.locks[r].lk == s.locks[q].lk ==> r == q)
  }

  /** A lock object is held exactly by the thread that is critical with it. */
  ghost predicate Owned(s: State) {
    && (forall l :: l in s.owner ==> At(s, s.owner[l]).Critical? && At(s, s.owner[l]).lk == l)
    && (forall t: Thread :: OwnedBy(s, t))
  }

  ghost predicate OwnedBy(s: State, t: Thread) {
    At(s, t).Critical? ==> At(s, t).lk in s.owner && s.owner[At(s, t).lk] == t
  }

  ghost predicate Sound(s: State) {
    Guarded(s) && Counted(s) && Shared(s) && Current(s) && Separate(s) && Owned(s) && forall t: Thread :: !At(s, t).Failed?
  }

  lemma {:induction false} UsersAfter(s: State, n: State, t: Thread, root: Root)
    requires n.pcs == s.pcs[t := At(n, t)]
    ensures Users(n, root) == if Registered(At(n, t), root) then Users(s, root) + {t} else Users(s, root) - {t}
    ensures t in Users(s, root) <==> Registered(At(s, t), root)
  {
  }

  lemma {:induction false} Others(s: State, t: Thread, n: State)
    requires Step(s, t, n)
    ensures n.pcs == s.pcs[t := At(n, t)]
    ensures forall u: Thread :: u != t ==> At(n, u) == At(s, u)
  {
  }

  /** The guard passes from hand to hand. */
  lemma {:induction false} StepGuard(s: State, t: Thread, n: State)
    requires Step(s, t, n)
    ensures HoldsGuard(At(n, t)) ==> n.guard == Some(t) || (HoldsGuard(At(s, t)) && n.guard == s.guard)
    ensures !HoldsGuard(At(n, t)) && HoldsGuard(At(s, t)) ==> n.guard == None || At(n, t).Failed?
    ensures !HoldsGuard(At(n, t)) && !HoldsGuard(At(s, t)) ==> n.guard == s.guard
    ensures HoldsGuard(At(n, t)) && !HoldsGuard(At(s, t)) ==> s.guard == None
  {
  }

  lemma {:induction false} StepGuarded(s: State, t: Thread, n: State)
    requires Sound(s) && Step(s, t, n) && !At(n, t).Failed?
    ensures Guarded(n)
  {
    Others(s, t, n);
    StepGuard(s, t, n);
    forall u: Thread
      ensures HoldsGuard(At(n, u)) <==> n.guard == Some(u)
    {
      assert HoldsGuard(At(s, u)) <==> s.guard == Some(u);
      assert HoldsGuard(At(s, t)) <==> s.guard == Some(t);
    }
  }

  /** What a step does to the entry of a root, as far as the count is concerned. */
  ghost function UsersOf(s: State, root: Root): int {
    if root in s.locks then s.locks[root].users else 0
  }

  lemma {:induction false} StepUsers(s: State, t: Thread, n: State, root: Root)
    requires Current(s) && Step(s, t, n)
    ensures !Registered(At(s, t), root) && Registered(At(n, t), root) ==> root in n.locks && UsersOf(n, root) == UsersOf(s, root) + 1
    ensures Registered(At(s, t), root) && !Registered(At(n, t), root) && !At(n, t).Failed? ==>
              UsersOf(n, root) == UsersOf(s, root) - 1 && (root in n.locks <==> UsersOf(s, root) != 1)
    ensures Registered(At(s, t), root) == Registered(At(n, t), root) ==> UsersOf(n, root) == UsersOf(s, root) && (root in n.locks <==> root in s.locks)
  {
  }

  lemma {:induction false} StepCounted(s: State, t: Thread, n: State)
    requires Sound(s) && Step(s, t, n) && !At(n, t).Failed?
    ensures Counted(n)
  {
    Others(s, t, n);
    forall root
      ensures CountedAt(n, root)
    {
      UsersAfter(s, n, t, root);
      assert CountedAt(s, root);
      StepUsers(s, t, n, root);
      OneOut(Users(s, root), t);
    }
  }

  lemma {:induction false} OneOut(a: set<Thread>, t: Thread)
    ensures t in a ==> |a - {t}| == |a| - 1 && |a + {t}| == |a| && (|a| == 1 <==> a - {t} == {}) && a + {t} == a
    ensures t !in a ==> |a + {t}| == |a| + 1 && a - {t} == a
  {
    if t in a {
      assert a + {t} == a;
      assert |a - {t}| == |a| - 1;
    }
  }

  lemma {:induction false} StepShared(s: State, t: Thread, n: State)
    requires Sound(s) && Step(s, t, n)
    ensures Shared(n)
  {
    Others(s, t, n);
    forall u: Thread
      ensures SharedBy(n, At(n, u))
    {
      assert SharedBy(s, At(s, u));
      if u != t {
        OtherShared(s, t, n, At(s, u), u);
      }
    }
  }

  lemma {:induction false} OtherShared(s: State, t: Thread, n: State, pc: Pc, u: Thread)
    requires Sound(s) && Step(s, t, n) && u != t && pc == At(s, u) && SharedBy(s, pc)
    ensures SharedBy(n, pc)
  {
    if (pc.Entered? || pc.Waiting? || pc.Critical?) && At(s, t).Rewriting? && At(s, t).root == pc.root {
      assert t in Users(s, pc.root) && u in Users(s, pc.root);
      TwoUsers(Users(s, pc.root), t, u);
      assert CountedAt(s, pc.root);
    }
  }

  lemma {:induction false} TwoUsers(a: set<Thread>, t: Thread, u: Thread)
    requires t in a && u in a && t != u
    ensures |a| > 1
  {
    OneOut(a, t);
    OneOut(a - {t}, u);
  }

  lemma {:induction false} StepCurrent(s: State, t: Thread, n: State)
    requires Sound(s) && Step(s, t, n)
    ensures Current(n)
  {
    Others(s, t, n);
    assert forall u: Thread :: u != t && HoldsGuard(At(s, u)) ==> !HoldsGuard(At(s, t));
  }

  lemma {:induction false} StepSeparate(s: State, t: Thread, n: State)
    requires Sound(s) && Step(s, t, n)
    ensures Separate(n)
  {
  }

  lemma {:induction false} StepOwned(s: State, t: Thread, n: State)
    requires Sound(s) && Step(s, t, n)
    ensures Owned(n)
  {
    Others(s, t, n);
    forall u: Thread
      ensures OwnedBy(n, u)
    {
      assert OwnedBy(s, u) && OwnedBy(s, t);
    }
    forall l | l in n.owner
      ensures At(n, n.owner[l]).Critical? && At(n, n.owner[l]).lk == l
    {
      assert l in s.owner ==> At(s, s.owner[l]).Critical? && At(s, s.owner[l]).lk == l;
      assert OwnedBy(s, t);
    }
  }

  lemma {:induction false} StepSound(s: State, t: Thread, n: State)
    requires Sound(s) && Step(s, t, n)
    ensures Sound(n)
  {
    NeverFails(s, t, n);
    StepGuarded(s, t, n);
    StepCounted(s, t, n);
    StepShared(s, t, n);
    StepCurrent(s, t, n);
    StepSeparate(s, t, n);
    StepOwned(s, t, n);
  }

  /** A thread that counts itself out finds its entry. */
  lemma {:induction false} NeverFails(s: State, t: Thread, n: State)
    requires Sound(s) && Step(s, t, n)
    ensures forall u: Thread :: !At(n, u).Failed?
  {
    Others(s, t, n);
    if At(s, t).Rereading? {
      HasEntry(s, t);
    }
  }

  lemma {:induction false} HasEntry(s: State, t: Thread)
    requires Sound(s) && (At(s, t).Rereading? || At(s, t).Exiting?)
    ensures At(s, t).root in s.locks
  {
    assert t in Users(s, At(s, t).root);
    assert CountedAt(s, At(s, t).root);
  }

  lemma {:induction false} RunsAreSound(run: seq<State>, i: nat)
    requires IsRun(run) && i < |run|
    ensures Sound(run[i])
  {
    if i == 0 {
      assert forall root :: Users(INITIAL, root) == {};
    } else {
      RunsAreSound(run, i - 1);
      assert Moves(run[i - 1], run[i]);
      var t :| Step(run[i - 1], t, run[i]);
      StepSound(run[i - 1], t, run[i]);
    }
  }

  // ----- what the invariant means -----

  /** In every reachable state at most one thread per root is in the critical section, all
      threads queued on a root share one lock object, no two roots share one, an entry exists
      exactly while its root has users and counts them, and no thread fails to find its entry. */
  lemma {:induction false} OneAtATime(run: seq<State>, i: nat)
    requires IsRun(run) && i < |run|
    ensures var s := run[i];
      && (forall t: Thread, u: Thread :: At(s, t).Critical? && At(s, u).Critical? && At(s, t).root == At(s, u).root ==> t == u)
      && (forall t: Thread, u: Thread :: At(s, t).Waiting? && (At(s, u).Waiting? || At(s, u).Critical?)
            ==> (At(s, t).root == At(s, u).root <==> At(s, t).lk == At(s, u).lk))
      && (forall root :: root in s.locks <==> Users(s, root) != {})
      && (forall root :: root in s.locks ==> s.locks[root].users == |Users(s, root)|)
      && (forall t: Thread :: !At(s, t).Failed?)
  {
    RunsAreSound(run, i);
    var s := run[i];
    forall root
      ensures root in s.locks <==> Users(s, root) != {}
      ensures root in s.locks ==> s.locks[root].users == |Users(s, root)|
    {
      assert CountedAt(s, root);
    }
    forall t: Thread, u: Thread | At(s, t).Critical? && At(s, u).Critical? && At(s, t).root == At(s, u).root
      ensures t == u
    {
      assert SharedBy(s, At(s, t)) && SharedBy(s, At(s, u)) && OwnedBy(s, t) && OwnedBy(s, u);
    }
    forall t: Thread, u: Thread | At(s, t).Waiting? && (At(s, u).Waiting? || At(s, u).Critical?)
      ensures At(s, t).root == At(s, u).root <==> At(s, t).lk == At(s, u).lk
    {
      assert SharedBy(s, At(s, t)) && SharedBy(s, At(s, u));
    }
  }

  /** No reachable state is stuck: while a thread is busy, some busy thread can go on. */
  lemma {:induction false} NeverStuck(run: seq<State>, i: nat, t: Thread)
    requires IsRun(run) && i < |run| && !At(run[i], t).Idle?
    ensures exists u: Thread, n :: !At(run[i], u).Idle? && At(n, u) != At(run[i], u) && Step(run[i], u, n)
  {
    RunsAreSound(run, i);
    var s := run[i];
    var u := if (At(s, t).Entering? || At(s, t).Exiting?) && s.guard.Some? then s.guard.value
             else if At(s, t).Waiting? && At(s, t).lk in s.owner then s.owner[At(s, t).lk] else t;
    var n := After(s, u);
    assert s.guard.Some? ==> HoldsGuard(At(s, s.guard.value));
    if At(s, u).Rereading? {
      HasEntry(s, u);
    }
    assert At(s, u) != Idle && At(s, u) != Failed;
    assert Step(s, u, n) && At(n, u) != At(s, u);
  }

  /** The step of a busy thread that can move, without exceptions. */
  ghost function After(s: State, t: Thread): State {
    var pc := At(s, t);
    match pc
    case Idle => s
    case Entering(root) => Go(s.(guard := Some(t)), t, Reading(root))
    case Reading(root) =>
      var entry := if root in s.locks then s.locks[root] else Entry(s.unused, 0);
      Go(s.(unused := s.unused + 1), t, Writing(root, entry.lk, entry.users))
    case Writing(root, lk, users) => Go(s.(locks := s.locks[root := Entry(lk, users + 1)]), t, Entered(root, lk))
    case Entered(root, lk) => Go(s.(guard := None), t, Waiting(root, lk))
    case Waiting(root, lk) => Go(s.(owner := s.owner[lk := t]), t, Critical(root, lk))
    case Critical(root, lk) => Go(s.(owner := s.owner - {lk}), t, Exiting(root))
    case Exiting(root) => Go(s.(guard := Some(t)), t, Rereading(root))
    case Rereading(root) => if root in s.locks then Go(s, t, Rewriting(root, s.locks[root].lk, s.locks[root].users)) else Go(s, t, Failed)
    case Rewriting(root, lk, users) =>
      if users == 1 then Go(s.(locks := s.locks - {root}), t, Leaving)
      else Go(s.(locks := s.locks[root := Entry(lk, users - 1)]), t, Leaving)
    case Leaving => Go(s.(guard := None), t, Idle)
    case Failed => s
  }
}
