/** What each entry of the kernel does, told by the fields before and after it alone: a reference for the
    functions of the scheduler, in which every field an entry does not name keeps its value. */
module SchedulerEffects {
  import opened Mutexes
  import opened Scheduling
  import opened SchedulerRuns
  import opened Sequences
  import opened WaitOrder

  /** Lists other than `k` and `l` are the same. */
  predicate Elsewhere(a: seq<seq<nat>>, b: seq<seq<nat>>, k: nat, l: nat) {
    |b| == |a| && k < |a| && l < |a| && forall j :: 0 <= j < |a| && j != k && j != l ==> b[j] == a[j]
  }

  /** `p` has joined list `l` at its end. */
  predicate Joins(a: seq<seq<nat>>, b: seq<seq<nat>>, l: nat, p: nat) {
    Elsewhere(a, b, l, l) && b[l] == a[l] + [p]
  }

  /** `p`, which was the first of list `l`, has left it. */
  predicate Leaves(a: seq<seq<nat>>, b: seq<seq<nat>>, l: nat, p: nat) {
    Elsewhere(a, b, l, l) && a[l] == [p] + b[l]
  }

  /** Thread `p` has status `st`. It is on its run queue exactly when it can run, and enters it at the end. */
  predicate Gets(s: Sys, t: Sys, p: nat, st: nat)
    requires Shape(s) && p < PIDS
  {
    && t == s.(status := s.status[p := st], home := t.home, lists := t.lists)
    && if st >= RUNNING > s.status[p] then Joins(s.lists, t.lists, s.prio[p], p)
       else if st < RUNNING <= s.status[p] then Leaves(s.lists, t.lists, s.prio[p], p)
       else t.lists == s.lists
  }

  /** For every thread and every status: one that becomes runnable joins its run queue, and when one stops being
      runnable the first thread of that queue leaves, whichever it is. */
  lemma SetStatusMoves(s: Sys, p: nat, st: nat)
    requires QueuesOk(s) && 0 < p < PIDS && st < STATUS_NUMOF
    ensures var t, q := SetStatus(s, p, st), s.prio[p];
            && t == s.(status := s.status[p := st], home := t.home, lists := t.lists)
            && if st >= RUNNING > s.status[p] then Joins(s.lists, t.lists, q, p)
               else if st < RUNNING <= s.status[p] then s.lists[q] != [] && Leaves(s.lists, t.lists, q, s.lists[q][0])
               else t.lists == s.lists
  {
    assert Fits(s.status[p], s.prio[p], s.home[p]);
  }

  lemma SetStatusGets(s: Sys, p: nat, st: nat)
    requires QueuesOk(s) && 0 < p < PIDS && st < STATUS_NUMOF && MayChange(s, p, st)
    ensures Gets(s, SetStatus(s, p, st), p, st)
  {
    SetStatusMoves(s, p, st);
  }

  /** A scheduling decision. The first thread of the highest level that can run is running; the one that
      was running before can still run if it could. */
  predicate Decides(s: Sys, t: Sys)
    requires Shape(s)
  {
    && t == s.(status := t.status, lists := t.lists, active := t.active, request := false)
    && 0 < t.active < PIDS && |t.status| == PIDS && |t.lists| == |s.lists| && s.status[t.active] >= RUNNING
    && t.lists[s.prio[t.active]] != [] && t.lists[s.prio[t.active]][0] == t.active
    && (forall p :: 0 <= p < PIDS && s.status[p] >= RUNNING ==> s.prio[t.active] <= s.prio[p])
    && forall p :: 0 <= p < PIDS ==>
         t.status[p] == if t.active == s.active || (p != t.active && p != s.active) then s.status[p]
                        else if p == t.active then RUNNING
                        else if p != 0 && s.status[p] == RUNNING then PENDING
                        else s.status[p]
  }

  lemma RunNextDecides(s: Sys)
    requires QueuesOk(s) && Runnable(s)
    ensures 0 < Next(s) < PIDS && Decides(s, RunNext(s)) && RunNext(s).lists == s.lists
  {
    RunNextSound(s);
    NextThread(s);
  }

  /** A running thread has gone to the end of its run queue; one that cannot run has not moved. */
  predicate Turns(s: Sys, lists: seq<seq<nat>>)
    requires Shape(s)
  {
    if Calling(s) then
      var q := s.prio[s.active];
      Elsewhere(s.lists, lists, q, q) && s.lists[q] != [] && lists[q] == s.lists[q][1..] + [s.lists[q][0]]
    else lists == s.lists
  }

  /** thread_yield_higher */
  predicate Yields(s: Sys, t: Sys)
    requires Shape(s)
  {
    Turns(s, t.lists) && Decides(s, t)
  }

  lemma YieldYields(s: Sys)
    requires QueuesOk(s) && Runnable(s)
    ensures Runnable(Rotate(s)) && 0 < Next(Rotate(s)) < PIDS && Yields(s, Scheduling.Yield(s))
  {
    YieldSound(s);
    RotateQueues(s);
    RunNextDecides(Rotate(s));
    if Calling(s) {
      assert Fits(s.status[s.active], s.prio[s.active], s.home[s.active]);
    }
  }

  /** The lowest unused slot `p` is in use by a thread that can run, the last of its level. */
  predicate Appears(s: Sys, t: Sys, p: nat, prio: nat)
    requires Shape(s)
  {
    && 0 < p < PIDS && !s.used[p] && (forall j :: 0 < j < p ==> s.used[j])
    && t == s.(used := s.used[p := true], prio := s.prio[p := prio], status := s.status[p := PENDING],
               home := t.home, lists := t.lists)
    && Joins(s.lists, t.lists, prio, p)
  }

  /** A thread is created exactly when a slot is unused. */
  lemma CreateAppears(s: Sys, prio: nat)
    requires Sound(s) && prio < LEVELS && prio != PERIODIC_LEVEL
    ensures var (t, r) := Scheduling.Create(s, prio);
            match r
            case Created(p) => Appears(s, t, p, prio)
            case Overflow => t == s && forall j :: 0 < j < PIDS ==> s.used[j]
  {
    var p := FreeSlot(s.used, 1);
    if p < PIDS {
      assert Fits(s.status[p], s.prio[p], s.home[p]) && s.status[p] == STOPPED;
    }
  }

  /** The running thread has given up its slot and left its run queue. */
  predicate Disappears(s: Sys, t: Sys)
    requires Shape(s)
  {
    && t == s.(used := s.used[s.active := false], status := s.status[s.active := STOPPED], active := 0,
               home := t.home, lists := t.lists)
    && Leaves(s.lists, t.lists, s.prio[s.active], s.active)
  }

  lemma ExitedDisappears(s: Sys)
    requires Sound(s) && Calling(s)
    ensures Disappears(s, Exited(s))
  {
    SetStatusGets(s, s.active, STOPPED);
  }

  /** The threads of `expired` that could not run and belong on run queue `q`, in the order in which their
      timers fire. */
  function Woken(s: Sys, expired: seq<nat>, q: nat): (w: seq<nat>)
    requires Shape(s) && forall i :: 0 <= i < |expired| ==> expired[i] < PIDS
    ensures forall p :: p in w <==> p in expired && s.status[p] < RUNNING && s.prio[p] == q
  {
    if expired == [] then []
    else
      var n := |expired| - 1;
      var p, w := expired[n], Woken(s, expired[..n], q);
      InLast(expired);
      if s.status[p] < RUNNING && s.prio[p] == q && p !in expired[..n] then w + [p] else w
  }

  /** The timers of `expired` have fired: a scheduling decision is asked for, these threads are pending and those
      that could not run have joined their run queues in the order of their timers. */
  predicate Fires(s: Sys, expired: seq<nat>, t: Sys)
    requires Shape(s) && forall i :: 0 <= i < |expired| ==> expired[i] < PIDS
  {
    && t == s.(status := t.status, home := t.home, lists := t.lists, request := s.request || expired != [])
    && |t.status| == PIDS && |t.lists| == |s.lists|
    && (forall p :: 0 <= p < PIDS ==> t.status[p] == if p in expired then PENDING else s.status[p])
    && forall l :: 0 <= l < |s.lists| ==> t.lists[l] == if l < LEVELS then s.lists[l] + Woken(s, expired, l) else s.lists[l]
  }

  lemma {:induction false} ExpireJoins(s: Sys, expired: seq<nat>)
    requires Shape(s) && forall i :: 0 <= i < |expired| ==> expired[i] < PIDS
    ensures var t := Expire(s, expired);
            && t == s.(status := t.status, home := t.home, lists := t.lists) && |t.lists| == |s.lists|
            && forall l :: 0 <= l < LEVELS ==> t.lists[l] == s.lists[l] + Woken(s, expired, l)
  {
    if expired != [] {
      var rest := expired[..|expired| - 1];
      ExpireJoins(s, rest);
      ExpireFields(s, rest);
    }
  }

  lemma FiredFires(s: Sys, expired: seq<nat>)
    requires Shape(s) && forall i :: 0 <= i < |expired| ==> expired[i] < PIDS
    ensures Fires(s, expired, Fired(s, expired))
  {
    ExpireJoins(s, expired);
    ExpireFields(s, expired);
  }

  /** The mutex is locked and the running thread holds it. */
  predicate Takes(s: Sys, m: nat, t: Sys)
    requires Knows(s, m)
  {
    t == s.(locked := s.locked[m := true], holders := s.holders[m := {s.active}])
  }

  /** The running thread is blocked: it has left its run queue and is the last to wait for the mutex. */
  predicate Blocks(s: Sys, m: nat, t: Sys)
    requires Knows(s, m)
  {
    var q, l := s.prio[s.active], LEVELS + m;
    && t == s.(status := s.status[s.active := MUTEX_BLOCKED], home := t.home, lists := t.lists)
    && Elsewhere(s.lists, t.lists, q, l) && s.lists[q] == [s.active] + t.lists[q] && t.lists[l] == s.lists[l] + [s.active]
  }

  lemma BlockBlocks(s: Sys, m: nat)
    requires Sound(s) && Calling(s) && Knows(s, m) && s.locked[m]
    ensures Blocks(s, m, Block(s, m))
  {
    assert Fits(s.status[s.active], s.prio[s.active], s.home[s.active]);
  }

  /** Waiter `k` has left the queue, can run and is the only holder of the mutex, which stays locked. */
  predicate Passes(s: Sys, m: nat, k: nat, t: Sys)
    requires Knows(s, m) && InTable(s.prio, Waiting(s, m)) && k < |Waiting(s, m)|
  {
    var a, l := Waiting(s, m), LEVELS + m;
    var w := a[k];
    var q := s.prio[w];
    && t == s.(status := s.status[w := PENDING], holders := s.holders[m := {w}], home := t.home, lists := t.lists)
    && Elsewhere(s.lists, t.lists, q, l) && t.lists[q] == s.lists[q] + [w] && t.lists[l] == a[..k] + a[k + 1..]
  }

  /** The mutex has been unlocked: nothing happens to a free one, one that nobody waits for becomes free, and
      another one passes to the foremost waiter; `prio` is the waiter's level, LEVELS if there is none. */
  ghost predicate Frees(s: Sys, m: nat, t: Sys, prio: nat)
    requires Knows(s, m) && InTable(s.prio, Waiting(s, m))
  {
    if !s.locked[m] then t == s && prio == LEVELS
    else if Waiting(s, m) == [] then
      t == s.(locked := s.locked[m := false], holders := s.holders[m := {}]) && prio == LEVELS
    else
      var a := Waiting(s, m);
      exists k: nat {:trigger Foremost(s.prio, a, k)} :: Foremost(s.prio, a, k) && Passes(s, m, k, t) && prio == s.prio[a[k]]
  }

  /** The level of the thread that is woken by unlocking the mutex. */
  function WokenLevel(s: Sys, m: nat): nat
    requires Knows(s, m) && InTable(s.prio, Waiting(s, m))
  {
    if s.locked[m] && Waiting(s, m) != [] then s.prio[Waiter(s, m)] else LEVELS
  }

  lemma ReleaseFrees(s: Sys, m: nat)
    requires Sound(s) && Calling(s) && Knows(s, m) && Releasable(s, m)
    ensures InTable(s.prio, Waiting(s, m)) && Frees(s, m, Release(s, m), WokenLevel(s, m))
  {
    WaitingInTable(s, m);
    if s.locked[m] && Waiting(s, m) == [] {
      assert Owned(s.locked[m], s.holders[m], s.lists[LEVELS + m]);
      assert s.holders[m] - {s.active} == {};
    } else if s.locked[m] {
      var k := Best(s.prio, Waiting(s, m));
      assert Foremost(s.prio, Waiting(s, m), k);
      HandOverSound(s, m);
      HandOverPasses(s, m, k);
    }
  }

  lemma HandOverPasses(s: Sys, m: nat, k: nat)
    requires Sound(s) && Knows(s, m) && Waiting(s, m) != [] && InTable(s.prio, Waiting(s, m))
    requires k == Best(s.prio, Waiting(s, m))
    requires HandOver(s, m).holders[m] == {Waiter(s, m)}
    ensures Passes(s, m, k, HandOver(s, m))
  {
    WaitingInTable(s, m);
  }

  // ---------------------------------------------------------------- every entry

  /** A slot is filled when there is an unused one. */
  ghost predicate Creates(s: Sys, prio: nat, t: Sys)
    requires Shape(s)
  {
    if forall j :: 0 < j < PIDS ==> s.used[j] then t == s else exists p :: Appears(s, t, p, prio)
  }

  ghost predicate Exits(s: Sys, t: Sys)
    requires Shape(s)
  {
    exists u :: Shape(u) && Disappears(s, u) && Yields(u, t)
  }

  /** A scheduling decision is taken if one is asked for. */
  predicate Settles(u: Sys, t: Sys)
    requires Shape(u)
  {
    if u.request then Decides(u, t) && t.lists == u.lists else t == u
  }

  ghost predicate Interrupts(s: Sys, expired: seq<nat>, t: Sys)
    requires Shape(s) && forall i :: 0 <= i < |expired| ==> expired[i] < PIDS
  {
    exists u :: Shape(u) && Fires(s, expired, u) && Settles(u, t)
  }

  ghost predicate Locks(s: Sys, m: nat, t: Sys)
    requires Knows(s, m)
  {
    if s.locked[m] then exists u :: Shape(u) && Blocks(s, m, u) && Yields(u, t) else Takes(s, m, t)
  }

  /** A switch is asked for when the thread woken is of higher priority. */
  ghost predicate Unlocks(s: Sys, m: nat, t: Sys)
    requires Knows(s, m) && InTable(s.prio, Waiting(s, m))
  {
    exists u, prio :: Frees(s, m, u, prio) && t == u.(request := s.request || prio < s.prio[s.active])
  }

  ghost predicate Naps(s: Sys, m: nat, u: Sys, prio: nat, v: Sys)
    requires Knows(s, m) && InTable(s.prio, Waiting(s, m))
  {
    Shape(u) && Shape(v) && Frees(s, m, u, prio) && Gets(u, v, s.active, SLEEPING)
  }

  /** The mutex has been unlocked, the running thread sleeps and another one runs. */
  ghost predicate GivesUp(s: Sys, m: nat, t: Sys)
    requires Knows(s, m) && InTable(s.prio, Waiting(s, m))
  {
    exists u, prio, v :: Naps(s, m, u, prio, v) && Yields(v, t)
  }

  /** What an entry of the kernel does. */
  ghost predicate Does(s: Sys, op: Op, t: Sys)
    requires Shape(s) && Legal(s, op)
  {
    match op
    case Create(prio) => Creates(s, prio, t)
    case Exit => Exits(s, t)
    case Yield => Yields(s, t)
    case Sleep => Gets(s, t, s.active, SLEEPING)
    case Wakeup(pid) => if 1 <= pid < PIDS && s.status[pid] == SLEEPING then Gets(s, t, pid, RUNNING) else t == s
    case Interrupt(expired) => Interrupts(s, expired, t)
    case Lock(m) => Locks(s, m, t)
    case TryLock(m) => if s.locked[m] then t == s else Takes(s, m, t)
    case Unlock(m) => InTable(s.prio, Waiting(s, m)) && Unlocks(s, m, t)
    case UnlockAndSleep(m) => GivesUp(s, m, t)
  }

  lemma EndedDoes(s: Sys)
    requires Sound(s) && Legal(s, Exit)
    ensures Exits(s, Ended(s))
  {
    ExitedQueues(s);
    ExitedDisappears(s);
    YieldYields(Exited(s));
  }

  lemma InterruptedDoes(s: Sys, expired: seq<nat>)
    requires Sound(s) && Legal(s, Interrupt(expired))
    ensures Interrupts(s, expired, Interrupted(s, expired))
  {
    InterruptQueues(s, expired);
    FiredFires(s, expired);
    if Fired(s, expired).request {
      RunNextDecides(Fired(s, expired));
    }
  }

  lemma LockTakenDoes(s: Sys, m: nat)
    requires Sound(s) && Legal(s, Lock(m))
    ensures Locks(s, m, LockTaken(s, m))
  {
    if s.locked[m] {
      BlockQueues(s, m);
      BlockBlocks(s, m);
      YieldYields(Block(s, m));
    } else {
      AcquireSound(s, m);
    }
  }

  lemma UnlockDoes(s: Sys, m: nat)
    requires Sound(s) && Legal(s, Op.Unlock(m))
    ensures InTable(s.prio, Waiting(s, m)) && Unlocks(s, m, Mutexes.Unlock(s, m))
  {
    ReleaseFrees(s, m);
    assert Frees(s, m, Release(s, m), WokenLevel(s, m));
    ReleaseSound(s, m);
  }

  lemma GivenUpDoes(s: Sys, m: nat)
    requires Sound(s) && Legal(s, UnlockAndSleep(m))
    ensures GivesUp(s, m, GivenUp(s, m))
  {
    ReleaseFrees(s, m);
    ReleaseSound(s, m);
    SetStatusGets(Release(s, m), s.active, SLEEPING);
    assert Naps(s, m, Release(s, m), WokenLevel(s, m), UnlockToSleep(s, m));
    UnlockToSleepQueues(s, m);
    YieldYields(UnlockToSleep(s, m));
  }

  /** Every entry does what the reference says. */
  lemma StepDoes(s: Sys, op: Op)
    requires Sound(s) && Legal(s, op)
    ensures Does(s, op, Step(s, op))
  {
    match op
    case Create(prio) => CreateAppears(s, prio);
    case Exit => EndedDoes(s);
    case Yield => YieldYields(s);
    case Sleep => SetStatusGets(s, s.active, SLEEPING);
    case Wakeup(pid) => WakeupGets(s, pid);
    case Interrupt(expired) => InterruptedDoes(s, expired);
    case Lock(m) => LockTakenDoes(s, m);
    case TryLock(m) => if !s.locked[m] { AcquireSound(s, m); }
    case Unlock(m) => UnlockDoes(s, m);
    case UnlockAndSleep(m) => GivenUpDoes(s, m);
  }

  /** A sleeping thread that is woken can run and is the last of its run queue; any other is left alone. */
  lemma WakeupGets(s: Sys, pid: int)
    requires Sound(s)
    ensures if 1 <= pid < PIDS && s.status[pid] == SLEEPING then Gets(s, Scheduling.Wakeup(s, pid), pid, RUNNING)
            else Scheduling.Wakeup(s, pid) == s
  {
  }
}
