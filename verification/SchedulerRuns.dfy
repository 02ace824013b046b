/** Runs of the kernel: every entry the threads and interrupts can make, in any order. */
module SchedulerRuns {
  import opened Mutexes
  import opened Scheduling
  import opened Sequences
  import opened WaitOrder

  /** The entries of the kernel. `Sleep` is the first half of thread_sleep, `Interrupt` a timer interrupt. */
  datatype Op = Create(prio: nat) | Exit | Yield | Sleep | Wakeup(pid: int) | Interrupt(expired: seq<nat>)
              | Lock(m: nat) | TryLock(m: nat) | Unlock(m: nat) | UnlockAndSleep(m: nat)

  /** The thread that calls the kernel is running. */
  predicate Calling(s: Sys)
    requires Shape(s)
  {
    s.active != 0 && s.status[s.active] >= RUNNING
  }

  /** What the kernel relies on: only a running thread calls it (except to create threads at boot and to
      yield), mutexes are unlocked only when they may be, and some thread, such as the idle one, stays runnable. */
  predicate Legal(s: Sys, op: Op)
    requires Shape(s)
  {
    match op
    case Create(prio) => prio < LEVELS && prio != PERIODIC_LEVEL && (s.active == 0 || Calling(s))
    case Exit => Calling(s) && Runnable(Exited(s))
    case Yield => Runnable(s)
    case Sleep => Calling(s)
    case Wakeup(_) => s.active == 0 || Calling(s)
    case Interrupt(expired) =>
      (forall i :: 0 <= i < |expired| ==> MayExpire(s, expired[i])) && (Runnable(s) || expired != [] || !s.request)
    case Lock(m) => Calling(s) && m < |s.locked| && (s.locked[m] ==> Runnable(Block(s, m)))
    case TryLock(m) => Calling(s) && m < |s.locked|
    case Unlock(m) => Calling(s) && m < |s.locked| && Releasable(s, m)
    case UnlockAndSleep(m) =>
      && Calling(s) && m < |s.locked| && Releasable(s, m)
      && InTable(s.prio, Waiting(s, m)) && Runnable(UnlockToSleep(s, m))
  }

  lemma SleepQueues(s: Sys)
    requires Sound(s) && Calling(s)
    ensures QueuesOk(SetStatus(s, s.active, SLEEPING))
  {
    SetStatusKeeps(s, s.active, SLEEPING);
  }

  lemma UnlockToSleepQueues(s: Sys, m: nat)
    requires Sound(s) && Legal(s, UnlockAndSleep(m))
    ensures QueuesOk(UnlockToSleep(s, m))
  {
    ReleaseSound(s, m);
    SleepQueues(Release(s, m));
  }

  lemma InterruptQueues(s: Sys, expired: seq<nat>)
    requires Sound(s) && Legal(s, Interrupt(expired))
    ensures forall i :: 0 <= i < |expired| ==> expired[i] < PIDS
    ensures QueuesOk(Fired(s, expired)) && (Fired(s, expired).request ==> Runnable(Fired(s, expired)))
    ensures !Fired(s, expired).request ==> Fired(s, expired) == s
  {
    ExpireQueues(s, expired);
    if expired != [] {
      RunnableThread(Expire(s, expired), expired[0]);
    }
  }

  /** The thread chosen by an interrupt that asks for a scheduling decision. */
  ghost function Interrupted(s: Sys, expired: seq<nat>): (t: Sys)
    requires Sound(s) && Legal(s, Interrupt(expired))
    ensures Sound(t)
  {
    InterruptQueues(s, expired);
    var f := Fired(s, expired);
    if f.request then RunNextSound(f); RunNext(f) else f
  }

  ghost function Ended(s: Sys): (t: Sys)
    requires Sound(s) && Legal(s, Exit)
    ensures Sound(t)
  {
    ExitedQueues(s);
    YieldSound(Exited(s));
    Scheduling.Yield(Exited(s))
  }

  ghost function LockTaken(s: Sys, m: nat): (t: Sys)
    requires Sound(s) && Legal(s, Lock(m))
    ensures Sound(t)
  {
    if !s.locked[m] then AcquireSound(s, m); Acquire(s, m)
    else BlockQueues(s, m); YieldSound(Block(s, m)); Scheduling.Yield(Block(s, m))
  }

  ghost function GivenUp(s: Sys, m: nat): (t: Sys)
    requires Sound(s) && Legal(s, UnlockAndSleep(m))
    ensures Sound(t)
  {
    UnlockToSleepQueues(s, m);
    YieldSound(UnlockToSleep(s, m));
    Scheduling.Yield(UnlockToSleep(s, m))
  }

  /** One entry of the kernel. */
  ghost function Step(s: Sys, op: Op): (t: Sys)
    requires Sound(s) && Legal(s, op)
    ensures Sound(t)
  {
    match op
    case Create(prio) => CreateSound(s, prio); Scheduling.Create(s, prio).0
    case Exit => Ended(s)
    case Yield => YieldSound(s); Scheduling.Yield(s)
    case Sleep => SetStatusSound(s, s.active, SLEEPING); SetStatus(s, s.active, SLEEPING)
    case Wakeup(pid) => WakeupSound(s, pid); Scheduling.Wakeup(s, pid)
    case Interrupt(expired) => Interrupted(s, expired)
    case Lock(m) => LockTaken(s, m)
    case TryLock(m) => if s.locked[m] then s else AcquireSound(s, m); Acquire(s, m)
    case Unlock(m) => UnlockSound(s, m); Mutexes.Unlock(s, m)
    case UnlockAndSleep(m) => GivenUp(s, m)
  }

  /** mutex_unlock, by any thread. */
  lemma UnlockKeeps(s: Sys, m: nat)
    requires Sound(s) && Calling(s) && m < |s.locked|
    ensures InTable(s.prio, Waiting(s, m)) && (Sound(Mutexes.Unlock(s, m)) <==> Releasable(s, m))
  {
    ReleaseKeeps(s, m);
    if s.locked[m] && Waiting(s, m) != [] {
      RequestKeeps(Release(s, m), s.prio[Waiter(s, m)]);
    }
  }

  lemma RequestKeeps(s: Sys, prio: nat)
    requires Shape(s)
    ensures Sound(Request(s, prio)) <==> Sound(s)
  {
    var t := Request(s, prio);
    assert t.lists == s.lists && t.home == s.home && t.locked == s.locked && t.holders == s.holders;
    if Sound(s) {
      assert QueuesOk(t) && ActiveFirst(t);
    }
    if Sound(t) {
      assert QueuesOk(s) && ActiveFirst(s);
    }
  }

  lemma UnlockSound(s: Sys, m: nat)
    requires Sound(s) && Legal(s, Op.Unlock(m))
    ensures InTable(s.prio, Waiting(s, m)) && Sound(Mutexes.Unlock(s, m))
  {
    ReleaseSound(s, m);
  }

  lemma WakeupSound(s: Sys, pid: int)
    requires Sound(s) && (s.active == 0 || Calling(s))
    ensures Sound(Scheduling.Wakeup(s, pid))
  {
    if 1 <= pid < PIDS && s.status[pid] == SLEEPING {
      SetStatusSound(s, pid, RUNNING);
    }
  }

  ghost predicate LegalRun(s: Sys, ops: seq<Op>)
    requires Sound(s)
    decreases |ops|
  {
    ops == [] || (Legal(s, ops[0]) && LegalRun(Step(s, ops[0]), ops[1..]))
  }

  ghost function Run(s: Sys, ops: seq<Op>): Sys
    requires Sound(s) && LegalRun(s, ops)
    decreases |ops|
  {
    if ops == [] then s else Run(Step(s, ops[0]), ops[1..])
  }

  /** The state at boot, with `mutexes` mutexes. */
  function Boot(mutexes: nat): Sys {
    Sys(seq(PIDS, i => false), seq(PIDS, i => STOPPED), seq(PIDS, i => 0), seq(PIDS, i => -1),
        seq(LEVELS + mutexes, i => []), seq(mutexes, i => false), seq(mutexes, i => {}), 0, false)
  }

  lemma BootSound(mutexes: nat)
    ensures var s := Boot(mutexes);
            && Sound(s) && |s.locked| == mutexes && s.active == 0 && !s.request
            && (forall p :: 0 <= p < PIDS ==> !s.used[p]) && (forall m :: 0 <= m < mutexes ==> !s.locked[m])
            && forall l :: 0 <= l < |s.lists| ==> s.lists[l] == []
  {
  }

  /** What every reachable state of the kernel promises, spelled out. */
  lemma {:induction false} RunSafe(s: Sys, ops: seq<Op>)
    requires Sound(s) && LegalRun(s, ops)
    ensures var t := Run(s, ops);
            && Sound(t)
            && (forall m :: 0 <= m < |t.locked| ==> |t.holders[m]| <= 1 && (t.locked[m] <==> t.holders[m] != {}))
            && (forall p, l, i :: 0 <= p < PIDS && 0 <= l < |t.lists| && 0 <= i < |t.lists[l]| && t.lists[l][i] == p ==>
                  if t.status[p] >= RUNNING then l == t.prio[p] else t.status[p] == MUTEX_BLOCKED && l >= LEVELS)
    decreases |ops|
  {
    if ops == [] {
      forall p, l, i | 0 <= p < PIDS && 0 <= l < |s.lists| && 0 <= i < |s.lists[l]| && s.lists[l][i] == p
        ensures if s.status[p] >= RUNNING then l == s.prio[p] else s.status[p] == MUTEX_BLOCKED && l >= LEVELS
      {
        assert Members(s.lists[l], s.home, l) && Fits(s.status[p], s.prio[p], s.home[p]);
      }
    } else {
      RunSafe(Step(s, ops[0]), ops[1..]);
    }
  }

  // ---------------------------------------------------------------- the idle thread

  /** With a runnable thread besides the one that stops there is always a thread to run. */
  lemma IdleAllowsExit(s: Sys, idle: nat)
    requires Sound(s) && Calling(s) && idle < PIDS && idle != s.active && s.status[idle] >= RUNNING
    ensures Legal(s, Exit)
  {
    ExitedQueues(s);
    RunnableThread(Exited(s), idle);
  }

  lemma IdleAllowsLock(s: Sys, m: nat, idle: nat)
    requires Sound(s) && Calling(s) && idle < PIDS && idle != s.active && s.status[idle] >= RUNNING && m < |s.locked|
    ensures Legal(s, Lock(m))
  {
    if s.locked[m] {
      BlockQueues(s, m);
      RunnableThread(Block(s, m), idle);
    }
  }

  lemma ReleaseStatus(s: Sys, m: nat, p: nat)
    requires Sound(s) && Legal(s, Op.Unlock(m)) && p < PIDS && s.status[p] >= RUNNING
    ensures InTable(s.prio, Waiting(s, m)) && Release(s, m).status[p] >= RUNNING
  {
  }

  lemma IdleAllowsSleep(s: Sys, m: nat, idle: nat)
    requires Sound(s) && Legal(s, Op.Unlock(m)) && idle < PIDS && idle != s.active && s.status[idle] >= RUNNING
    ensures Legal(s, UnlockAndSleep(m))
  {
    ReleaseSound(s, m);
    ReleaseStatus(s, m, idle);
    SleepQueues(Release(s, m));
    RunnableThread(UnlockToSleep(s, m), idle);
  }

  lemma YieldStatus(s: Sys, p: nat)
    requires QueuesOk(s) && Runnable(s) && p < PIDS && s.status[p] >= RUNNING
    ensures Runnable(Rotate(s)) && Next(Rotate(s)) < PIDS
    ensures Scheduling.Yield(s).status[p] >= RUNNING
  {
    YieldSound(s);
  }

  /** Thread `p` can run and is not the one that calls. */
  predicate Other(s: Sys, p: nat)
    requires Shape(s)
  {
    p < PIDS && p != s.active && s.status[p] >= RUNNING
  }

  lemma EndedStatus(s: Sys, p: nat)
    requires Sound(s) && Legal(s, Exit) && Other(s, p)
    ensures Ended(s).status[p] >= RUNNING
  {
    ExitedQueues(s);
    YieldStatus(Exited(s), p);
  }

  lemma InterruptedStatus(s: Sys, expired: seq<nat>, p: nat)
    requires Sound(s) && Legal(s, Interrupt(expired)) && Other(s, p)
    ensures Interrupted(s, expired).status[p] >= RUNNING
  {
    InterruptQueues(s, expired);
    ExpireQueues(s, expired);
  }

  lemma LockTakenStatus(s: Sys, m: nat, p: nat)
    requires Sound(s) && Legal(s, Lock(m)) && Other(s, p)
    ensures LockTaken(s, m).status[p] >= RUNNING
  {
    if s.locked[m] {
      BlockQueues(s, m);
      YieldStatus(Block(s, m), p);
    }
  }

  lemma GivenUpStatus(s: Sys, m: nat, p: nat)
    requires Sound(s) && Legal(s, UnlockAndSleep(m)) && Other(s, p)
    ensures GivenUp(s, m).status[p] >= RUNNING
  {
    UnlockToSleepQueues(s, m);
    ReleaseStatus(s, m, p);
    YieldStatus(UnlockToSleep(s, m), p);
  }

  /** A runnable thread stays runnable through everything other threads and interrupts do. */
  lemma RunnableStays(s: Sys, op: Op, p: nat)
    requires Sound(s) && Legal(s, op) && Other(s, p)
    ensures Step(s, op).status[p] >= RUNNING
  {
    match op
    case Exit => EndedStatus(s, p);
    case Yield => YieldStatus(s, p);
    case Interrupt(expired) => InterruptedStatus(s, expired, p);
    case Lock(m) => LockTakenStatus(s, m, p);
    case Unlock(m) => ReleaseStatus(s, m, p);
    case UnlockAndSleep(m) => GivenUpStatus(s, m, p);
    case _ =>
  }
}
