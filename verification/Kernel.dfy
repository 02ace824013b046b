/** The scheduler as it runs: the thread table, the run queue pointers, the bit cache and the mutex
    words. Every method carries out one function of the abstract scheduler. */
module Kernel {
  import opened BitCache
  import opened KernelLinks
  import opened KeyedLists
  import opened LinkedChains
  import Mutexes
  import opened Scheduling
  import opened SchedulerEffects
  import SchedulerRuns
  import opened Sequences
  import opened WaitOrder

  /** One more timer fires. */
  lemma FiredNext(s: Sys, expired: seq<nat>, p: nat)
    requires QueuesOk(s) && MayExpire(s, p)
    requires forall i :: 0 <= i < |expired| ==> expired[i] < PIDS && MayExpire(s, expired[i])
    ensures forall i :: 0 <= i < |expired + [p]| ==> (expired + [p])[i] < PIDS
    ensures var u := Fired(s, expired);
            && (u.status[p] < RUNNING ==> u.home[p] < 0)
            && Fired(s, expired + [p]) == Scheduling.SetStatus(u, p, PENDING).(request := true)
  {
    var all := expired + [p];
    ExpireQueues(s, expired);
    assert all[..|all| - 1] == expired;
    var u := Fired(s, expired);
    assert Fits(u.status[p], u.prio[p], u.home[p]);
  }

  /** The word of mutex `m` and its queue once the waiter to serve is off the queue. */
  lemma ServedChain(link: seq<nat>, word: int, s: Sys, m: nat)
    requires Mutexes.Knows(s, m) && Mutexes.Waiting(s, m) != [] && s.locked[m] && ChainFor(link, word, s, m)
    ensures 0 < Mutexes.Waiter(s, m) < |link|
    ensures ChainFor(link, Word(link[Mutexes.Waiter(s, m)]), Mutexes.Picked(s, m), m)
  {
    ChainServed(link, s.prio, Mutexes.Waiting(s, m));
  }

  /** The links without a change once the waiter to serve is off the queue of mutex `m`. */
  lemma ServedShown(link: seq<nat>, queues: seq<nat>, words: seq<int>, s: Sys, m: nat, words': seq<int>)
    requires Mutexes.Knows(s, m) && Mutexes.Waiting(s, m) != [] && s.locked[m] && InTable(s.prio, Mutexes.Waiting(s, m))
    requires Rings(link, queues, s.lists) && Chains(link, words, s)
    requires 0 < Mutexes.Waiter(s, m) < |link| && words' == words[m := Word(link[Mutexes.Waiter(s, m)])]
    ensures Rings(link, queues, Mutexes.Picked(s, m).lists) && Chains(link, words', Mutexes.Picked(s, m))
  {
    var t := Mutexes.Picked(s, m);
    forall j | 0 <= j < |words'| ensures ChainFor(link, words'[j], t, j) {
      assert ChainFor(link, words[j], s, j);
      if j == m {
        ServedChain(link, words[m], s, m);
      } else {
        assert t.lists[LEVELS + j] == s.lists[LEVELS + j];
      }
    }
  }

  /** Only lists, homes and holders may differ. */
  predicate SameThreads(s: Sys, t: Sys) {
    && Shape(t) && t.used == s.used && t.status == s.status && t.prio == s.prio && t.locked == s.locked
    && t.active == s.active && t.request == s.request
  }

  /** What changing links of threads waiting for `m` leaves alone. */
  lemma WordChanged(s: Sys, t: Sys, link: seq<nat>, link': seq<nat>, queues: seq<nat>,
                    words: seq<int>, words': seq<int>, m: nat, p: nat)
    requires Shape(s) && Shape(t) && Placed(s.lists, s.home) && m < |s.locked| && p < PIDS
    requires Rings(link, queues, s.lists) && Chains(link, words, s)
    requires s.home[p] == LEVELS + m || s.home[p] < 0
    requires OnlyOn(link, link', s.home, LEVELS + m, p) && |words'| == |words| == |t.locked| == |s.locked|
    requires forall j :: 0 <= j < |words| && j != m ==> words'[j] == words[j] && t.locked[j] == s.locked[j]
    requires forall j :: 0 <= j < |s.lists| && j != LEVELS + m ==> t.lists[j] == s.lists[j]
    requires t.prio == s.prio && ChainFor(link', words'[m], t, m)
    ensures Rings(link', queues, t.lists) && Chains(link', words', t)
  {
    RingsKept(link, link', s.home, LEVELS + m, p, queues, s.lists);
    ChainsKept(link, link', LEVELS + m, p, words, s);
    forall j | 0 <= j < |words| ensures ChainFor(link', words'[j], t, j) {
      assert j != m ==> ChainFor(link', words[j], s, j) && t.lists[LEVELS + j] == s.lists[LEVELS + j];
    }
  }

  /** A thread is created by filling its slot and making it runnable. */
  lemma CreatedState(s: Sys, prio: nat, p: nat) returns (t: Sys)
    requires Sound(s) && prio < LEVELS && prio != PERIODIC_LEVEL && p == FreeSlot(s.used, 1) < PIDS
    ensures Shape(t) && t.used == s.used[p := true] && t.prio == s.prio[p := prio] && t.home == s.home && t.status == s.status
    ensures t.lists == s.lists && t.locked == s.locked && t.active == s.active && t.request == s.request
    ensures s.home[p] < 0 && t.status[p] == STOPPED && Sound(Scheduling.SetStatus(t, p, PENDING))
    ensures Scheduling.Create(s, prio) == (Scheduling.SetStatus(t, p, PENDING), Created(p))
  {
    CreateSound(s, prio);
    assert Fits(s.status[p], s.prio[p], s.home[p]);
    t := s.(used := s.used[p := true], prio := s.prio[p := prio]);
  }

  /** The state after a scheduling decision, field by field. */
  lemma NextState(s: Sys) returns (t: Sys)
    requires QueuesOk(s) && Runnable(s)
    ensures 0 < Next(s) < PIDS && t == RunNext(s) && Sound(t) && t.status == RunStatus(s, Next(s))
    ensures t.used == s.used && t.prio == s.prio && t.home == s.home && t.lists == s.lists && t.locked == s.locked
    ensures t.active == Next(s) && !t.request
  {
    RunNextSound(s);
    t := RunNext(s);
  }

  /** Blocking changes the status first and then joins the queue. */
  lemma BlockedState(s: Sys, m: nat) returns (u: Sys, t: Sys)
    requires Sound(s) && Mutexes.Knows(s, m) && s.locked[m] && SchedulerRuns.Calling(s)
    ensures u == Scheduling.SetStatus(s, s.active, MUTEX_BLOCKED) && t == Mutexes.Block(s, m) && QueuesOk(t)
    ensures u.home[s.active] < 0 && SameThreads(u, t) && Joins(u.lists, t.lists, LEVELS + m, s.active)
    ensures s.lists[s.prio[s.active]] != []
  {
    Mutexes.BlockQueues(s, m);
    assert Fits(s.status[s.active], s.prio[s.active], s.home[s.active]);
    u, t := Scheduling.SetStatus(s, s.active, MUTEX_BLOCKED), Mutexes.Block(s, m);
  }

  /** The state between taking the waiter to serve off the queue of `m` and making it runnable, and the
      words that show it. */
  lemma PickedState(link: seq<nat>, queues: seq<nat>, words: seq<int>, s: Sys, m: nat)
    returns (t: Sys, words': seq<int>)
    requires Sound(s) && Mutexes.Knows(s, m) && Mutexes.Waiting(s, m) != [] && s.locked[m]
    requires Rings(link, queues, s.lists) && Chains(link, words, s)
    requires InTable(s.prio, Mutexes.Waiting(s, m)) && words[m] == Mutexes.Waiter(s, m) && |link| == PIDS
    ensures SameThreads(s, t) && Placed(t.lists, t.home)
    ensures Mutexes.HandOver(s, m) == Scheduling.SetStatus(t, words[m], PENDING)
    ensures 0 < words[m] < PIDS && s.status[words[m]] == MUTEX_BLOCKED && t.home[words[m]] < 0
    ensures words' == words[m := Word(link[words[m]])] && Rings(link, queues, t.lists) && Chains(link, words', t)
  {
    Mutexes.PickedPlaced(s, m);
    t, words' := Mutexes.Picked(s, m), words[m := Word(link[words[m]])];
    ServedShown(link, queues, words, s, m, words');
  }

  /** The thread table, the run queues and the mutexes. */
  class Threads {
    // sched_threads
    var inUse: seq<bool>
    var status: seq<nat>
    var priority: seq<nat>
    var link: seq<nat>
    // sched_runqueues, the last thread of each; 0 for NULL
    var runqueues: seq<nat>
    var bitcache: nat
    // queue.next of each mutex: a thread, 0 for NULL or LOCKED
    var mutexes: seq<int>
    var active: nat
    var request: bool
    ghost var sys: Sys

    /** The fields show the abstract state, with `heads` for the mutex words. */
    ghost predicate ShownAs(heads: seq<int>)
      reads this
    {
      && Shape(sys) && Placed(sys.lists, sys.home)
      && inUse == sys.used && status == sys.status && priority == sys.prio
      && active == sys.active && request == sys.request
      && |link| == PIDS && Rings(link, runqueues, sys.lists) && Chains(link, heads, sys) && Cached(bitcache, runqueues)
    }

    ghost predicate Shown()
      reads this
    {
      ShownAs(mutexes)
    }

    ghost predicate Valid()
      reads this
    {
      Shown() && Sound(sys)
    }

    /** The state at boot, with `n` mutexes. */
    constructor (n: nat)
      ensures Valid() && sys == SchedulerRuns.Boot(n)
    {
      inUse, status, priority := seq(PIDS, i => false), seq(PIDS, i => STOPPED), seq(PIDS, i => 0);
      link, runqueues, bitcache := seq(PIDS, i => 0), seq(LEVELS, i => 0), 0;
      mutexes, active, request := seq(n, i => 0), 0, false;
      sys := SchedulerRuns.Boot(n);
      new;
      SchedulerRuns.BootSound(n);
      forall q | 0 <= q < LEVELS ensures !Bit(bitcache, q) {
        NoBits(q);
      }
      forall m | 0 <= m < n ensures ChainFor(link, mutexes[m], sys, m) {
      }
    }

    /** sm_clist_rpush */
    method RPush(q: nat, p: nat, ghost l: seq<nat>)
      requires q < |runqueues| && RingOf(link, runqueues[q], l) && Distinct(l) && p !in l && 0 < p < |link|
      requires 0 !in l
      modifies this`link, this`runqueues
      ensures runqueues == old(runqueues)[q := p] && RingOf(link, p, l + [p])
      ensures |link| == |old(link)| && forall x :: 0 <= x < |link| && x != p && x !in l ==> link[x] == old(link)[x]
    {
      ghost var link0, last := link, runqueues[q];
      if runqueues[q] != 0 {
        assert RingAt(link, l, |l| - 1);
        link := link[p := link[runqueues[q]]];
        link := link[runqueues[q] := p];
      } else {
        link := link[p := p];
      }
      PushRing(link0, link, last, l, p);
      runqueues := runqueues[q := p];
    }

    /** sm_clist_lpop */
    method LPop(q: nat, ghost l: seq<nat>)
      requires q < |runqueues| && RingOf(link, runqueues[q], l) && Distinct(l) && l != [] && 0 !in l
      modifies this`link, this`runqueues
      ensures |runqueues| == |old(runqueues)| && RingOf(link, runqueues[q], l[1..])
      ensures forall j :: 0 <= j < |runqueues| && j != q ==> runqueues[j] == old(runqueues)[j]
      ensures |link| == |old(link)| && forall x :: 0 <= x < |link| && x !in l ==> link[x] == old(link)[x]
    {
      assert RingAt(link, l, |l| - 1) && RingAt(link, l, 0);
      ghost var link0, last := link, runqueues[q];
      var first := link[runqueues[q]];
      if runqueues[q] == first {
        assert |l| == 1;
        runqueues := runqueues[q := 0];
      } else {
        link := link[runqueues[q] := link[first]];
      }
      PopRing(link0, link, last, l);
    }

    /** What changing links on run queue `q` leaves alone. */
    lemma QueueChanged(t: Sys, link0: seq<nat>, queues0: seq<nat>, heads: seq<int>, s: Sys, q: nat, p: nat)
      requires Shape(s) && Shape(t) && Placed(s.lists, s.home) && q < LEVELS && p < PIDS
      requires Rings(link0, queues0, s.lists) && Chains(link0, heads, s)
      requires s.home[p] == q || s.home[p] < 0
      requires |runqueues| == LEVELS && OnlyOn(link0, link, s.home, q, p)
      requires forall j :: 0 <= j < LEVELS && j != q ==> runqueues[j] == queues0[j] && t.lists[j] == s.lists[j]
      requires forall j :: LEVELS <= j < |t.lists| && j < |s.lists| ==> t.lists[j] == s.lists[j]
      requires RingOf(link, runqueues[q], t.lists[q]) && t.prio == s.prio && t.locked == s.locked
      ensures Rings(link, runqueues, t.lists) && Chains(link, heads, t)
    {
      RingsKept(link0, link, s.home, q, p, queues0, s.lists);
      ChainsKept(link0, link, q, p, heads, s);
      ChainsSame(link, heads, s, t);
    }

    /** Puts `p` at the end of its run queue. */
    method Enqueue(p: nat, ghost heads: seq<int>, ghost t: Sys)
      requires ShownAs(heads) && 0 < p < PIDS && sys.home[p] < 0
      requires Shape(t) && t.prio == sys.prio && t.locked == sys.locked
      requires t.lists == sys.lists[sys.prio[p] := sys.lists[sys.prio[p]] + [p]]
      modifies this`link, this`runqueues, this`bitcache
      ensures |link| == PIDS && Rings(link, runqueues, t.lists) && Chains(link, heads, t) && Cached(bitcache, runqueues)
    {
      var q := priority[p];
      ghost var l, link0, queues0, bits := sys.lists[q], link, runqueues, bitcache;
      assert Members(l, sys.home, q);
      RPush(q, p, l);
      bitcache := SetBit(bitcache, q);
      forall j | 0 <= j < LEVELS ensures Bit(bitcache, j) <==> runqueues[j] != 0 {
        SetBits(bits, q, j);
      }
      QueueChanged(t, link0, queues0, heads, sys, q, p);
    }

    /** Takes the first thread off run queue `q`. */
    method Dequeue(q: nat, ghost heads: seq<int>, ghost t: Sys)
      requires ShownAs(heads) && q < LEVELS && sys.lists[q] != []
      requires Shape(t) && t.prio == sys.prio && t.locked == sys.locked && t.lists == sys.lists[q := sys.lists[q][1..]]
      modifies this`link, this`runqueues, this`bitcache
      ensures |link| == PIDS && Rings(link, runqueues, t.lists) && Chains(link, heads, t) && Cached(bitcache, runqueues)
    {
      ghost var l, link0, queues0, bits := sys.lists[q], link, runqueues, bitcache;
      assert Members(l, sys.home, q);
      assert sys.home[l[0]] == q && queues0[q] == l[|l| - 1] != 0;
      LPop(q, l);
      if runqueues[q] == 0 {
        bitcache := ClearBit(bitcache, q);
      }
      forall j | 0 <= j < LEVELS ensures Bit(bitcache, j) <==> runqueues[j] != 0 {
        ClearBits(bits, q, j);
      }
      QueueChanged(t, link0, queues0, heads, sys, q, l[0]);
    }

    /** sched_set_status */
    method SetStatus(p: nat, st: nat, ghost heads: seq<int>)
      requires ShownAs(heads) && 0 < p < PIDS && st < STATUS_NUMOF
      requires st >= RUNNING > status[p] ==> sys.home[p] < 0
      requires st < RUNNING <= status[p] ==> sys.lists[priority[p]] != []
      modifies this`status, this`link, this`runqueues, this`bitcache, this`sys
      ensures ShownAs(heads) && sys == Scheduling.SetStatus(old(sys), p, st)
    {
      ghost var t := Scheduling.SetStatus(sys, p, st);
      SetStatusPlaced(sys, p, st);
      if st >= RUNNING {
        if status[p] < RUNNING {
          Enqueue(p, heads, t);
        }
      } else if status[p] >= RUNNING {
        Dequeue(priority[p], heads, t);
      }
      status := status[p := st];
      assert Chains(link, heads, t);
      sys := t;
    }

    /** The first thread of the lowest run queue whose bit is set. */
    method PickNext() returns (next: nat)
      requires Shown() && Runnable(sys)
      ensures next == Next(sys)
    {
      ghost var top := Top(sys.lists, 0);
      TopBit(top);
      var nextrq := LowestBit(bitcache, top);
      FirstOf(nextrq);
      next := link[runqueues[nextrq]];
    }

    method SwitchTo(next: nat)
      requires Shape(sys) && status == sys.status && active == sys.active && next < PIDS && next != active
      modifies this`status, this`active
      ensures status == RunStatus(sys, next) && active == next
    {
      if active != 0 {
        if status[active] == RUNNING {
          status := status[active := PENDING];
        }
      }
      status := status[next := RUNNING];
      active := next;
    }

    /** sched_run_internal, without periodic threads */
    method SchedRun() returns (changed: bool)
      requires Shown() && QueuesOk(sys) && Runnable(sys) && 0 < Next(sys) < PIDS
      modifies this`status, this`active, this`request, this`sys
      ensures Valid() && sys == RunNext(old(sys)) && changed == (active != old(active))
    {
      ghost var t := NextState(sys);
      var next := PickNext();
      request := false;
      changed := active != next;
      if changed {
        SwitchTo(next);
      }
      ChainsSame(link, mutexes, sys, t);
      sys := t;
    }

    /** The lowest set bit is that of the first run queue that is not empty. */
    lemma TopBit(top: nat)
      requires Shown() && top == Top(sys.lists, 0) < LEVELS
      ensures Bit(bitcache, top) && forall j :: 0 <= j < top ==> !Bit(bitcache, j)
    {
    }

    lemma FirstOf(q: nat)
      requires Shown() && q < LEVELS && sys.lists[q] != []
      ensures 0 < runqueues[q] < PIDS && link[runqueues[q]] == sys.lists[q][0]
    {
      var l := sys.lists[q];
      assert Members(l, sys.home, q) && RingOf(link, runqueues[q], l) && RingAt(link, l, |l| - 1);
    }

    /** sched_yield, without periodic threads */
    method SchedYield()
      requires Shown()
      modifies this`runqueues, this`sys
      ensures Shown() && sys == Rotate(old(sys))
    {
      var me := active;
      if me != 0 && status[me] >= RUNNING {
        var q := priority[me];
        ghost var l, t, queues0 := sys.lists[q], Rotate(sys), runqueues;
        if runqueues[q] != 0 {
          assert Members(l, sys.home, q) && RingOf(link, runqueues[q], l);
          RotateRing(link, runqueues[q], l);
          RotatePlaced(sys.lists, sys.home, q);
          assert sys.home[l[0]] == q;
          runqueues := runqueues[q := link[runqueues[q]]];
          QueueChanged(t, link, queues0, mutexes, sys, q, l[0]);
        }
        sys := t;
      }
    }

    /** thread_yield_higher */
    method YieldHigher()
      requires Shown() && QueuesOk(sys) && Runnable(sys)
      modifies this`runqueues, this`status, this`active, this`request, this`sys
      ensures Runnable(Rotate(old(sys))) && 0 < Next(Rotate(old(sys))) < PIDS
      ensures Valid() && sys == Yield(old(sys))
    {
      YieldSound(sys);
      RotateQueues(sys);
      SchedYield();
      var _ := SchedRun();
    }

    // ---------------------------------------------------------------- entries

    /** The slot `p` is filled in; `p` is on no list. */
    method FillSlot(p: nat, prio: nat, ghost t: Sys)
      requires Valid() && 0 < p < PIDS && sys.home[p] < 0 && prio < LEVELS && prio != PERIODIC_LEVEL
      requires Shape(t) && t.used == sys.used[p := true] && t.prio == sys.prio[p := prio] && t.home == sys.home
      requires t.status == sys.status && t.lists == sys.lists && t.locked == sys.locked
      requires t.active == sys.active && t.request == sys.request
      modifies this`inUse, this`priority, this`link, this`sys
      ensures Shown() && sys == t
    {
      ghost var link0 := link;
      inUse, priority, link := inUse[p := true], priority[p := prio], link[p := 0];
      RingsKept(link0, link, sys.home, -1, p, runqueues, sys.lists);
      ChainsKept(link0, link, -1, p, mutexes, sys);
      ChainsMoved(link, mutexes, sys, t, p);
      sys := t;
    }

    /** _thread_create_scheduler_internal */
    method Create(prio: nat) returns (r: Creation)
      requires Valid() && SchedulerRuns.Legal(sys, SchedulerRuns.Create(prio))
      modifies this
      ensures Valid() && (sys, r) == Scheduling.Create(old(sys), prio)
      ensures match r
              case Created(p) => Appears(old(sys), sys, p, prio)
              case Overflow => sys == old(sys) && forall j :: 0 < j < PIDS ==> inUse[j]
    {
      var pid := FindUnused();
      if pid == PIDS {
        return Overflow;
      }
      CreateAppears(sys, prio);
      ghost var t := CreatedState(sys, prio, pid);
      FillSlot(pid, prio, t);
      SetStatus(pid, PENDING, mutexes);
      return Created(pid);
    }

    method FindUnused() returns (pid: nat)
      requires |inUse| == PIDS
      ensures pid == FreeSlot(inUse, 1)
    {
      pid := 1;
      while pid < PIDS && inUse[pid]
        invariant 1 <= pid <= PIDS && FreeSlot(inUse, pid) == FreeSlot(inUse, 1)
      {
        pid := pid + 1;
      }
    }

    /** sched_task_exit_internal */
    method EndThread()
      requires Valid() && SchedulerRuns.Calling(sys)
      modifies this
      ensures Shown() && sys == Exited(old(sys)) && Disappears(old(sys), sys)
    {
      ExitedDisappears(sys);
      ghost var t := Exited(sys);
      inUse := inUse[active := false];
      sys := sys.(used := inUse);
      SetStatus(active, STOPPED, mutexes);
      active := 0;
      ChainsSame(link, mutexes, sys, t);
      sys := t;
    }

    /** The end of a thread and the yield that follows it */
    method Exit()
      requires Valid() && SchedulerRuns.Legal(sys, SchedulerRuns.Exit)
      modifies this
      ensures Valid() && sys == SchedulerRuns.Step(old(sys), SchedulerRuns.Exit)
    {
      ExitedQueues(sys);
      EndThread();
      YieldHigher();
    }

    /** thread_wakeup: 1 when the thread was sleeping, otherwise -1 for STATUS_NOT_FOUND */
    method Wakeup(pid: int) returns (r: int)
      requires Valid() && SchedulerRuns.Legal(sys, SchedulerRuns.Wakeup(pid))
      modifies this
      ensures Valid() && sys == Scheduling.Wakeup(old(sys), pid)
      ensures r == if 1 <= pid < PIDS && old(status)[pid] == SLEEPING then 1 else -1
      ensures r == 1 ==> status == old(status)[pid := RUNNING] && Joins(old(sys).lists, sys.lists, priority[pid], pid)
      ensures r != 1 ==> sys == old(sys)
    {
      r := -1;
      SchedulerRuns.WakeupSound(sys, pid);
      WakeupGets(sys, pid);
      if 1 <= pid < PIDS {
        if status[pid] == SLEEPING {
          assert Fits(sys.status[pid], sys.prio[pid], sys.home[pid]);
          SetStatus(pid, RUNNING, mutexes);
          r := 1;
        }
      }
    }

    /** sched_set_own_status as thread_sleep calls it */
    method Sleep()
      requires Valid() && SchedulerRuns.Legal(sys, SchedulerRuns.Sleep)
      modifies this
      ensures Valid() && sys == SchedulerRuns.Step(old(sys), SchedulerRuns.Sleep)
      ensures status == old(status)[active := SLEEPING] && active == old(active)
    {
      SetStatusSound(sys, sys.active, SLEEPING);
      SetStatus(active, SLEEPING, mutexes);
    }

    /** _shoot_timer */
    method ShootTimer(p: nat, ghost s: Sys, ghost expired: seq<nat>)
      requires Shown() && QueuesOk(s) && MayExpire(s, p)
      requires forall i :: 0 <= i < |expired| ==> expired[i] < PIDS && MayExpire(s, expired[i])
      requires sys == Fired(s, expired)
      modifies this
      ensures (forall i :: 0 <= i < |expired + [p]| ==> (expired + [p])[i] < PIDS)
      ensures Shown() && sys == Fired(s, expired + [p]) && mutexes == old(mutexes)
    {
      FiredNext(s, expired, p);
      SetStatus(p, PENDING, mutexes);
      request := true;
      ghost var t := sys.(request := true);
      ChainsSame(link, mutexes, sys, t);
      sys := t;
    }

    method ShootTimers(expired: seq<nat>)
      requires Valid() && forall i :: 0 <= i < |expired| ==> expired[i] < PIDS && MayExpire(sys, expired[i])
      modifies this
      ensures Shown() && sys == Fired(old(sys), expired)
    {
      ghost var s := sys;
      var i := 0;
      assert expired[..0] == [] && sys == Fired(s, []);
      while i < |expired|
        invariant i <= |expired| && (forall j :: 0 <= j < i ==> expired[..i][j] < PIDS)
        invariant Shown() && sys == Fired(s, expired[..i])
      {
        ShootTimer(expired[i], s, expired[..i]);
        i := i + 1;
        assert expired[..i - 1] + [expired[i - 1]] == expired[..i];
      }
      assert expired[..i] == expired;
    }

    /** A timer interrupt: the timers of `expired` fire, then the scheduler runs if it was asked to. */
    method TimerInterrupt(expired: seq<nat>)
      requires Valid() && SchedulerRuns.Legal(sys, SchedulerRuns.Interrupt(expired))
      modifies this
      ensures Valid() && sys == SchedulerRuns.Step(old(sys), SchedulerRuns.Interrupt(expired))
    {
      SchedulerRuns.InterruptQueues(sys, expired);
      ShootTimers(expired);
      if request {
        NextThread(sys);
        var _ := SchedRun();
      }
    }

    // ---------------------------------------------------------------- mutexes

    /** Links `p` into the queue of the locked mutex `m`, whose threads are `c`. */
    method LinkIn(m: nat, p: nat, ghost c: seq<nat>)
      requires m < |mutexes| && |link| == |priority| && ChainOf(link, mutexes[m], c, true)
      requires InTable(priority, c) && Distinct(c) && p !in c && 0 < p < |priority|
      modifies this`link, this`mutexes
      ensures |mutexes| == |old(mutexes)| && forall j :: 0 <= j < |mutexes| && j != m ==> mutexes[j] == old(mutexes)[j]
      ensures |link| == |old(link)| && forall x :: 0 <= x < |link| && x != p && x !in c ==> link[x] == old(link)[x]
      ensures ChainOf(link, mutexes[m], Enter(priority, c, p), true)
    {
      assert |c| > 0 ==> ChainAt(link, c, 0);
      if mutexes[m] == LOCKED {
        mutexes := mutexes[m := p];
        link := link[p := 0];
        assert Enter(priority, c, p) == [p];
      } else {
        var first;
        link, first := AddToList(link, mutexes[m], NotAfter(priority, p), p, priority, c);
        mutexes := mutexes[m := first];
      }
    }

    /** The queue of mutex `m` with the running thread in it. */
    method LinkActive(m: nat, ghost t: Sys)
      requires Shape(sys) && priority == sys.prio && |link| == PIDS && m < |sys.locked| == |mutexes| && sys.locked[m]
      requires 0 < active < PIDS && sys.home[active] < 0 && Members(sys.lists[LEVELS + m], sys.home, LEVELS + m)
      requires ChainFor(link, mutexes[m], sys, m)
      requires Shape(t) && t.prio == sys.prio && t.locked == sys.locked
      requires t.lists[LEVELS + m] == sys.lists[LEVELS + m] + [active]
      modifies this`link, this`mutexes
      ensures |mutexes| == |old(mutexes)| && forall j :: 0 <= j < |mutexes| && j != m ==> mutexes[j] == old(mutexes)[j]
      ensures OnlyOn(old(link), link, sys.home, LEVELS + m, active) && ChainFor(link, mutexes[m], t, m)
    {
      ghost var l, link0 := sys.lists[LEVELS + m], link;
      ghost var c := ByPrio(sys.prio, l);
      ByPrioHome(sys.prio, l, sys.home, LEVELS + m);
      LinkIn(m, active, c);
      OnlyOnList(link0, link, sys.home, LEVELS + m, active, c);
      ByPrioEnter(sys.prio, l, active);
    }

    /** The running thread, just taken off its run queue, queues up for the locked mutex `m`. */
    method QueueUp(m: nat, ghost t: Sys)
      requires Shown() && m < |sys.locked| && sys.locked[m] && 0 < active && sys.home[active] < 0
      requires SameThreads(sys, t) && Placed(t.lists, t.home) && Joins(sys.lists, t.lists, LEVELS + m, active)
      modifies this`link, this`mutexes, this`sys
      ensures Shown() && sys == t
    {
      ghost var link0, heads0 := link, mutexes;
      assert ChainFor(link, mutexes[m], sys, m) && Members(sys.lists[LEVELS + m], sys.home, LEVELS + m);
      LinkActive(m, t);
      WordChanged(sys, t, link0, link, runqueues, heads0, mutexes, m, active);
      sys := t;
    }

    /** What the word of a mutex says. */
    lemma WordMeans(m: nat)
      requires Valid() && m < |mutexes|
      ensures mutexes[m] == 0 <==> !sys.locked[m]
      ensures mutexes[m] == LOCKED <==> sys.locked[m] && sys.lists[LEVELS + m] == []
      ensures sys.lists[LEVELS + m] != [] ==>
                InTable(sys.prio, sys.lists[LEVELS + m]) && mutexes[m] == Mutexes.Waiter(sys, m)
    {
      var l := sys.lists[LEVELS + m];
      assert ChainFor(link, mutexes[m], sys, m) && Owned(sys.locked[m], sys.holders[m], l);
      if l != [] {
        assert ChainAt(link, ByPrio(sys.prio, l), 0);
        FirstIsBest(sys.prio, l);
      }
    }

    /** The word of mutex `m` changes while nobody waits for it. */
    method SetWord(m: nat, word: int, ghost t: Sys)
      requires Valid() && m < |mutexes| && sys.lists[LEVELS + m] == [] && Shape(t)
      requires |t.locked| == |sys.locked| && word == if t.locked[m] then LOCKED else 0
      requires forall j :: 0 <= j < |mutexes| && j != m ==> t.locked[j] == sys.locked[j]
      requires t.used == sys.used && t.status == sys.status && t.prio == sys.prio && t.home == sys.home && t.lists == sys.lists
      requires t.active == sys.active && t.request == sys.request
      modifies this`mutexes, this`sys
      ensures Shown() && sys == t
    {
      ghost var heads0 := mutexes;
      mutexes := mutexes[m := word];
      assert ChainFor(link, heads0[m], sys, m);
      WordChanged(sys, t, link, link, runqueues, heads0, mutexes, m, 0);
      sys := t;
    }

    /** _mutex_lock */
    method MutexLock(m: nat, blocking: bool) returns (r: int)
      requires Valid() && SchedulerRuns.Legal(sys, if blocking then SchedulerRuns.Lock(m) else SchedulerRuns.TryLock(m))
      modifies this
      ensures Valid()
      ensures sys == SchedulerRuns.Step(old(sys), if blocking then SchedulerRuns.Lock(m) else SchedulerRuns.TryLock(m))
      ensures r == if blocking || !old(sys.locked)[m] then 1 else 0
    {
      WordMeans(m);
      if mutexes[m] == 0 {
        Mutexes.AcquireSound(sys, m);
        SetWord(m, LOCKED, Mutexes.Acquire(sys, m));
        return 1;
      } else if blocking {
        BlockOn(m);
        return 1;
      } else {
        return 0;
      }
    }

    method BlockOn(m: nat)
      requires Valid() && SchedulerRuns.Legal(sys, SchedulerRuns.Lock(m)) && sys.locked[m]
      modifies this
      ensures Valid() && sys == SchedulerRuns.Step(old(sys), SchedulerRuns.Lock(m))
    {
      ghost var u, t := BlockedState(sys, m);
      SetStatus(active, MUTEX_BLOCKED, mutexes);
      QueueUp(m, t);
      YieldHigher();
    }

    /** list_remove_head on the queue of mutex `m`; until the waiter is runnable the word may be NULL
        although the mutex is locked. */
    method PopWaiter(m: nat, ghost t: Sys, ghost heads: seq<int>) returns (process: nat)
      requires Shown() && m < |mutexes| && 0 < mutexes[m] < PIDS && heads == mutexes[m := Word(link[mutexes[m]])]
      requires SameThreads(sys, t) && Placed(t.lists, t.home) && Rings(link, runqueues, t.lists) && Chains(link, heads, t)
      modifies this`mutexes, this`sys
      ensures sys == t && ShownAs(heads) && process == old(mutexes)[m]
      ensures |mutexes| == |old(mutexes)| && mutexes[m] >= 0 && heads == Marked(mutexes, m)
    {
      process := mutexes[m];
      MarkedAfter(mutexes, m, link[process]);
      mutexes := mutexes[m := link[process]];
      sys := t;
    }

    method MarkLocked(m: nat)
      requires m < |mutexes| && mutexes[m] >= 0
      modifies this`mutexes
      ensures mutexes == Marked(old(mutexes), m)
    {
      if mutexes[m] == 0 {
        mutexes := mutexes[m := LOCKED];
      }
    }

    /** Takes the first waiter off the queue of mutex `m` and makes it runnable; the mutex stays locked. */
    method WakeWaiter(m: nat) returns (process: nat)
      requires Valid() && m < |mutexes| && sys.lists[LEVELS + m] != [] && sys.locked[m]
      modifies this
      ensures InTable(old(sys).prio, Mutexes.Waiting(old(sys), m))
      ensures Shown() && sys == Mutexes.HandOver(old(sys), m) && process == Mutexes.Waiter(old(sys), m)
    {
      WordMeans(m);
      ghost var t, heads := PickedState(link, runqueues, mutexes, sys, m);
      process := Wake(m, t, heads);
    }

    /** The same, by way of the state `t` shown by `heads`. */
    method Wake(m: nat, ghost t: Sys, ghost heads: seq<int>) returns (process: nat)
      requires Shown() && m < |mutexes| && 0 < mutexes[m] < PIDS && heads == mutexes[m := Word(link[mutexes[m]])]
      requires SameThreads(sys, t) && Placed(t.lists, t.home) && Rings(link, runqueues, t.lists) && Chains(link, heads, t)
      requires t.home[mutexes[m]] < 0 && t.status[mutexes[m]] == MUTEX_BLOCKED
      modifies this
      ensures Shown() && process == old(mutexes)[m] && sys == Scheduling.SetStatus(t, process, PENDING)
    {
      process := PopWaiter(m, t, heads);
      SetStatus(process, PENDING, heads);
      MarkLocked(m);
    }

    /** mutex_unlock, by any thread; the invariant survives exactly when the mutex may be unlocked. */
    method MutexUnlock(m: nat)
      requires Valid() && SchedulerRuns.Calling(sys) && m < |mutexes|
      modifies this
      ensures InTable(old(sys).prio, Mutexes.Waiting(old(sys), m))
      ensures Shown() && sys == Mutexes.Unlock(old(sys), m) && (Valid() <==> Mutexes.Releasable(old(sys), m))
    {
      WordMeans(m);
      SchedulerRuns.UnlockKeeps(sys, m);
      if mutexes[m] == 0 {
        return;
      }
      if mutexes[m] == LOCKED {
        SetWord(m, 0, Mutexes.Release(sys, m));
        return;
      }
      HandOn(m);
    }

    /** The end of mutex_unlock, with threads waiting. */
    method HandOn(m: nat)
      requires Valid() && m < |mutexes| && sys.lists[LEVELS + m] != [] && sys.locked[m]
      modifies this
      ensures InTable(old(sys).prio, Mutexes.Waiting(old(sys), m))
      ensures Shown() && sys == Mutexes.Unlock(old(sys), m)
    {
      var process := WakeWaiter(m);
      AllowSwitch(priority[process]);
    }

    /** sched_switch_internal_allow_yield without the yield */
    method AllowSwitch(otherPrio: nat)
      requires Shown()
      modifies this`request, this`sys
      ensures Shown() && sys == Request(old(sys), otherPrio)
    {
      ghost var t := Request(sys, otherPrio);
      if status[active] < RUNNING || priority[active] > otherPrio {
        request := true;
      }
      ChainsSame(link, mutexes, sys, t);
      sys := t;
    }

    /** mutex_unlock_and_sleep */
    method MutexUnlockAndSleep(m: nat)
      requires Valid() && SchedulerRuns.Legal(sys, SchedulerRuns.UnlockAndSleep(m))
      modifies this
      ensures Valid() && sys == SchedulerRuns.Step(old(sys), SchedulerRuns.UnlockAndSleep(m))
    {
      SchedulerRuns.UnlockToSleepQueues(sys, m);
      ReleaseWord(m);
      SetStatus(active, SLEEPING, mutexes);
      YieldHigher();
    }

    /** The first half of mutex_unlock_and_sleep. */
    method ReleaseWord(m: nat)
      requires Valid() && SchedulerRuns.Legal(sys, SchedulerRuns.Unlock(m))
      modifies this
      ensures InTable(old(sys).prio, Mutexes.Waiting(old(sys), m))
      ensures Valid() && sys == Mutexes.Release(old(sys), m) && SchedulerRuns.Calling(sys) && sys.active == old(sys).active
    {
      WordMeans(m);
      Mutexes.ReleaseSound(sys, m);
      if mutexes[m] != 0 {
        if mutexes[m] == LOCKED {
          SetWord(m, 0, Mutexes.Release(sys, m));
        } else {
          var _ := WakeWaiter(m);
        }
      }
    }
  }
}
