/** The scheduler on sequences: which list every thread is on, and what the entries of the kernel do
    to the lists. Run queues and mutex queues thread their members through one link per thread. */
module Scheduling {
  import opened Sequences
  import opened WaitOrder

  /** Thread slots 1..32; slot 0 stands for KERNEL_PID_UNDEF. */
  const PIDS := 33
  const LEVELS := 16
  const PERIODIC_LEVEL := 1

  const STOPPED := 0
  const SLEEPING := 1
  const MUTEX_BLOCKED := 2
  const RUNNING := 10
  const PENDING := 11
  const STATUS_NUMOF := 12

  /** `lists[q]` for q < LEVELS is run queue q; `lists[LEVELS + m]` are the threads waiting for mutex m in
      order of arrival. `home[p]` is the list thread p's link is used for, negative for none. `holders`
      records who has been given a mutex and has not given it back. */
  datatype Sys = Sys(used: seq<bool>, status: seq<nat>, prio: seq<nat>, home: seq<int>, lists: seq<seq<nat>>,
                     locked: seq<bool>, holders: seq<set<nat>>, active: nat, request: bool)

  predicate Shape(s: Sys) {
    && |s.used| == |s.status| == |s.prio| == |s.home| == PIDS
    && |s.lists| == LEVELS + |s.locked| && |s.holders| == |s.locked| && s.active < PIDS
    && (forall p :: 0 <= p < PIDS ==> s.status[p] < STATUS_NUMOF && s.prio[p] < LEVELS && s.prio[p] != PERIODIC_LEVEL)
  }

  // ---------------------------------------------------------------- every link in one list

  ghost predicate Members(list: seq<nat>, home: seq<int>, l: int) {
    Distinct(list) && forall i :: 0 <= i < |list| ==> 0 < list[i] < |home| && home[list[i]] == l
  }

  /** Each thread is on the list `home` says, once, and on no other. */
  ghost predicate Placed(lists: seq<seq<nat>>, home: seq<int>) {
    && (forall l :: 0 <= l < |lists| ==> Members(lists[l], home, l))
    && (forall p {:trigger home[p]} :: 0 <= p < |home| && home[p] >= 0 ==> home[p] < |lists| && p in lists[home[p]])
  }

  lemma AddPlaced(lists: seq<seq<nat>>, home: seq<int>, l: nat, p: nat)
    requires Placed(lists, home) && l < |lists| && 0 < p < |home| && home[p] < 0
    ensures Placed(lists[l := lists[l] + [p]], home[p := l])
  {
  }

  lemma RemovePlaced(lists: seq<seq<nat>>, home: seq<int>, l: nat, k: nat)
    requires Placed(lists, home) && l < |lists| && k < |lists[l]| && lists[l][k] < |home|
    ensures Placed(lists[l := Without(lists[l], k)], home[lists[l][k] := -1])
  {
  }

  lemma RotatePlaced(lists: seq<seq<nat>>, home: seq<int>, l: nat)
    requires Placed(lists, home) && l < |lists| && lists[l] != []
    ensures Placed(lists[l := lists[l][1..] + [lists[l][0]]], home)
  {
  }

  // ---------------------------------------------------------------- the invariant

  /** The list a thread with status `st` and priority `prio` has to be on. */
  predicate Fits(st: nat, prio: nat, home: int) {
    if st >= RUNNING then home == prio
    else if st == MUTEX_BLOCKED then home >= LEVELS
    else home < 0
  }

  predicate Dictated(s: Sys)
    requires Shape(s)
  {
    forall p :: 0 <= p < PIDS ==> Fits(s.status[p], s.prio[p], s.home[p]) && (!s.used[p] ==> s.status[p] == STOPPED)
  }

  /** A mutex has one holder when it is locked and none when it is free; only for a locked one there is a queue. */
  ghost predicate Owned(locked: bool, holders: set<nat>, waiting: seq<nat>) {
    if locked then exists h :: holders == {h} else holders == {} && waiting == []
  }

  /** Every thread is on exactly the list its status dictates, and every mutex has at most one holder. */
  ghost predicate QueuesOk(s: Sys) {
    && Shape(s) && Placed(s.lists, s.home) && Dictated(s)
    && forall m :: 0 <= m < |s.locked| ==> Owned(s.locked[m], s.holders[m], s.lists[LEVELS + m])
  }

  /** The running thread is the first one of its run queue. */
  predicate ActiveFirst(s: Sys)
    requires Shape(s)
  {
    s.active != 0 ==>
      && s.used[s.active]
      && (s.status[s.active] >= RUNNING ==> s.lists[s.prio[s.active]] != [] && s.lists[s.prio[s.active]][0] == s.active)
  }

  ghost predicate Sound(s: Sys) {
    QueuesOk(s) && ActiveFirst(s)
  }

  // ---------------------------------------------------------------- changing a status

  function Popped(list: seq<nat>): seq<nat> {
    if list == [] then [] else list[1..]
  }

  /** A thread that becomes runnable goes to the end of its run queue; for one that stops being runnable
      the first thread of its run queue is taken off. */
  function SetStatus(s: Sys, p: nat, st: nat): (t: Sys)
    requires Shape(s) && p < PIDS && st < STATUS_NUMOF
    ensures Shape(t) && t.active == s.active && t.locked == s.locked
  {
    var q := s.prio[p];
    var l := s.lists[q];
    if st >= RUNNING && s.status[p] < RUNNING then
      s.(status := s.status[p := st], home := s.home[p := q], lists := s.lists[q := l + [p]])
    else if st < RUNNING && s.status[p] >= RUNNING then
      var home := if l != [] && l[0] < PIDS then s.home[l[0] := -1] else s.home;
      s.(status := s.status[p := st], home := home, lists := s.lists[q := Popped(l)])
    else
      s.(status := s.status[p := st])
  }

  lemma SetStatusPlaced(s: Sys, p: nat, st: nat)
    requires Shape(s) && Placed(s.lists, s.home) && 0 < p < PIDS && st < STATUS_NUMOF
    requires st >= RUNNING > s.status[p] ==> s.home[p] < 0
    requires st < RUNNING <= s.status[p] ==> s.lists[s.prio[p]] != []
    ensures Placed(SetStatus(s, p, st).lists, SetStatus(s, p, st).home)
  {
  }

  /** When sched_set_status may be used: not on a slot given up, not to block a thread on a mutex or to take
      one out of its wait, and to stop a runnable thread only if it is the first of its run queue. */
  predicate MayChange(s: Sys, p: nat, st: nat)
    requires Shape(s) && p < PIDS
  {
    && (s.used[p] || st == STOPPED)
    && (st == MUTEX_BLOCKED <==> s.status[p] == MUTEX_BLOCKED)
    && (st < RUNNING <= s.status[p] ==> s.lists[s.prio[p]] != [] && s.lists[s.prio[p]][0] == p)
  }

  /** For every thread and every status: the invariant is kept exactly under this condition. */
  lemma SetStatusKeeps(s: Sys, p: nat, st: nat)
    requires QueuesOk(s) && 0 < p < PIDS && st < STATUS_NUMOF
    ensures QueuesOk(SetStatus(s, p, st)) <==> MayChange(s, p, st)
  {
    var t := SetStatus(s, p, st);
    assert Fits(s.status[p], s.prio[p], s.home[p]) && (!s.used[p] ==> s.status[p] == STOPPED);
    if !s.used[p] && st != STOPPED {
      assert !t.used[p] && t.status[p] == st;
    } else if st == MUTEX_BLOCKED {
      IntoWait(s, p);
    } else if s.status[p] == MUTEX_BLOCKED {
      OutOfWait(s, p, st);
    } else {
      QueueKept(s, p, st);
    }
  }

  /** A status alone does not queue a thread up for a mutex. */
  lemma IntoWait(s: Sys, p: nat)
    requires QueuesOk(s) && 0 < p < PIDS && s.used[p]
    ensures QueuesOk(SetStatus(s, p, MUTEX_BLOCKED)) <==> s.status[p] == MUTEX_BLOCKED
  {
    var t := SetStatus(s, p, MUTEX_BLOCKED);
    assert Fits(s.status[p], s.prio[p], s.home[p]);
    assert Fits(t.status[p], t.prio[p], t.home[p]) <==> s.status[p] == MUTEX_BLOCKED;
    if s.status[p] == MUTEX_BLOCKED {
      assert t == s;
    }
  }

  /** Nor does it take a thread off the queue it waits in: that queue is left as it is. */
  lemma OutOfWait(s: Sys, p: nat, st: nat)
    requires QueuesOk(s) && 0 < p < PIDS && s.status[p] == MUTEX_BLOCKED && st < STATUS_NUMOF && st != MUTEX_BLOCKED
    ensures LEVELS <= s.home[p] < |s.lists| && p in s.lists[s.home[p]]
    ensures SetStatus(s, p, st).lists[s.home[p]] == s.lists[s.home[p]] && !QueuesOk(SetStatus(s, p, st))
  {
    var t, l := SetStatus(s, p, st), s.home[p];
    assert Fits(s.status[p], s.prio[p], l) && p in s.lists[l];
    if st >= RUNNING {
      StaleEntry(t, p, l);
    } else {
      assert !Fits(t.status[p], t.prio[p], t.home[p]);
    }
  }

  /** A thread on a list other than that of its home. */
  lemma StaleEntry(t: Sys, p: nat, l: nat)
    requires Shape(t) && l < |t.lists| && p in t.lists[l] && p < PIDS && t.home[p] != l
    ensures !Placed(t.lists, t.home)
  {
    assert !Members(t.lists[l], t.home, l);
  }

  lemma QueueKept(s: Sys, p: nat, st: nat)
    requires QueuesOk(s) && 0 < p < PIDS && st < STATUS_NUMOF && (s.used[p] || st == STOPPED)
    requires s.status[p] != MUTEX_BLOCKED && st != MUTEX_BLOCKED
    ensures QueuesOk(SetStatus(s, p, st)) <==> MayChange(s, p, st)
  {
    var t, q := SetStatus(s, p, st), s.prio[p];
    assert Fits(s.status[p], s.prio[p], s.home[p]);
    SetStatusPlaced(s, p, st);
    if st < RUNNING && s.status[p] >= RUNNING {
      assert s.home[p] == q && Members(s.lists[q], s.home, q);
      var first := s.lists[q][0];
      assert s.home[first] == q;
      if first != p {
        assert t.home[p] == q;
        assert !Fits(t.status[p], t.prio[p], t.home[p]);
      } else {
        assert forall x :: 0 <= x < PIDS && x != p ==> Fits(s.status[x], s.prio[x], s.home[x]);
      }
    }
  }

  /** Two threads that can run share a level; the second one is put to sleep and the first is taken off. */
  lemma SetStatusFails() returns (s: Sys)
    ensures QueuesOk(s) && s.used[2] && s.lists[0] == [1, 2] && s.status[2] == PENDING
    ensures SetStatus(s, 2, SLEEPING).lists[0] == [2] && !QueuesOk(SetStatus(s, 2, SLEEPING))
  {
    var status := seq(PIDS, i => if i == 1 then RUNNING else if i == 2 then PENDING else STOPPED);
    var home := seq(PIDS, i => if i == 1 || i == 2 then 0 else -1);
    s := Sys(seq(PIDS, i => i == 1 || i == 2), status, seq(PIDS, i => 0), home,
             seq(LEVELS, i => if i == 0 then [1, 2] else []), [], [], 1, false);
    assert s.lists[0][0] == 1 && s.lists[0][1] == 2;
    SetStatusKeeps(s, 2, SLEEPING);
  }

  /** A thread that is not the first of its run queue must not be taken off it; everything else may change. */
  lemma SetStatusSound(s: Sys, p: nat, st: nat)
    requires Sound(s) && 0 < p < PIDS && s.used[p] && st < STATUS_NUMOF
    requires s.status[p] != MUTEX_BLOCKED && st != MUTEX_BLOCKED
    requires st < RUNNING ==> s.status[p] < RUNNING || p == s.active
    requires p == s.active ==> s.status[p] >= RUNNING
    ensures Sound(SetStatus(s, p, st))
  {
    SetStatusKeeps(s, p, st);
  }

  // ---------------------------------------------------------------- choosing the next thread

  /** The lowest level from `q` on with a runnable thread. */
  function Top(lists: seq<seq<nat>>, q: nat): (r: nat)
    requires q <= LEVELS <= |lists|
    ensures q <= r <= LEVELS
    ensures forall j :: q <= j < r ==> lists[j] == []
    ensures r < LEVELS ==> lists[r] != []
    decreases LEVELS - q
  {
    if q == LEVELS || lists[q] != [] then q else Top(lists, q + 1)
  }

  predicate Runnable(s: Sys)
    requires Shape(s)
  {
    Top(s.lists, 0) < LEVELS
  }

  lemma RunnableThread(s: Sys, p: nat)
    requires Shape(s) && Placed(s.lists, s.home) && Dictated(s) && p < PIDS && s.status[p] >= RUNNING
    ensures Runnable(s) && Top(s.lists, 0) <= s.prio[p]
  {
  }

  /** The thread to run: the first one of the highest level that is not empty. */
  function Next(s: Sys): (n: nat)
    requires Shape(s) && Runnable(s)
  {
    s.lists[Top(s.lists, 0)][0]
  }

  function RunStatus(s: Sys, n: nat): (r: seq<nat>)
    requires Shape(s) && n < PIDS
    ensures |r| == PIDS
  {
    if n == s.active then s.status
    else (if s.active != 0 && s.status[s.active] == RUNNING then s.status[s.active := PENDING] else s.status)[n := RUNNING]
  }

  /** sched_run_internal without periodic threads. */
  function RunNext(s: Sys): Sys
    requires Shape(s) && Runnable(s) && Next(s) < PIDS
  {
    s.(status := RunStatus(s, Next(s)), active := Next(s), request := false)
  }

  lemma NextThread(s: Sys)
    requires Shape(s) && Placed(s.lists, s.home) && Dictated(s) && Runnable(s)
    ensures 0 < Next(s) < PIDS && s.status[Next(s)] >= RUNNING && s.prio[Next(s)] == Top(s.lists, 0)
  {
  }

  /** After a scheduling decision the running thread is the first one of its level and no runnable thread
      has a higher priority. */
  lemma RunNextSound(s: Sys)
    requires QueuesOk(s) && Runnable(s)
    ensures 0 < Next(s) < PIDS
    ensures var t := RunNext(s);
            && Sound(t) && t.active != 0 && t.status[t.active] >= RUNNING && t.lists == s.lists
            && t.lists[t.prio[t.active]][0] == t.active
            && forall p :: 0 <= p < PIDS && t.status[p] >= RUNNING ==> t.prio[t.active] <= t.prio[p]
  {
  }

  /** sched_yield: the running thread goes to the end of its run queue. */
  function Rotate(s: Sys): Sys
    requires Shape(s)
  {
    var q := s.prio[s.active];
    if s.active != 0 && s.status[s.active] >= RUNNING && s.lists[q] != [] then
      s.(lists := s.lists[q := s.lists[q][1..] + [s.lists[q][0]]])
    else s
  }

  lemma RotateQueues(s: Sys)
    requires QueuesOk(s)
    ensures QueuesOk(Rotate(s)) && (Runnable(s) ==> Runnable(Rotate(s)))
  {
    var q, t := s.prio[s.active], Rotate(s);
    if s.lists[q] != [] {
      RotatePlaced(s.lists, s.home, q);
    }
    if Runnable(s) {
      assert t.lists[Top(s.lists, 0)] != [];
    }
  }

  /** thread_yield_higher: sched_yield, then sched_run_internal. */
  function Yield(s: Sys): Sys
    requires Shape(s) && Runnable(Rotate(s)) && Next(Rotate(s)) < PIDS
  {
    RunNext(Rotate(s))
  }

  lemma YieldSound(s: Sys)
    requires QueuesOk(s) && Runnable(s)
    ensures Runnable(Rotate(s)) && 0 < Next(Rotate(s)) < PIDS
    ensures Sound(Yield(s)) && Yield(s).active != 0 && Yield(s).status[Yield(s).active] >= RUNNING
  {
    RotateQueues(s);
    RunNextSound(Rotate(s));
  }

  // ---------------------------------------------------------------- round robin

  /** The state after a yield of whatever thread is running. */
  predicate Yielded(s: Sys, t: Sys) {
    Shape(s) && Runnable(Rotate(s)) && Next(Rotate(s)) < PIDS && t == Yield(s)
  }

  /** States that follow each other by yields. */
  predicate YieldRun(run: seq<Sys>) {
    forall i :: 0 < i < |run| ==> Yielded(run[i - 1], run[i])
  }

  ghost predicate Leads(s: Sys, q: nat)
    requires Shape(s)
  {
    && q < LEVELS && s.active != 0 && s.status[s.active] >= RUNNING && s.prio[s.active] == q
    && Top(s.lists, 0) == q
  }

  lemma YieldTurns(s: Sys, t: Sys, q: nat)
    requires Sound(s) && Leads(s, q) && Yielded(s, t)
    ensures Sound(t) && Leads(t, q) && s.lists[q] != []
    ensures t.lists[q] == s.lists[q][1..] + [s.lists[q][0]] && t.active == t.lists[q][0]
  {
    YieldSound(s);
  }

  lemma YieldRotates(s: Sys, t: Sys, q: nat, l: seq<nat>, k: nat)
    requires Sound(s) && Leads(s, q) && Yielded(s, t) && k < |l| && s.lists[q] == Rotated(l, k)
    ensures Sound(t) && Leads(t, q) && t.lists[q] == Rotated(l, k + 1)
    ensures t.active == l[if k + 1 < |l| then k + 1 else 0]
  {
    YieldTurns(s, t, q);
    RotateOnce(l, k);
  }

  /** n yields among the n runnable threads of the highest level run each of them once, in queue order,
      and leave the queue as it was. */
  lemma {:induction false} RoundRobin(run: seq<Sys>, q: nat, k: nat)
    requires YieldRun(run) && k < |run| && Sound(run[0]) && Leads(run[0], q) && k <= |run[0].lists[q]|
    ensures Sound(run[k]) && Leads(run[k], q) && run[0].lists[q] != []
    ensures run[k].lists[q] == Rotated(run[0].lists[q], k)
    ensures run[k].active == run[0].lists[q][if k < |run[0].lists[q]| then k else 0]
  {
    var l := run[0].lists[q];
    if k == 0 {
      RotateAll(l);
    } else {
      RoundRobin(run, q, k - 1);
      YieldRotates(run[k - 1], run[k], q, l, k - 1);
    }
  }

  // ---------------------------------------------------------------- threads come and go

  datatype Creation = Created(pid: nat) | Overflow

  /** The first unused slot from `i` on. */
  function FreeSlot(used: seq<bool>, i: nat): (r: nat)
    requires i <= |used|
    ensures i <= r <= |used|
    ensures forall j :: i <= j < r ==> used[j]
    ensures r < |used| ==> !used[r]
    decreases |used| - i
  {
    if i == |used| || !used[i] then i else FreeSlot(used, i + 1)
  }

  /** _thread_create_scheduler_internal */
  function Create(s: Sys, prio: nat): (Sys, Creation)
    requires Shape(s) && prio < LEVELS && prio != PERIODIC_LEVEL
  {
    var p := FreeSlot(s.used, 1);
    if p == PIDS then (s, Overflow)
    else
      var t := s.(used := s.used[p := true], prio := s.prio[p := prio]);
      (SetStatus(t, p, PENDING), Created(p))
  }

  lemma CreateSound(s: Sys, prio: nat)
    requires Sound(s) && prio < LEVELS && prio != PERIODIC_LEVEL
    ensures Sound(Create(s, prio).0)
  {
    var p := FreeSlot(s.used, 1);
    if p < PIDS {
      var t := s.(used := s.used[p := true], prio := s.prio[p := prio]);
      assert Fits(s.status[p], s.prio[p], s.home[p]);
      assert forall x :: 0 <= x < PIDS ==> Fits(s.status[x], s.prio[x], s.home[x]);
      assert Sound(t);
      SetStatusSound(t, p, PENDING);
    }
  }

  /** sched_task_exit_internal and the scheduling decision that follows it. */
  function Exited(s: Sys): Sys
    requires Shape(s)
  {
    var t := SetStatus(s, s.active, STOPPED);
    t.(used := t.used[s.active := false], active := 0)
  }

  lemma ExitedQueues(s: Sys)
    requires Sound(s) && s.active != 0 && s.status[s.active] >= RUNNING
    ensures QueuesOk(Exited(s))
  {
  }

  /** thread_wakeup */
  function Wakeup(s: Sys, pid: int): Sys
    requires Shape(s)
  {
    if 1 <= pid < PIDS && s.status[pid] == SLEEPING then SetStatus(s, pid, RUNNING) else s
  }

  /** The timers of the threads `expired` fire, one after the other. */
  function Expire(s: Sys, expired: seq<nat>): (t: Sys)
    requires Shape(s) && forall i :: 0 <= i < |expired| ==> expired[i] < PIDS
    ensures Shape(t) && t.locked == s.locked
  {
    if expired == [] then s else SetStatus(Expire(s, expired[..|expired| - 1]), expired[|expired| - 1], PENDING)
  }

  /** A timer interrupt up to the scheduling decision, which is taken when one is asked for. */
  function Fired(s: Sys, expired: seq<nat>): (t: Sys)
    requires Shape(s) && forall i :: 0 <= i < |expired| ==> expired[i] < PIDS
    ensures Shape(t)
  {
    var t := Expire(s, expired);
    t.(request := s.request || expired != [])
  }

  /** A timer may fire for a thread that sleeps or can run, not for one that waits for a mutex or has ended. */
  predicate MayExpire(s: Sys, p: nat)
    requires Shape(s)
  {
    0 < p < PIDS && s.used[p] && s.status[p] != MUTEX_BLOCKED
  }

  lemma ExpireOne(s: Sys, p: nat)
    requires QueuesOk(s) && MayExpire(s, p)
    ensures var t := SetStatus(s, p, PENDING);
            QueuesOk(t) && t.used == s.used && t.status == s.status[p := PENDING]
  {
    SetStatusKeeps(s, p, PENDING);
  }

  lemma {:induction false} ExpireQueues(s: Sys, expired: seq<nat>)
    requires QueuesOk(s) && forall i :: 0 <= i < |expired| ==> MayExpire(s, expired[i])
    ensures forall i :: 0 <= i < |expired| ==> expired[i] < PIDS
    ensures var t := Expire(s, expired);
            && QueuesOk(t) && t.used == s.used
            && forall p :: 0 <= p < PIDS ==> t.status[p] == if p in expired then PENDING else s.status[p]
  {
    if expired != [] {
      var n := |expired| - 1;
      var rest, last := expired[..n], expired[n];
      ExpireQueues(s, rest);
      ExpireOne(Expire(s, rest), last);
      InLast(expired);
    }
  }

  /** Firing timers field by field, whatever the threads are doing: only run queues and the homes of threads
      that could not run are touched. */
  lemma {:induction false} ExpireFields(s: Sys, expired: seq<nat>)
    requires Shape(s) && forall i :: 0 <= i < |expired| ==> expired[i] < PIDS
    ensures var t := Expire(s, expired);
            && t.used == s.used && t.prio == s.prio && |t.lists| == |s.lists|
            && (forall l :: LEVELS <= l < |s.lists| ==> t.lists[l] == s.lists[l])
            && (forall p :: 0 <= p < PIDS ==> t.status[p] == if p in expired then PENDING else s.status[p])
            && (forall p :: 0 <= p < PIDS ==>
                  t.home[p] == if p in expired && s.status[p] < RUNNING then s.prio[p] else s.home[p])
  {
    if expired != [] {
      ExpireFields(s, expired[..|expired| - 1]);
      InLast(expired);
    }
  }

  /** The timers of any threads fire: the queues stay in order exactly when each of the threads has a slot in
      use and does not wait for a mutex. */
  lemma ExpireKeeps(s: Sys, expired: seq<nat>)
    requires QueuesOk(s) && forall i :: 0 <= i < |expired| ==> 0 < expired[i] < PIDS
    ensures QueuesOk(Expire(s, expired)) <==> forall i :: 0 <= i < |expired| ==> MayExpire(s, expired[i])
  {
    if i :| 0 <= i < |expired| && !MayExpire(s, expired[i]) {
      ExpireBreaks(s, expired, expired[i]);
    } else {
      ExpireQueues(s, expired);
    }
  }

  lemma ExpireBreaks(s: Sys, expired: seq<nat>, p: nat)
    requires QueuesOk(s) && forall i :: 0 <= i < |expired| ==> expired[i] < PIDS
    requires p in expired && 0 < p < PIDS && !MayExpire(s, p)
    ensures !QueuesOk(Expire(s, expired))
  {
    var t := Expire(s, expired);
    ExpireFields(s, expired);
    assert Fits(s.status[p], s.prio[p], s.home[p]);
    if s.used[p] {
      StaleEntry(t, p, s.home[p]);
    } else {
      assert !t.used[p] && t.status[p] == PENDING;
    }
  }

  /** Thread 1 runs and holds a mutex for which thread 2 waits. */
  function Contended(): Sys {
    var status := seq(PIDS, i => if i == 1 then RUNNING else if i == 2 then MUTEX_BLOCKED else STOPPED);
    var home := seq(PIDS, i => if i == 1 then 0 else if i == 2 then LEVELS else -1);
    Sys(seq(PIDS, i => i == 1 || i == 2), status, seq(PIDS, i => 0), home,
        seq(LEVELS + 1, i => if i == 0 then [1] else if i == LEVELS then [2] else []), [true], [{1}], 1, false)
  }

  lemma ContendedQueues()
    ensures Sound(Contended())
  {
    var s := Contended();
    assert s.lists[0][0] == 1 && s.lists[LEVELS][0] == 2;
    assert Owned(s.locked[0], s.holders[0], s.lists[LEVELS]);
  }

  /** There the timer of thread 2 fires: its link is on two lists. */
  lemma ExpireFails(s: Sys)
    requires s == Contended()
    ensures Sound(s) && s.holders == [{1}] && s.lists[0] == [1] && s.lists[LEVELS] == [2]
    ensures Expire(s, [2]).lists[0] == [1, 2] && Expire(s, [2]).lists[LEVELS] == [2] && !QueuesOk(Expire(s, [2]))
  {
    ContendedQueues();
    assert [2][..0] == [];
    assert Expire(s, [2]) == SetStatus(s, 2, PENDING);
    OutOfWait(s, 2, PENDING);
  }

  /** There the timer of thread 3 fires, which has ended: a slot that is not in use is on a run queue. */
  lemma ExpireEnded(s: Sys)
    requires s == Contended()
    ensures !s.used[3] && Expire(s, [3]).lists[0] == [1, 3] && !QueuesOk(Expire(s, [3]))
  {
    assert [3][..0] == [];
    assert Expire(s, [3]) == SetStatus(s, 3, PENDING);
    ContendedQueues();
    SetStatusKeeps(s, 3, PENDING);
  }

  /** sched_switch_internal_allow_yield: asks for a switch when the other thread is of higher priority. */
  function Request(s: Sys, prio: nat): Sys
    requires Shape(s)
  {
    var wanted := s.status[s.active] < RUNNING || s.prio[s.active] > prio;
    s.(request := s.request || wanted)
  }
}
