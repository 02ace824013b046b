/** Mutexes on top of the scheduler: locking, handing over, and the steps of a whole run. */
module Mutexes {
  import opened Scheduling
  import opened Sequences
  import opened WaitOrder

  predicate Knows(s: Sys, m: nat) {
    Shape(s) && m < |s.locked|
  }

  /** The threads waiting for mutex `m`, in order of arrival. */
  function Waiting(s: Sys, m: nat): seq<nat>
    requires Knows(s, m)
  {
    s.lists[LEVELS + m]
  }

  lemma WaitingInTable(s: Sys, m: nat)
    requires QueuesOk(s) && Knows(s, m)
    ensures InTable(s.prio, Waiting(s, m))
    ensures forall i :: 0 <= i < |Waiting(s, m)| ==> WaitsFor(s, m, Waiting(s, m)[i])
  {
  }

  predicate WaitsFor(s: Sys, m: nat, p: nat)
    requires Shape(s)
  {
    0 < p < PIDS && s.home[p] == LEVELS + m && s.status[p] == MUTEX_BLOCKED && s.used[p]
  }

  // ---------------------------------------------------------------- locking

  /** The caller takes the mutex, whoever else may have it. */
  function Acquire(s: Sys, m: nat): Sys
    requires Knows(s, m)
  {
    s.(locked := s.locked[m := true], holders := s.holders[m := s.holders[m] + {s.active}])
  }

  /** Taking a mutex keeps the invariant if it was free; then the caller is its only holder. */
  lemma AcquireSound(s: Sys, m: nat)
    requires Sound(s) && Knows(s, m) && !s.locked[m]
    ensures Sound(Acquire(s, m)) && Acquire(s, m).holders[m] == {s.active}
  {
    assert Owned(s.locked[m], s.holders[m], s.lists[LEVELS + m]);
  }

  /** Taking a mutex that another thread holds would break the invariant. */
  lemma AcquireHeld(s: Sys, m: nat)
    requires Sound(s) && Knows(s, m) && s.locked[m] && s.active !in s.holders[m]
    ensures |Acquire(s, m).holders[m]| == 2 && !Sound(Acquire(s, m))
  {
    assert Owned(s.locked[m], s.holders[m], s.lists[LEVELS + m]);
    var h :| s.holders[m] == {h};
    assert Acquire(s, m).holders[m] == {h, s.active};
    assert !Owned(true, {h, s.active}, s.lists[LEVELS + m]) by {
      assert |{h, s.active}| == 2;
    }
  }

  /** The running thread stops and queues up for `m`. */
  function Block(s: Sys, m: nat): Sys
    requires Knows(s, m)
  {
    var t := SetStatus(s, s.active, MUTEX_BLOCKED);
    t.(home := t.home[s.active := LEVELS + m], lists := t.lists[LEVELS + m := t.lists[LEVELS + m] + [s.active]])
  }

  lemma BlockQueues(s: Sys, m: nat)
    requires Sound(s) && Knows(s, m) && s.locked[m] && s.active != 0 && s.status[s.active] >= RUNNING
    ensures QueuesOk(Block(s, m)) && s.active !in Waiting(s, m)
    ensures Waiting(Block(s, m), m) == Waiting(s, m) + [s.active] && Block(s, m).locked == s.locked
  {
    var t := SetStatus(s, s.active, MUTEX_BLOCKED);
    assert Fits(s.status[s.active], s.prio[s.active], s.home[s.active]);
    SetStatusPlaced(s, s.active, MUTEX_BLOCKED);
    assert forall p :: 0 <= p < PIDS ==> Fits(s.status[p], s.prio[p], s.home[p]);
    WaitingInTable(s, m);
    assert t.home[s.active] == -1;
    AddPlaced(t.lists, t.home, LEVELS + m, s.active);
  }

  // ---------------------------------------------------------------- unlocking

  /** The waiter that gets the mutex: highest priority, the earliest among equals. */
  function Waiter(s: Sys, m: nat): nat
    requires Knows(s, m) && Waiting(s, m) != [] && InTable(s.prio, Waiting(s, m))
  {
    Waiting(s, m)[Best(s.prio, Waiting(s, m))]
  }

  /** `m` after the best waiter was taken off its queue and made its holder. */
  function Picked(s: Sys, m: nat): (t: Sys)
    requires Knows(s, m) && Waiting(s, m) != [] && InTable(s.prio, Waiting(s, m))
    ensures Shape(t) && t.prio == s.prio && t.locked == s.locked
  {
    var l, k := Waiting(s, m), Best(s.prio, Waiting(s, m));
    s.(home := s.home[l[k] := -1], lists := s.lists[LEVELS + m := Without(l, k)],
       holders := s.holders[m := s.holders[m] - {s.active} + {l[k]}])
  }

  function HandOver(s: Sys, m: nat): Sys
    requires Knows(s, m) && Waiting(s, m) != [] && InTable(s.prio, Waiting(s, m))
  {
    SetStatus(Picked(s, m), Waiter(s, m), PENDING)
  }

  /** A thread that is on no list becomes runnable. */
  lemma WakeSound(t: Sys, p: nat)
    requires Shape(t) && Placed(t.lists, t.home) && 0 < p < PIDS && t.used[p] && t.home[p] < 0 && t.status[p] < RUNNING
    requires forall x :: 0 <= x < PIDS && x != p ==>
               Fits(t.status[x], t.prio[x], t.home[x]) && (!t.used[x] ==> t.status[x] == STOPPED)
    requires forall m :: 0 <= m < |t.locked| ==> Owned(t.locked[m], t.holders[m], t.lists[LEVELS + m])
    requires ActiveFirst(t) && t.active != p
    ensures Sound(SetStatus(t, p, PENDING))
  {
  }

  /** A mutex may be unlocked by its holder, and by another thread when it is free or when it is the holder
      itself, having locked the mutex twice, that is served next. */
  predicate Releasable(s: Sys, m: nat)
    requires Knows(s, m)
  {
    s.locked[m] ==>
      || s.active in s.holders[m]
      || (Waiting(s, m) != [] && InTable(s.prio, Waiting(s, m)) && Waiter(s, m) in s.holders[m])
  }

  lemma PickedPlaced(s: Sys, m: nat)
    requires QueuesOk(s) && Knows(s, m) && Waiting(s, m) != []
    ensures InTable(s.prio, Waiting(s, m)) && WaitsFor(s, m, Waiter(s, m))
    ensures Placed(Picked(s, m).lists, Picked(s, m).home) && Picked(s, m).home[Waiter(s, m)] < 0
  {
    WaitingInTable(s, m);
    var k := Best(s.prio, Waiting(s, m));
    assert WaitsFor(s, m, Waiting(s, m)[k]);
    RemovePlaced(s.lists, s.home, LEVELS + m, k);
  }

  lemma Passed(h: nat, a: nat, w: nat)
    ensures if h == a || h == w then {h} - {a} + {w} == {w} else {h} - {a} + {w} == {h, w} && |{h, w}| == 2
  {
  }

  /** Who holds the mutex afterwards: the waiter, and whoever else held it and did not unlock it. */
  lemma PickedHolders(s: Sys, m: nat)
    requires QueuesOk(s) && Knows(s, m) && Waiting(s, m) != [] && InTable(s.prio, Waiting(s, m))
    ensures Releasable(s, m) ==> Picked(s, m).holders[m] == {Waiter(s, m)}
    ensures !Releasable(s, m) ==> |Picked(s, m).holders[m]| == 2
  {
    assert Owned(s.locked[m], s.holders[m], s.lists[LEVELS + m]);
    var h :| s.holders[m] == {h};
    Passed(h, s.active, Waiter(s, m));
  }

  lemma PickedQueues(s: Sys, m: nat)
    requires Sound(s) && Knows(s, m) && Waiting(s, m) != [] && Releasable(s, m)
    ensures InTable(s.prio, Waiting(s, m)) && WaitsFor(s, m, Waiter(s, m))
    ensures var t := Picked(s, m);
            && Shape(t) && Placed(t.lists, t.home) && t.holders[m] == {Waiter(s, m)}
            && forall j :: 0 <= j < |t.locked| ==> Owned(t.locked[j], t.holders[j], t.lists[LEVELS + j])
  {
    PickedPlaced(s, m);
    PickedHolders(s, m);
    var t := Picked(s, m);
    forall j | 0 <= j < |t.locked| ensures Owned(t.locked[j], t.holders[j], t.lists[LEVELS + j]) {
      assert Owned(s.locked[j], s.holders[j], s.lists[LEVELS + j]);
    }
  }

  lemma PickedRest(s: Sys, m: nat)
    requires Sound(s) && Knows(s, m) && Waiting(s, m) != [] && InTable(s.prio, Waiting(s, m))
    ensures var t := Picked(s, m);
            forall x :: 0 <= x < PIDS && x != Waiter(s, m) ==>
              Fits(t.status[x], t.prio[x], t.home[x]) && (!t.used[x] ==> t.status[x] == STOPPED)
  {
  }

  /** Handing over: the waiter of the highest priority that came first becomes the only holder and is
      runnable again; the other waiters keep their order. */
  lemma HandOverSound(s: Sys, m: nat)
    requires Sound(s) && Knows(s, m) && Waiting(s, m) != [] && Releasable(s, m)
    requires s.active != 0 && s.status[s.active] >= RUNNING
    ensures InTable(s.prio, Waiting(s, m)) && WaitsFor(s, m, Waiter(s, m))
    ensures var t, w := HandOver(s, m), Waiter(s, m);
            && Sound(t) && t.locked == s.locked && t.holders[m] == {w} && t.status == s.status[w := PENDING]
            && t.lists == s.lists[LEVELS + m := Without(Waiting(s, m), Best(s.prio, Waiting(s, m)))]
                                 [s.prio[w] := s.lists[s.prio[w]] + [w]]
  {
    PickedQueues(s, m);
    PickedRest(s, m);
    WakeSound(Picked(s, m), Waiter(s, m));
  }

  /** What both unlocking operations do to the mutex. */
  function Release(s: Sys, m: nat): (t: Sys)
    requires Knows(s, m) && InTable(s.prio, Waiting(s, m))
    ensures Shape(t) && t.active == s.active
  {
    if !s.locked[m] then s
    else if Waiting(s, m) == [] then
      s.(locked := s.locked[m := false], holders := s.holders[m := s.holders[m] - {s.active}])
    else HandOver(s, m)
  }

  lemma ReleaseSound(s: Sys, m: nat)
    requires Sound(s) && Knows(s, m) && Releasable(s, m)
    requires s.active != 0 && s.status[s.active] >= RUNNING
    ensures InTable(s.prio, Waiting(s, m)) && Sound(Release(s, m))
    ensures Release(s, m).active == s.active && Release(s, m).status[s.active] == s.status[s.active]
  {
    WaitingInTable(s, m);
    if s.locked[m] {
      if Waiting(s, m) == [] {
        assert Owned(s.locked[m], s.holders[m], s.lists[LEVELS + m]);
        assert Release(s, m).holders[m] == {};
      } else {
        HandOverSound(s, m);
      }
    }
  }

  /** Unlocking, by any thread, keeps the invariant exactly when the mutex may be unlocked; otherwise the
      old holder has not given it back when it is free or has another holder. */
  lemma ReleaseKeeps(s: Sys, m: nat)
    requires Sound(s) && Knows(s, m) && s.active != 0 && s.status[s.active] >= RUNNING
    ensures InTable(s.prio, Waiting(s, m)) && (Sound(Release(s, m)) <==> Releasable(s, m))
  {
    WaitingInTable(s, m);
    if Releasable(s, m) {
      ReleaseSound(s, m);
    } else {
      ReleaseBreaks(s, m);
    }
  }

  lemma ReleaseBreaks(s: Sys, m: nat)
    requires Sound(s) && Knows(s, m) && InTable(s.prio, Waiting(s, m)) && !Releasable(s, m)
    ensures !Sound(Release(s, m))
  {
    var t := Release(s, m);
    assert Owned(s.locked[m], s.holders[m], s.lists[LEVELS + m]);
    if Waiting(s, m) == [] {
      assert t.holders[m] == s.holders[m] != {};
    } else {
      PickedHolders(s, m);
    }
    assert !Owned(t.locked[m], t.holders[m], t.lists[LEVELS + m]);
  }

  /** Thread 1 holds a mutex nobody waits for and thread 2 unlocks it: the mutex is free for thread 2 to take
      although thread 1 has not given it back. */
  lemma ReleaseFails() returns (s: Sys)
    ensures Sound(s) && s.locked == [true] && s.holders == [{1}] && s.active == 2 && s.status[2] == RUNNING
    ensures Waiting(s, 0) == [] && !Release(s, 0).locked[0] && Acquire(Release(s, 0), 0).holders[0] == {1, 2}
    ensures !Sound(Release(s, 0))
  {
    var status := seq(PIDS, i => if i == 1 then PENDING else if i == 2 then RUNNING else STOPPED);
    var home := seq(PIDS, i => if i == 1 || i == 2 then 0 else -1);
    s := Sys(seq(PIDS, i => i == 1 || i == 2), status, seq(PIDS, i => 0), home,
             seq(LEVELS + 1, i => if i == 0 then [2, 1] else []), [true], [{1}], 2, false);
    assert s.lists[0][0] == 2 && s.lists[0][1] == 1;
    assert Owned(s.locked[0], s.holders[0], s.lists[LEVELS]);
    ReleaseBreaks(s, 0);
  }

  /** mutex_unlock: a switch is asked for when the waiter served is of higher priority. */
  function Unlock(s: Sys, m: nat): Sys
    requires Knows(s, m) && InTable(s.prio, Waiting(s, m))
  {
    if s.locked[m] && Waiting(s, m) != [] then Request(Release(s, m), s.prio[Waiter(s, m)]) else Release(s, m)
  }

  /** mutex_unlock_and_sleep up to the final yield. */
  function UnlockToSleep(s: Sys, m: nat): (t: Sys)
    requires Knows(s, m) && InTable(s.prio, Waiting(s, m))
    ensures Shape(t)
  {
    SetStatus(Release(s, m), s.active, SLEEPING)
  }
}
