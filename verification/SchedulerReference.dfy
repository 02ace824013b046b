/** The reference for the entries of the kernel is complete: it leaves nothing open, so that the steps of the
    scheduler are the only ones that meet it. */
module SchedulerReference {
  import opened Mutexes
  import opened Scheduling
  import opened SchedulerEffects
  import opened SchedulerRuns
  import opened WaitOrder

  /** The same but for the homes, which only repeat what the lists say. */
  predicate Alike(t: Sys, u: Sys) {
    t == u.(home := t.home)
  }

  lemma GetsOnce(s: Sys, s': Sys, t: Sys, t': Sys, p: nat, st: nat)
    requires Shape(s) && Shape(s') && Alike(s, s') && p < PIDS && Gets(s, t, p, st) && Gets(s', t', p, st)
    ensures Alike(t, t')
  {
    ListsOnce(s.lists, t.lists, t'.lists, s.prio[p], s.prio[p]);
  }

  /** Lists that agree at two places and elsewhere with the same lists agree. */
  lemma ListsOnce(a: seq<seq<nat>>, b: seq<seq<nat>>, b': seq<seq<nat>>, k: nat, l: nat)
    ensures Elsewhere(a, b, k, l) && Elsewhere(a, b', k, l) && b[k] == b'[k] && b[l] == b'[l] ==> b == b'
    ensures forall x, r: seq<nat>, r': seq<nat> {:trigger [x] + r, [x] + r'} :: [x] + r == [x] + r' ==> r == r'
  {
    forall x, r: seq<nat>, r': seq<nat> | [x] + r == [x] + r' ensures r == r' {
      assert ([x] + r)[1..] == r && ([x] + r')[1..] == r';
    }
  }

  lemma DecidesOnce(s: Sys, s': Sys, t: Sys, t': Sys)
    requires Shape(s) && Shape(s') && Alike(s, s') && Decides(s, t) && Decides(s', t') && t.lists == t'.lists
    ensures Alike(t, t')
  {
    assert t.active == t'.active;
    assert t.status == t'.status;
  }

  lemma YieldsOnce(s: Sys, s': Sys, t: Sys, t': Sys)
    requires Shape(s) && Shape(s') && Alike(s, s') && Yields(s, t) && Yields(s', t')
    ensures Alike(t, t')
  {
    ListsOnce(s.lists, t.lists, t'.lists, s.prio[s.active], s.prio[s.active]);
    DecidesOnce(s, s', t, t');
  }

  lemma AppearsOnce(s: Sys, t: Sys, t': Sys, p: nat, p': nat, prio: nat)
    requires Shape(s) && Appears(s, t, p, prio) && Appears(s, t', p', prio)
    ensures Alike(t, t')
  {
    ListsOnce(s.lists, t.lists, t'.lists, prio, prio);
  }

  lemma DisappearsOnce(s: Sys, t: Sys, t': Sys)
    requires Shape(s) && Disappears(s, t) && Disappears(s, t')
    ensures Alike(t, t')
  {
    ListsOnce(s.lists, t.lists, t'.lists, s.prio[s.active], s.prio[s.active]);
  }

  lemma FiresOnce(s: Sys, expired: seq<nat>, t: Sys, t': Sys)
    requires Shape(s) && forall i :: 0 <= i < |expired| ==> expired[i] < PIDS
    requires Fires(s, expired, t) && Fires(s, expired, t')
    ensures Alike(t, t')
  {
    assert t.status == t'.status && t.lists == t'.lists;
  }

  lemma BlocksOnce(s: Sys, m: nat, t: Sys, t': Sys)
    requires Knows(s, m) && Blocks(s, m, t) && Blocks(s, m, t')
    ensures Alike(t, t')
  {
    ListsOnce(s.lists, t.lists, t'.lists, s.prio[s.active], LEVELS + m);
  }

  lemma FreesOnce(s: Sys, m: nat, t: Sys, prio: nat, t': Sys, prio': nat)
    requires Knows(s, m) && InTable(s.prio, Waiting(s, m)) && Frees(s, m, t, prio) && Frees(s, m, t', prio')
    ensures Alike(t, t') && prio == prio'
  {
    if s.locked[m] && Waiting(s, m) != [] {
      var a := Waiting(s, m);
      var k: nat :| Foremost(s.prio, a, k) && Passes(s, m, k, t) && prio == s.prio[a[k]];
      var k': nat :| Foremost(s.prio, a, k') && Passes(s, m, k', t') && prio' == s.prio[a[k']];
      assert k == k';
      ListsOnce(s.lists, t.lists, t'.lists, prio, LEVELS + m);
    }
  }

  lemma CreateOnce(s: Sys, prio: nat, t: Sys, t': Sys)
    requires Shape(s) && Creates(s, prio, t) && Creates(s, prio, t')
    ensures Alike(t, t')
  {
    if j :| 0 < j < PIDS && !s.used[j] {
      var p :| Appears(s, t, p, prio);
      var p' :| Appears(s, t', p', prio);
      AppearsOnce(s, t, t', p, p', prio);
    }
  }

  lemma ExitOnce(s: Sys, t: Sys, t': Sys)
    requires Shape(s) && Exits(s, t) && Exits(s, t')
    ensures Alike(t, t')
  {
    var u :| Shape(u) && Disappears(s, u) && Yields(u, t);
    var u' :| Shape(u') && Disappears(s, u') && Yields(u', t');
    DisappearsOnce(s, u, u');
    YieldsOnce(u, u', t, t');
  }

  lemma SettlesOnce(u: Sys, u': Sys, t: Sys, t': Sys)
    requires Shape(u) && Shape(u') && Alike(u, u') && Settles(u, t) && Settles(u', t')
    ensures Alike(t, t')
  {
    if u.request {
      DecidesOnce(u, u', t, t');
    }
  }

  lemma InterruptOnce(s: Sys, expired: seq<nat>, t: Sys, t': Sys)
    requires Shape(s) && forall i :: 0 <= i < |expired| ==> expired[i] < PIDS
    requires Interrupts(s, expired, t) && Interrupts(s, expired, t')
    ensures Alike(t, t')
  {
    var u :| Shape(u) && Fires(s, expired, u) && Settles(u, t);
    var u' :| Shape(u') && Fires(s, expired, u') && Settles(u', t');
    FiresOnce(s, expired, u, u');
    SettlesOnce(u, u', t, t');
  }

  lemma LockOnce(s: Sys, m: nat, t: Sys, t': Sys)
    requires Knows(s, m) && Locks(s, m, t) && Locks(s, m, t')
    ensures Alike(t, t')
  {
    if s.locked[m] {
      var u :| Shape(u) && Blocks(s, m, u) && Yields(u, t);
      var u' :| Shape(u') && Blocks(s, m, u') && Yields(u', t');
      BlocksOnce(s, m, u, u');
      YieldsOnce(u, u', t, t');
    }
  }

  lemma UnlockOnce(s: Sys, m: nat, t: Sys, t': Sys)
    requires Knows(s, m) && InTable(s.prio, Waiting(s, m)) && Unlocks(s, m, t) && Unlocks(s, m, t')
    ensures Alike(t, t')
  {
    var u, prio :| Frees(s, m, u, prio) && t == u.(request := s.request || prio < s.prio[s.active]);
    var u', prio' :| Frees(s, m, u', prio') && t' == u'.(request := s.request || prio' < s.prio[s.active]);
    FreesOnce(s, m, u, prio, u', prio');
  }

  lemma GivenUpOnce(s: Sys, m: nat, t: Sys, t': Sys)
    requires Knows(s, m) && InTable(s.prio, Waiting(s, m)) && GivesUp(s, m, t) && GivesUp(s, m, t')
    ensures Alike(t, t')
  {
    var u, prio, v :| Naps(s, m, u, prio, v) && Yields(v, t);
    var u', prio', v' :| Naps(s, m, u', prio', v') && Yields(v', t');
    FreesOnce(s, m, u, prio, u', prio');
    GetsOnce(u, u', v, v', s.active, SLEEPING);
    YieldsOnce(v, v', t, t');
  }

  /** Whatever does what the reference says of an entry is that entry. */
  lemma DoesOnce(s: Sys, op: Op, t: Sys, t': Sys)
    requires Shape(s) && Legal(s, op) && Does(s, op, t) && Does(s, op, t')
    ensures Alike(t, t')
  {
    match op
    case Create(prio) => CreateOnce(s, prio, t, t');
    case Exit => ExitOnce(s, t, t');
    case Yield => YieldsOnce(s, s, t, t');
    case Sleep => GetsOnce(s, s, t, t', s.active, SLEEPING);
    case Wakeup(pid) =>
      if 1 <= pid < PIDS && s.status[pid] == SLEEPING {
        GetsOnce(s, s, t, t', pid, RUNNING);
      }
    case Interrupt(expired) => InterruptOnce(s, expired, t, t');
    case Lock(m) => LockOnce(s, m, t, t');
    case TryLock(m) =>
    case Unlock(m) => UnlockOnce(s, m, t, t');
    case UnlockAndSleep(m) => GivenUpOnce(s, m, t, t');
  }

  /** The step of an entry is the one state, up to the homes, that the reference allows. */
  lemma StepIsOnly(s: Sys, op: Op, t: Sys)
    requires Sound(s) && Legal(s, op)
    ensures Does(s, op, Step(s, op))
    ensures Does(s, op, t) ==> Alike(t, Step(s, op))
  {
    StepDoes(s, op);
    if Does(s, op, t) {
      DoesOnce(s, op, t, Step(s, op));
    }
  }
}
