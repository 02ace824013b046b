/** The timer multiplexer as it runs: timer records linked through a table, three list heads and the
    two software counters. The hardware counter is an argument wherever it is read. */
module Multiplexer {
  import opened KeyedLists
  import opened LinkedChains
  import opened Sequences
  import opened Timers
  import opened WaitOrder

  /** The test of _add_timer_to_long_list; it compares 64-bit deadlines half by half. */
  function ByDeadline(target: seq<nat>, longTarget: seq<nat>, t: nat): (stays: nat --> bool)
    requires |target| == |longTarget| && t < |target| && forall x :: 0 <= x < |target| ==> target[x] < WORD32
    ensures forall key :: |key| == |target| && (forall x :: 0 <= x < |key| ==> key[x] == longTarget[x] * WORD32 + target[x]) ==>
              Compares(stays, key, key[t])
  {
    (x: nat) requires x < |target| => longTarget[x] < longTarget[t] || (longTarget[x] == longTarget[t] && target[x] <= target[t])
  }

  /** The timer lists and the clock. */
  class Lists {
    // the timer records
    var target: seq<nat>
    var longTarget: seq<nat>
    var next: seq<nat>
    // list heads, 0 for NULL
    var timerList: nat
    var overflowList: nat
    var longList: nat
    var highCnt: nat
    var longCnt: nat
    ghost var state: State

    ghost predicate Shows(l: seq<nat>, head: nat)
      reads this
    {
      head == First(l) && Linked(next, l)
    }

    /** The fields and links show the abstract state. */
    ghost predicate Shown()
      reads this
    {
      && Shape(state) && |next| == |target|
      && target == state.target && longTarget == state.longTarget && highCnt == state.high && longCnt == state.longCnt
      && Shows(state.current, timerList) && Shows(state.overflow, overflowList) && Shows(state.long, longList)
    }

    ghost predicate Valid()
      reads this
    {
      Shown() && Sound(state)
    }

    constructor (timers: nat)
      ensures Valid() && state == Initial(timers)
    {
      target, longTarget, next := seq(timers + 1, i => 0), seq(timers + 1, i => 0), seq(timers + 1, i => 0);
      timerList, overflowList, longList, highCnt, longCnt := 0, 0, 0, 0, 0;
      state := Initial(timers);
      new;
      InitialSound(timers);
    }

    /** _secure_mintimer_now64 */
    method Now64(ll: nat) returns (now: nat)
      requires Valid() && ll < PERIOD
      ensures now == PeriodStart(state) + ll
    {
      now := longCnt * WORD32 + (highCnt + ll);
    }

    /** _remove_timer_from_list: whether the timer was found, and the new head */
    method RemoveFrom(head0: nat, t: nat, ghost l: seq<nat>) returns (found: bool, head: nat)
      requires head0 == First(l) && Linked(next, l) && Distinct(l)
      modifies this`next
      ensures |next| == |old(next)| && forall x :: 0 <= x < |next| && x !in l ==> next[x] == old(next)[x]
      ensures found <==> IndexOf(l, t) < |l|
      ensures head == First(Dropped(l, t)) && Linked(next, Dropped(l, t))
      ensures !found ==> next == old(next)
    {
      var prev, cur := 0, head0;
      ghost var k := 0;
      assert l != [] ==> ChainAt(next, l, 0);
      while cur != 0 && cur != t
        invariant k <= |l| && cur == (if k < |l| then l[k] else 0) && prev == (if k > 0 then l[k - 1] else 0)
        invariant (k < |l| ==> cur != 0) && (k > 0 ==> 0 < prev < |next|)
        invariant forall i :: 0 <= i < k ==> l[i] != t
        decreases |l| - k
      {
        assert ChainAt(next, l, k);
        prev, cur, k := cur, next[cur], k + 1;
        assert k < |l| ==> ChainAt(next, l, k);
      }
      IndexIs(l, t, k);
      found, head := cur != 0, head0;
      if found {
        ghost var next0 := next;
        assert ChainAt(next, l, k);
        if prev == 0 {
          head := next[cur];
        } else {
          next := next[prev := next[cur]];
        }
        LinkedWithout(next0, next, l, k);
      }
    }

    /** What the lists of a sound state have to do with each other. */
    lemma Disjoint()
      requires Sound(state)
      ensures forall i :: 0 <= i < |state.long| ==> state.long[i] !in state.current
      ensures forall i :: 0 <= i < |state.current| ==> state.current[i] !in state.long
    {
    }

    /** _remove: the timer is taken off the list it is on. */
    method Unlink(t: nat)
      requires Valid() && 0 < t < |target| && IsSet(state, t)
      modifies this`next, this`timerList, this`overflowList, this`longList
      ensures |next| == |target|
      ensures Shows(Dropped(state.current, t), timerList) && Shows([], overflowList) && Shows(Dropped(state.long, t), longList)
    {
      ghost var next0 := next;
      Disjoint();
      if timerList == t {
        LinkedRest(next, state.current);
        IndexIs(state.current, t, 0);
        assert t in state.current;
        NotListed(state.long, t);
        assert Without(state.current, 0) == state.current[1..];
        timerList := next[t];
      } else {
        var found;
        found, timerList := RemoveFrom(timerList, t, state.current);
        if found {
          LinkedApart(next0, next, state.current, 0, state.long);
          assert state.current[IndexOf(state.current, t)] == t;
          NotListed(state.long, t);
        } else {
          found, overflowList := RemoveFrom(overflowList, t, state.overflow);
          if !found {
            found, longList := RemoveFrom(longList, t, state.long);
          }
          LinkedApart(next0, next, state.long, 0, state.current);
        }
      }
    }

    /** The timer is unlinked and marked as not armed. */
    method Disarm(t: nat)
      requires Valid() && 0 < t < |target| && IsSet(state, t)
      modifies this`next, this`timerList, this`overflowList, this`longList, this`target, this`longTarget
      ensures var r := Timers.Remove(state, t);
              && |next| == |target| && target == r.target && longTarget == r.longTarget
              && Shows(r.current, timerList) && Shows(r.overflow, overflowList) && Shows(r.long, longList)
    {
      Unlink(t);
      target := target[t := 0];
      longTarget := longTarget[t := 0];
    }

    /** secure_mintimer_remove */
    method Remove(t: nat)
      requires Valid() && 0 < t < |target|
      modifies this
      ensures Valid() && state == Timers.Remove(old(state), t)
    {
      RemoveSound(state, t);
      if target[t] != 0 || longTarget[t] != 0 {
        Disarm(t);
        state := Timers.Remove(state, t);
      }
    }

    /** Takes the first timer off the current list and marks it as fired. */
    method PopHead() returns (timer: nat)
      requires Valid() && state.current != []
      modifies this`timerList, this`target, this`longTarget
      ensures var r := Expire(state);
              && timer == state.current[0] && target == r.target && longTarget == r.longTarget
              && Shows(r.current, timerList) && Shows(r.overflow, overflowList) && Shows(r.long, longList)
    {
      LinkedRest(next, state.current);
      timer := timerList;
      timerList := next[timer];
      target := target[timer := 0];
      longTarget := longTarget[timer := 0];
    }

    /** The first timer of the current list fires (_timer_callback). */
    method Fire() returns (timer: nat)
      requires Valid() && state.current != []
      modifies this
      ensures Valid() && timer == old(state).current[0] && state == Expire(old(state))
    {
      ExpireSound(state);
      timer := PopHead();
      state := Expire(state);
    }

    /** The lists of `s` are linked, `m` holds the stored targets and timer `t` is on no list. */
    ghost predicate Ready(s: State, m: State, t: nat)
      reads this
    {
      && Shape(m) && |next| == |target| == |m.target| && target == m.target && longTarget == m.longTarget
      && Shows(s.current, timerList) && Shows([], overflowList) && Shows(s.long, longList)
      && InTable(m.target, s.current) && InTable(m.target, s.long) && Distinct(s.current) && Distinct(s.long)
      && (forall i :: 0 <= i < |s.long| ==> s.long[i] !in s.current)
      && (forall i :: 0 <= i < |s.current| ==> s.current[i] !in s.long)
      && 0 < t < |m.target| && t !in s.current && t !in s.long
    }

    method EnlistLong(t: nat, ghost s: State, ghost m: State)
      requires Ready(s, m, t)
      modifies this`next, this`longList
      ensures |next| == |target|
      ensures Shows(s.current, timerList) && Shows([], overflowList) && Shows(Enter(Deadlines(m), s.long, t), longList)
    {
      ghost var next0 := next;
      next, longList := AddToList(next, longList, ByDeadline(target, longTarget, t), t, Deadlines(m), s.long);
      LinkedApart(next0, next, s.long, t, s.current);
    }

    method EnlistCurrent(t: nat, ghost s: State, ghost m: State)
      requires Ready(s, m, t)
      modifies this`next, this`timerList
      ensures |next| == |target|
      ensures Shows(Enter(m.target, s.current, t), timerList) && Shows([], overflowList) && Shows(s.long, longList)
    {
      ghost var next0 := next;
      next, timerList := AddToList(next, timerList, NotAfter(target, t), t, m.target, s.current);
      LinkedApart(next0, next, s.current, t, s.long);
    }

    method EnlistOverflow(t: nat, ghost s: State, ghost m: State)
      requires Ready(s, m, t)
      modifies this`next, this`overflowList
      ensures |next| == |target|
      ensures Shows(s.current, timerList) && Shows(Enter(m.target, [], t), overflowList) && Shows(s.long, longList)
    {
      ghost var next0 := next;
      next, overflowList := AddToList(next, overflowList, NotAfter(target, t), t, m.target, []);
      LinkedApart(next0, next, [], t, s.current);
      LinkedApart(next0, next, [], t, s.long);
    }

    /** _secure_mintimer_set_absolute_explicit, once the target and the long target are stored */
    method Enlist(t: nat, early: nat, now: nat, ghost s: State, ghost ll: nat)
      requires Shape(s) && InTables(s) && 0 < t < |s.target| == |target| && target[t] < WORD32 && s.overflow == []
      requires early == Early(target[t]) && now == Now(s, ll) && longCnt == s.longCnt && highCnt == s.high
      requires Ready(s, Marked(s, t, target[t], ll), t)
      modifies this`next, this`timerList, this`overflowList, this`longList, this`state
      ensures Shown() && state == Insert(s, t, target[t], ll)
    {
      ghost var m, r := Marked(s, t, target[t], ll), Insert(s, t, target[t], ll);
      assert m.longTarget[t] == LongFor(s.longCnt, target[t], now);
      if longTarget[t] > longCnt || HighPart(early) != highCnt {
        assert ListFor(s, target[t], ll) == Long;
        EnlistLong(t, s, m);
      } else if LowPart(now) >= early {
        assert ListFor(s, target[t], ll) == Overflow;
        EnlistOverflow(t, s, m);
      } else {
        assert ListFor(s, target[t], ll) == Current;
        EnlistCurrent(t, s, m);
      }
      state := r;
    }

    /** The link of a timer that is on no list is cleared. */
    method ClearLink(t: nat)
      requires Valid() && 0 < t < |target| && !IsSet(state, t)
      modifies this`next
      ensures Valid()
    {
      ghost var next0 := next;
      next := next[t := 0];
      LinkedApart(next0, next, [], t, state.current);
      LinkedApart(next0, next, [], t, state.long);
    }

    /** Stores the target and the long target. */
    method StoreTarget(t: nat, when: nat, now: nat, ghost ll: nat) returns (early: nat)
      requires Valid() && 0 < t < |target| && !IsSet(state, t) && when < WORD32 && now == Now(state, ll)
      modifies this`target, this`longTarget
      ensures |target| == |state.target| && target[t] == when && early == Early(when)
      ensures Ready(state, Marked(state, t, when, ll), t)
    {
      Disjoint();
      target := target[t := when];
      early := Early(when);
      longTarget := longTarget[t := LongFor(longCnt, when, now)];
    }

    method Arm(t: nat, when: nat, now: nat, ghost ll: nat)
      requires Valid() && 0 < t < |target| && !IsSet(state, t) && when < WORD32 && now == Now(state, ll)
      modifies this
      ensures InTables(old(state)) && Shown() && state == Insert(old(state), t, when, ll)
    {
      var early := StoreTarget(t, when, now, ll);
      Enlist(t, early, now, state, ll);
    }

    /** _secure_mintimer_set_absolute; `ll` is what the hardware counter shows. The timer is not armed. */
    method SetAbsolute(t: nat, when: nat, ll: nat) returns (fired: bool)
      requires Valid() && 0 < t < |target| && !IsSet(state, t) && when < WORD32 && ll < PERIOD
      modifies this
      ensures InTables(old(state)) && Shown() && state == Timers.SetAbsolute(old(state), t, when, ll)
      ensures fired <==> Offset(when, Now(old(state), ll)) <= BACKOFF
      ensures fired ==> state == old(state)
      ensures !fired && Lands(old(state), when, ll) ==>
                ArmedFor(old(state), state, t, when, Offset(when, Now(old(state), ll)), PeriodStart(old(state)) + ll)
    {
      SetAbsoluteArms(state, t, when, ll);
      var now := highCnt + ll;
      assert now == Now(state, ll);
      ClearLink(t);
      var offset := Offset(when, now);
      if offset <= BACKOFF {
        return true;
      }
      Arm(t, when, now, ll);
      return false;
    }

    /** _secure_mintimer_set; the counter shows `ll` first and `later` when the timer is entered. */
    method Set(t: nat, offset: nat, ll: nat, later: nat) returns (fired: bool)
      requires Valid() && 0 < t < |target| && ll < PERIOD && later < PERIOD
      modifies this
      ensures Shown() && state == Reset(old(state), t, TargetOf(old(state), offset, ll), later)
      ensures fired <==> Offset(TargetOf(old(state), offset, ll), Now(old(state), later)) <= BACKOFF
      ensures fired ==> state == Timers.Remove(old(state), t)
      ensures var when := TargetOf(old(state), offset, ll);
              !fired && Lands(old(state), when, later) ==>
                ArmedFor(old(state), state, t, when, Offset(when, Now(old(state), later)), PeriodStart(old(state)) + later)
    {
      var when := Ahead(highCnt + ll, offset);
      assert when == TargetOf(state, offset, ll);
      ghost var r := Timers.Remove(state, t);
      ResetSteps(state, r, t, when, later);
      ResetArms(state, t, when, later);
      Remove(t);
      fired := SetAbsolute(t, when, later);
    }

    /** The loop of _select_long_timers: the last due timer and the first one that is not. */
    method Select(ghost m: State, ghost l: seq<nat>) returns (last: nat, rest: nat, ghost k: nat)
      requires Shape(m) && target == m.target && longTarget == m.longTarget && highCnt == m.high && longCnt == m.longCnt
      requires |next| == |target| && Shows(l, longList) && InTable(m.target, l)
      ensures k == DueCount(m, l) && last == (if k > 0 then l[k - 1] else 0) && rest == First(l[k..])
      ensures k > 0 ==> 0 < last < |next|
    {
      last, rest, k := 0, longList, 0;
      assert l != [] ==> ChainAt(next, l, 0);
      while rest != 0
        invariant k <= |l| && rest == (if k < |l| then l[k] else 0) && last == (if k > 0 then l[k - 1] else 0)
        invariant (k < |l| ==> rest != 0) && (k > 0 ==> 0 < last < |next|)
        invariant forall i :: 0 <= i < k ==> Due(m, l[i])
        decreases |l| - k
      {
        assert ChainAt(next, l, k);
        if longTarget[rest] <= longCnt && HighPart(target[rest]) == highCnt {
          last, rest, k := rest, next[rest], k + 1;
          assert k < |l| ==> ChainAt(next, l, k);
        } else {
          break;
        }
      }
      DueCountIs(m, l, k);
    }

    /** _select_long_timers; with no timers taken over from the overflow list the two lists are never
        merged. */
    method SelectLongTimers(ghost m: State, ghost l: seq<nat>)
      requires Shape(m) && target == m.target && longTarget == m.longTarget && highCnt == m.high && longCnt == m.longCnt
      requires |next| == |target| && Shows(l, longList) && InTable(m.target, l) && Distinct(l) && timerList == 0
      modifies this`next, this`timerList, this`longList
      ensures |next| == |target|
      ensures Shows(l[..DueCount(m, l)], timerList) && Shows(l[DueCount(m, l)..], longList)
    {
      var selectListStart := longList;
      var selectListLast, rest;
      ghost var k;
      selectListLast, rest, k := Select(m, l);
      ghost var next0 := next;
      longList := rest;
      if selectListLast != 0 {
        next := next[selectListLast := 0];
      }
      LinkedCut(next0, next, l, k);
      if timerList != 0 {
        assert false;
      } else if selectListLast != 0 {
        timerList := selectListStart;
      }
    }

    method AdvanceCounters()
      requires Valid()
      modifies this`highCnt, this`longCnt
      ensures highCnt == Ticked(state).high && longCnt == Ticked(state).longCnt
    {
      highCnt := NextHigh(highCnt);
      longCnt := NextLong(highCnt, longCnt);
    }

    /** The list heads move on; timers still on the current list are lost. */
    method SwapLists()
      requires Valid()
      modifies this`highCnt, this`longCnt, this`timerList, this`overflowList, this`longList, this`next
      ensures |next| == |target|
      ensures highCnt == Timers.NextPeriod(state).high && longCnt == Timers.NextPeriod(state).longCnt
      ensures Shows(Timers.NextPeriod(state).current, timerList)
      ensures Shows([], overflowList) && Shows(Timers.NextPeriod(state).long, longList)
    {
      ghost var m := Ticked(state);
      AdvanceCounters();
      timerList := overflowList;
      overflowList := 0;
      SelectLongTimers(m, state.long);
    }

    /** _next_period; the lists are in order afterwards exactly when the current list was used up */
    method NextPeriod()
      requires Valid()
      modifies this
      ensures InTables(old(state)) && Shown() && state == Timers.NextPeriod(old(state))
      ensures Valid() <==> old(state).current == []
    {
      ghost var r := Timers.NextPeriod(state);
      NextPeriodKeeps(state);
      SwapLists();
      state := r;
    }
  }

  lemma DueCountIs(s: State, l: seq<nat>, k: nat)
    requires Shape(s) && InTable(s.target, l) && k <= |l|
    requires (forall i :: 0 <= i < k ==> Due(s, l[i])) && (k < |l| ==> !Due(s, l[k]))
    ensures DueCount(s, l) == k
  {
  }

  lemma NotListed(l: seq<nat>, t: nat)
    requires t !in l
    ensures Dropped(l, t) == l
  {
  }

  lemma IndexIs(l: seq<nat>, t: nat, k: nat)
    requires k <= |l| && (forall i :: 0 <= i < k ==> l[i] != t) && (k < |l| ==> l[k] == t)
    ensures IndexOf(l, t) == k
  {
  }
}
