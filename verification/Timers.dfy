/** The timer multiplexer on sequences: one 16-bit hardware counter extended by a high and a long
    counter, and lists of timers for the running period, the next one and all later ones. */
module Timers {
  import opened Sequences
  import opened WaitOrder

  const PERIOD := 0x1_0000
  const WORD32 := 0x1_0000_0000
  const OVERHEAD := 300
  const BACKOFF := 200

  /** Timers are numbered from 1; the lists hold them in the order they will be served. */
  datatype State = State(target: seq<nat>, longTarget: seq<nat>, current: seq<nat>, overflow: seq<nat>,
                         long: seq<nat>, high: nat, longCnt: nat)

  predicate Shape(s: State) {
    && |s.target| == |s.longTarget| > 0
    && (forall t :: 0 <= t < |s.target| ==> s.target[t] < WORD32 && s.longTarget[t] < WORD32)
    && s.high < WORD32 && s.high % PERIOD == 0 && s.longCnt < WORD32
  }

  predicate IsSet(s: State, t: nat)
    requires Shape(s) && t < |s.target|
  {
    s.target[t] != 0 || s.longTarget[t] != 0
  }

  /** The 64-bit time the timer is to fire at. */
  function Deadline(s: State, t: nat): nat
    requires Shape(s) && t < |s.target|
  {
    s.longTarget[t] * WORD32 + s.target[t]
  }

  /** The deadlines by timer number, the key the long list is sorted by. */
  function Deadlines(s: State): (d: seq<nat>)
    requires Shape(s)
    ensures |d| == |s.target| && forall t :: 0 <= t < |d| ==> d[t] == Deadline(s, t)
  {
    seq(|s.target|, t requires 0 <= t < |s.target| => Deadline(s, t))
  }

  /** The 64-bit time at which the running period of the hardware counter began. */
  function PeriodStart(s: State): nat {
    s.longCnt * WORD32 + s.high
  }

  ghost predicate SortedBy(key: seq<nat>, l: seq<nat>) {
    InTable(key, l) && forall i, j :: 0 <= i < j < |l| ==> key[l[i]] <= key[l[j]]
  }

  lemma SortedSame(key: seq<nat>, key': seq<nat>, l: seq<nat>, p: nat)
    requires SortedBy(key, l) && |key'| == |key| && p !in l
    requires forall x :: 0 <= x < |key| && x != p ==> key'[x] == key[x]
    ensures SortedBy(key', l)
  {
  }

  // ---------------------------------------------------------------- the invariant

  /** The armed timers are those on the current and the long list, each on one of them and once; the
      overflow list is empty. */
  ghost predicate Listed(s: State)
    requires Shape(s)
  {
    && Distinct(s.current) && Distinct(s.long) && s.overflow == []
    && (forall t :: t in s.current || t in s.long <==> 0 < t < |s.target| && IsSet(s, t))
    && (forall t :: t in s.current ==> t !in s.long)
  }

  /** Timers of the current list are due by the end of the period (give or take the overhead), those of
      the long list after it. */
  ghost predicate Timely(s: State)
    requires Shape(s)
  {
    && (forall t :: t in s.current && t < |s.target| ==>
          s.longTarget[t] == s.longCnt && PeriodStart(s) <= Deadline(s, t) < PeriodStart(s) + PERIOD + OVERHEAD)
    && (forall t :: t in s.long && t < |s.target| ==> Deadline(s, t) >= PeriodStart(s) + PERIOD)
  }

  ghost predicate Sound(s: State) {
    && Shape(s) && Listed(s) && Timely(s)
    && SortedBy(s.target, s.current) && SortedBy(Deadlines(s), s.long)
    && !IsSet(s, 0)
  }

  // ---------------------------------------------------------------- removing

  /** Where `t` is on the list; the length when it is not there. */
  function IndexOf(l: seq<nat>, t: nat): (k: nat)
    ensures k <= |l|
    ensures forall j :: 0 <= j < k ==> l[j] != t
    ensures k < |l| ==> l[k] == t
  {
    if l == [] || l[0] == t then 0 else 1 + IndexOf(l[1..], t)
  }

  function Dropped(l: seq<nat>, t: nat): seq<nat> {
    if IndexOf(l, t) == |l| then l else Without(l, IndexOf(l, t))
  }

  lemma DroppedFrom(l: seq<nat>, t: nat)
    requires Distinct(l)
    ensures Distinct(Dropped(l, t)) && forall x :: x in Dropped(l, t) <==> x in l && x != t
  {
    var k := IndexOf(l, t);
    if k < |l| {
      InWithout(l, k);
    } else {
      assert t !in l;
    }
  }

  lemma DroppedSorted(key: seq<nat>, key': seq<nat>, l: seq<nat>, t: nat)
    requires SortedBy(key, l) && Distinct(l) && |key'| == |key|
    requires forall x :: 0 <= x < |key| && x != t ==> key'[x] == key[x]
    ensures SortedBy(key', Dropped(l, t))
  {
    var k, r := IndexOf(l, t), Dropped(l, t);
    forall i | 0 <= i < |r| ensures r[i] < |key| && key'[r[i]] == key[r[i]] && r[i] == l[if i < k then i else i + 1] {
      assert l[if i < k then i else i + 1] != t;
    }
  }

  /** secure_mintimer_remove */
  function Remove(s: State, t: nat): State
    requires Shape(s) && t < |s.target|
  {
    if IsSet(s, t) then
      s.(target := s.target[t := 0], longTarget := s.longTarget[t := 0], current := Dropped(s.current, t),
         overflow := Dropped(s.overflow, t), long := Dropped(s.long, t))
    else s
  }

  lemma RemoveListed(s: State, t: nat)
    requires Sound(s) && 0 < t < |s.target| && IsSet(s, t)
    ensures var r := Remove(s, t);
            Shape(r) && Listed(r) && !IsSet(r, t) && !IsSet(r, 0)
  {
    DroppedFrom(s.current, t);
    DroppedFrom(s.long, t);
  }

  lemma RemoveTimely(s: State, t: nat)
    requires Sound(s) && 0 < t < |s.target| && IsSet(s, t)
    ensures Shape(Remove(s, t)) && Timely(Remove(s, t))
  {
    DroppedFrom(s.current, t);
    DroppedFrom(s.long, t);
  }

  lemma RemoveSound(s: State, t: nat)
    requires Sound(s) && 0 < t < |s.target|
    ensures Sound(Remove(s, t)) && !IsSet(Remove(s, t), t)
    ensures Remove(s, t).high == s.high && Remove(s, t).longCnt == s.longCnt && |Remove(s, t).target| == |s.target|
  {
    if IsSet(s, t) {
      var r := Remove(s, t);
      RemoveListed(s, t);
      RemoveTimely(s, t);
      DroppedSorted(s.target, r.target, s.current, t);
      DroppedSorted(Deadlines(s), Deadlines(r), s.long, t);
    }
  }

  /** The first timer of the current list fires: it is taken off and marked as not armed. */
  function Expire(s: State): State
    requires Shape(s) && s.current != [] && s.current[0] < |s.target|
  {
    s.(target := s.target[s.current[0] := 0], longTarget := s.longTarget[s.current[0] := 0], current := s.current[1..])
  }

  lemma ExpireRemoves(s: State)
    requires Sound(s) && s.current != []
    ensures 0 < s.current[0] < |s.target| && Expire(s) == Remove(s, s.current[0])
  {
    var t := s.current[0];
    assert t in s.current;
    assert IndexOf(s.current, t) == 0 && Without(s.current, 0) == s.current[1..];
    assert t !in s.long;
    assert IndexOf(s.long, t) == |s.long|;
  }

  lemma ExpireSound(s: State)
    requires Sound(s) && s.current != []
    ensures 0 < s.current[0] < |s.target| && Sound(Expire(s))
  {
    ExpireRemoves(s);
    RemoveSound(s, s.current[0]);
  }

  /** `t` has left the list, in which the others keep their order. */
  ghost predicate Loses(l: seq<nat>, l': seq<nat>, t: nat) {
    if t in l then exists k {:trigger l[k]} :: 0 <= k < |l| && l[k] == t && l' == l[..k] + l[k + 1..] else l' == l
  }

  lemma DroppedLoses(l: seq<nat>, t: nat)
    ensures Loses(l, Dropped(l, t), t)
  {
    var k := IndexOf(l, t);
    if k < |l| {
      assert l[k] == t && Dropped(l, t) == l[..k] + l[k + 1..];
    }
  }

  /** Removing a timer field by field: it is marked as not armed and has left every list; a timer that is not
      armed is left alone. */
  lemma RemoveFields(s: State, t: nat)
    requires Shape(s) && t < |s.target|
    ensures var r := Remove(s, t);
            if s.target[t] == 0 && s.longTarget[t] == 0 then r == s
            else
              && r == s.(target := s.target[t := 0], longTarget := s.longTarget[t := 0],
                         current := r.current, overflow := r.overflow, long := r.long)
              && Loses(s.current, r.current, t) && Loses(s.overflow, r.overflow, t) && Loses(s.long, r.long, t)
  {
    DroppedLoses(s.current, t);
    DroppedLoses(s.overflow, t);
    DroppedLoses(s.long, t);
  }

  /** Timers fire in the order of their deadlines up to less than the overhead. */
  lemma FiresInOrder(s: State, t: nat)
    requires Sound(s) && s.current != [] && 0 < t < |s.target| && IsSet(s, t)
    ensures s.current[0] < |s.target| && Deadline(s, s.current[0]) < Deadline(s, t) + OVERHEAD
  {
  }

  // ---------------------------------------------------------------- arming

  /** The 32-bit time: the high counter with the hardware counter `ll` as its low half. */
  function Now(s: State, ll: nat): nat {
    s.high + ll
  }

  /** The distance from `now` to `target` on the 32-bit clock. */
  function Offset(target: nat, now: nat): (o: nat)
    ensures o < WORD32
  {
    (target - now) % WORD32
  }

  function Early(target: nat): (a: nat)
    ensures a < WORD32
  {
    (target - OVERHEAD) % WORD32
  }

  /** The long target given to a timer: one more when the target, less the overhead, lies before `now`. */
  function LongFor(longCnt: nat, target: nat, now: nat): nat {
    if Early(target) < now then (longCnt + 1) % WORD32 else longCnt
  }

  /** For a timer more than the backoff ahead the 64-bit deadline is `offset` ticks from now exactly when
      the 32-bit target and the offset are both at least the overhead or both below it. */
  lemma DeadlineExact(longCnt: nat, target: nat, now: nat)
    requires longCnt < WORD32 && target < WORD32 && now < WORD32
    requires longCnt * WORD32 + now + Offset(target, now) < WORD32 * WORD32
    ensures LongFor(longCnt, target, now) * WORD32 + target == longCnt * WORD32 + now + Offset(target, now)
            <==> (target >= OVERHEAD <==> Offset(target, now) >= OVERHEAD)
  {
  }

  /** A target soon after the 32-bit clock turns gets a deadline 2^32 ticks too early, a timer 250 ticks
      ahead one 2^32 ticks too late. */
  lemma DeadlineFails()
    ensures LongFor(0, 100, 0xFFFE_FC18) * WORD32 + 100 + WORD32 == 0xFFFE_FC18 + Offset(100, 0xFFFE_FC18)
    ensures LongFor(0, 1_000_250, 1_000_000) * WORD32 + 1_000_250 == 1_000_000 + Offset(1_000_250, 1_000_000) + WORD32
  {
  }

  predicate InTables(s: State) {
    InTable(s.target, s.current) && InTable(s.target, s.overflow) && InTable(s.target, s.long)
  }

  /** The timer with its new target, not yet on a list. */
  function Marked(s: State, t: nat, target: nat, ll: nat): State
    requires Shape(s) && t < |s.target|
  {
    s.(target := s.target[t := target], longTarget := s.longTarget[t := LongFor(s.longCnt, target, Now(s, ll))])
  }

  /** What the hardware counter leaves of a 32-bit time, and what it counts. */
  function HighPart(x: nat): nat {
    x - x % PERIOD
  }

  function LowPart(x: nat): nat {
    x % PERIOD
  }

  datatype Which = Current | Overflow | Long

  /** Which list _secure_mintimer_set_absolute_explicit puts a timer on. */
  function ListFor(s: State, target: nat, ll: nat): Which {
    var early := Early(target);
    if LongFor(s.longCnt, target, Now(s, ll)) > s.longCnt || HighPart(early) != s.high then Long
    else if LowPart(Now(s, ll)) >= early then Overflow
    else Current
  }

  /** _secure_mintimer_set_absolute_explicit */
  function Insert(s: State, t: nat, target: nat, ll: nat): State
    requires Shape(s) && InTables(s) && t < |s.target| && target < WORD32
  {
    var m := Marked(s, t, target, ll);
    match ListFor(s, target, ll)
    case Current => s.(target := m.target, longTarget := m.longTarget, current := Enter(m.target, s.current, t))
    case Overflow => s.(target := m.target, longTarget := m.longTarget, overflow := Enter(m.target, s.overflow, t))
    case Long => s.(target := m.target, longTarget := m.longTarget, long := Enter(Deadlines(m), s.long, t))
  }

  /** The condition under which setting a timer keeps the lists in order. The carry into the long counter
      must not overflow. From the overhead on, the target must not lie in the first ticks of a 32-bit
      period, nor the offset be exactly the overhead in the first 16-bit period; below the overhead a
      target in those first ticks must be past a turn of the 32-bit clock. */
  predicate Lands(s: State, target: nat, ll: nat) {
    LandsAt(s.high, s.longCnt, target, s.high + ll)
  }

  predicate LandsAt(high: nat, longCnt: nat, target: nat, now: nat) {
    var o := Offset(target, now);
    && (Early(target) < now ==> longCnt + 1 < WORD32)
    && if o >= OVERHEAD then target >= OVERHEAD && (o > OVERHEAD || high > 0) else target >= OVERHEAD || target < now
  }

  /** The timer is on the list of the period it is due in. */
  predicate InTime(s: State, target: nat, ll: nat) {
    var long := LongFor(s.longCnt, target, Now(s, ll));
    var d := long * WORD32 + target;
    match ListFor(s, target, ll)
    case Current => long == s.longCnt && PeriodStart(s) <= d < PeriodStart(s) + PERIOD + OVERHEAD
    case Overflow => false
    case Long => d >= PeriodStart(s) + PERIOD
  }

  /** The list chosen is that of the period the timer is due in exactly when the condition holds. */
  lemma Placement(s: State, target: nat, ll: nat)
    requires Shape(s) && target < WORD32 && ll < PERIOD
    ensures InTime(s, target, ll) <==> Lands(s, target, ll)
  {
    var now, early := Now(s, ll), Early(target);
    NowFits(s.high, ll);
    assert Offset(target, now) == if target >= now then target - now else target - now + WORD32;
    assert early == if target >= OVERHEAD then target - OVERHEAD else target - OVERHEAD + WORD32;
    if early >= now {
      PeriodOf(early, s.high);
    } else {
      assert s.longCnt + 1 < WORD32 ==> LongFor(s.longCnt, target, now) == s.longCnt + 1;
    }
  }

  /** Then the deadline is the offset ahead of now, except that an offset below the overhead with a target
      from the overhead on comes a whole turn of the 32-bit clock too late. */
  lemma DeadlineWhenLanded(s: State, target: nat, ll: nat)
    requires Shape(s) && target < WORD32 && ll < PERIOD && Lands(s, target, ll)
    ensures var o := Offset(target, Now(s, ll));
            LongFor(s.longCnt, target, Now(s, ll)) * WORD32 + target
            == PeriodStart(s) + ll + o + if o < OVERHEAD <= target then WORD32 else 0
  {
    var now, early := Now(s, ll), Early(target);
    NowFits(s.high, ll);
    assert Offset(target, now) == if target >= now then target - now else target - now + WORD32;
    assert early == if target >= OVERHEAD then target - OVERHEAD else target - OVERHEAD + WORD32;
    assert s.longCnt + 1 < WORD32 ==> (s.longCnt + 1) % WORD32 == s.longCnt + 1;
  }

  lemma NowFits(high: nat, ll: nat)
    requires high < WORD32 && high % PERIOD == 0 && ll < PERIOD
    ensures high + ll < WORD32 && high + PERIOD <= WORD32 && LowPart(high + ll) == ll
  {
  }

  /** A time at or after the start of a period lies in it or after it. */
  lemma PeriodOf(x: nat, high: nat)
    requires high % PERIOD == 0 && x >= high
    ensures HighPart(x) == high <==> x < high + PERIOD
  {
  }

  /** A list that gains `t`. */
  lemma EnterList(key: seq<nat>, l: seq<nat>, t: nat)
    requires SortedBy(key, l) && Distinct(l) && t !in l && t < |key|
    ensures var r := Enter(key, l, t);
            SortedBy(key, r) && Distinct(r) && forall x :: x in r <==> x in l || x == t
  {
    var k := Slot(key, l, key[t]);
    InWith(l, k, t);
    WithDistinct(l, k, t);
  }

  lemma DeadlinesOf(s: State, r: State)
    requires Shape(s) && Shape(r) && r.target == s.target && r.longTarget == s.longTarget
    ensures Deadlines(s) == Deadlines(r)
  {
  }

  /** The two states differ in timer `t` only, which is armed in the second one. */
  ghost predicate Armed(s: State, r: State, t: nat)
    requires Shape(s) && Shape(r)
  {
    && |r.target| == |s.target| && r.high == s.high && r.longCnt == s.longCnt
    && 0 < t < |s.target| && !IsSet(s, t) && IsSet(r, t)
    && forall x :: 0 <= x < |s.target| && x != t ==> r.target[x] == s.target[x] && r.longTarget[x] == s.longTarget[x]
  }

  lemma JoinsLong(s: State, r: State, t: nat)
    requires Shape(s) && Shape(r) && Armed(s, r, t) && Listed(s) && Timely(s)
    requires r.current == s.current && r.overflow == [] && Deadline(r, t) >= PeriodStart(s) + PERIOD
    requires Distinct(r.long) && forall x :: x in r.long <==> x in s.long || x == t
    ensures Listed(r) && Timely(r)
  {
  }

  lemma JoinsCurrent(s: State, r: State, t: nat)
    requires Shape(s) && Shape(r) && Armed(s, r, t) && Listed(s) && Timely(s)
    requires r.long == s.long && r.overflow == []
    requires r.longTarget[t] == s.longCnt && PeriodStart(s) <= Deadline(r, t) < PeriodStart(s) + PERIOD + OVERHEAD
    requires Distinct(r.current) && forall x :: x in r.current <==> x in s.current || x == t
    ensures Listed(r) && Timely(r)
  {
  }

  lemma InsertCurrent(s: State, t: nat, target: nat, ll: nat)
    requires Sound(s) && 0 < t < |s.target| && !IsSet(s, t) && target < WORD32
    requires InTime(s, target, ll) && ListFor(s, target, ll) == Current && target > 0
    ensures Sound(Insert(s, t, target, ll))
  {
    var m, r := Marked(s, t, target, ll), Insert(s, t, target, ll);
    SortedSame(s.target, m.target, s.current, t);
    SortedSame(Deadlines(s), Deadlines(r), s.long, t);
    EnterList(m.target, s.current, t);
    JoinsCurrent(s, r, t);
  }

  lemma LongEntered(s: State, t: nat, target: nat, ll: nat)
    requires Sound(s) && 0 < t < |s.target| && !IsSet(s, t) && target < WORD32 && ListFor(s, target, ll) == Long
    ensures var r := Insert(s, t, target, ll);
            && SortedBy(r.target, r.current) && SortedBy(Deadlines(r), r.long)
            && Distinct(r.long) && forall x :: x in r.long <==> x in s.long || x == t
  {
    var m := Marked(s, t, target, ll);
    SortedSame(s.target, m.target, s.current, t);
    SortedSame(Deadlines(s), Deadlines(m), s.long, t);
    EnterList(Deadlines(m), s.long, t);
    DeadlinesOf(m, Insert(s, t, target, ll));
  }

  lemma InsertLong(s: State, t: nat, target: nat, ll: nat)
    requires Sound(s) && 0 < t < |s.target| && !IsSet(s, t) && target < WORD32
    requires InTime(s, target, ll) && ListFor(s, target, ll) == Long
    ensures Sound(Insert(s, t, target, ll))
  {
    LongEntered(s, t, target, ll);
    JoinsLong(s, Insert(s, t, target, ll), t);
  }

  /** A timer on a list of the wrong period. */
  lemma Misplaced(s: State, t: nat, target: nat, ll: nat)
    requires Shape(s) && InTables(s) && 0 < t < |s.target| && target < WORD32 && !InTime(s, target, ll)
    ensures !Sound(Insert(s, t, target, ll))
  {
    var m, r := Marked(s, t, target, ll), Insert(s, t, target, ll);
    match ListFor(s, target, ll)
    case Current => InWith(s.current, Slot(m.target, s.current, target), t); assert t in r.current;
    case Overflow => assert |r.overflow| > 0;
    case Long => InWith(s.long, Slot(Deadlines(m), s.long, Deadlines(m)[t]), t); assert t in r.long;
  }

  /** Setting a timer keeps every list complete, sorted and timely if and only if the condition holds. */
  lemma InsertKeeps(s: State, t: nat, target: nat, ll: nat)
    requires Sound(s) && 0 < t < |s.target| && !IsSet(s, t) && target < WORD32 && ll < PERIOD
    ensures Sound(Insert(s, t, target, ll)) <==> Lands(s, target, ll)
  {
    Placement(s, target, ll);
    if !InTime(s, target, ll) {
      Misplaced(s, t, target, ll);
    } else if ListFor(s, target, ll) == Current {
      InsertCurrent(s, t, target, ll);
    } else {
      InsertLong(s, t, target, ll);
    }
  }

  /** Setting a timer field by field, whatever the time and the target: no other timer is touched, the target is
      stored and the long counter with it, one higher when the target less the overhead lies before now. */
  lemma InsertFields(s: State, t: nat, target: nat, ll: nat)
    requires Shape(s) && InTables(s) && 0 < t < |s.target| && target < WORD32 && ll < PERIOD
    ensures var r := Insert(s, t, target, ll);
            var early := if target < OVERHEAD then target - OVERHEAD + WORD32 else target - OVERHEAD;
            && Shape(r) && r.high == s.high && r.longCnt == s.longCnt
            && r.target == s.target[t := target]
            && r.longTarget == s.longTarget[t := if early < s.high + ll then (s.longCnt + 1) % WORD32 else s.longCnt]
  {
    EarlyIs(target);
  }

  /** The list chosen: the long one for a time past the running period, else the overflow list when the low half
      of now is not before the target less the overhead. */
  lemma ListChosen(s: State, target: nat, ll: nat)
    requires Shape(s) && target < WORD32 && ll < PERIOD
    ensures var early := if target < OVERHEAD then target - OVERHEAD + WORD32 else target - OVERHEAD;
            ListFor(s, target, ll) ==
            if (early < s.high + ll && s.longCnt + 1 < WORD32) || early < s.high || s.high + PERIOD <= early then Long
            else if early <= ll then Overflow
            else Current
  {
    NowFits(s.high, ll);
    EarlyIs(target);
    InThisPeriod(Early(target), s.high);
  }

  /** That list gains the timer in its place and the other two stay as they are. */
  lemma InsertGains(s: State, t: nat, target: nat, ll: nat)
    requires Shape(s) && InTables(s) && 0 < t < |s.target| && target < WORD32 && ll < PERIOD
    ensures var r, which := Insert(s, t, target, ll), ListFor(s, target, ll);
            && Shape(r) && |r.target| == |s.target|
            && (if which == Current then Gains(r.target, s.current, r.current, t) else r.current == s.current)
            && (if which == Overflow then Gains(r.target, s.overflow, r.overflow, t) else r.overflow == s.overflow)
            && (if which == Long then Gains(Deadlines(r), s.long, r.long, t) else r.long == s.long)
  {
    var m, r := Marked(s, t, target, ll), Insert(s, t, target, ll);
    match ListFor(s, target, ll)
    case Current => EnterGains(m.target, s.current, t);
    case Overflow => EnterGains(m.target, s.overflow, t);
    case Long =>
      DeadlinesOf(m, r);
      EnterGains(Deadlines(m), s.long, t);
  }

  lemma EarlyIs(target: nat)
    requires target < WORD32
    ensures Early(target) == if target < OVERHEAD then target - OVERHEAD + WORD32 else target - OVERHEAD
  {
  }

  /** A time is in the running period exactly when its upper half is the high counter. */
  lemma InThisPeriod(x: nat, high: nat)
    requires high % PERIOD == 0
    ensures HighPart(x) == high <==> high <= x < high + PERIOD
  {
    if x >= high {
      PeriodOf(x, high);
    }
  }

  /** A timer that is set for a target has its deadline at the target's distance from now, a whole turn of
      the 32-bit clock later if the target is from the overhead on but the distance is below it. */
  lemma InsertDeadline(s: State, t: nat, target: nat, ll: nat)
    requires Sound(s) && 0 < t < |s.target| && target < WORD32 && ll < PERIOD && Lands(s, target, ll)
    ensures InTables(s) && Shape(Insert(s, t, target, ll))
    ensures var o := Offset(target, Now(s, ll));
            Deadline(Insert(s, t, target, ll), t) == PeriodStart(s) + ll + o + if o < OVERHEAD <= target then WORD32 else 0
  {
    SoundTables(s);
    DeadlineWhenLanded(s, target, ll);
  }

  /** With no timer set, 66536 ticks before the 32-bit clock turns: a timer for tick 100 after the turn goes
      on the long list, overdue. */
  lemma InsertFails(s: State)
    requires s == Initial(1).(high := 0xFFFE_0000)
    ensures Sound(s) && !Sound(Insert(s, 1, 100, 0xFC18))
  {
    assert Offset(100, 0xFFFE_FC18) == 0x1_044C && Early(100) == 0xFFFF_FF38;
    InsertKeeps(s, 1, 100, 0xFC18);
  }

  lemma InsertedOverdue(s: State)
    requires s == Initial(1).(high := 0xFFFE_0000)
    ensures var r := Insert(s, 1, 100, 0xFC18); r.long == [1] && Deadline(r, 1) == 100 < PeriodStart(r)
  {
    assert Early(100) == 0xFFFF_FF38 && HighPart(0xFFFF_FF38) == 0xFFFF_0000;
  }

  // ---------------------------------------------------------------- the next period

  /** What _select_long_timers tests: the timer is due in the running period, or overdue by whole turns
      of the 32-bit clock. */
  predicate Due(s: State, t: nat)
    requires Shape(s) && t < |s.target|
  {
    s.longTarget[t] <= s.longCnt && HighPart(s.target[t]) == s.high
  }

  /** How many timers from the start of `l` on are due. */
  function DueCount(s: State, l: seq<nat>): (k: nat)
    requires Shape(s) && InTable(s.target, l)
    ensures k <= |l|
    ensures forall i :: 0 <= i < k ==> Due(s, l[i])
    ensures k < |l| ==> !Due(s, l[k])
  {
    if l == [] || !Due(s, l[0]) then 0 else 1 + DueCount(s, l[1..])
  }

  /** The counters one period later. */
  function NextHigh(high: nat): (h: nat)
    requires high < WORD32 && high % PERIOD == 0
    ensures h < WORD32 && h % PERIOD == 0
  {
    (high + PERIOD) % WORD32
  }

  function NextLong(high: nat, longCnt: nat): (c: nat)
    requires longCnt < WORD32
    ensures c < WORD32
  {
    if high == 0 then (longCnt + 1) % WORD32 else longCnt
  }

  function Ticked(s: State): (t: State)
    requires Shape(s)
    ensures Shape(t)
  {
    s.(high := NextHigh(s.high), longCnt := NextLong(NextHigh(s.high), s.longCnt))
  }

  /** _next_period when nothing waits on the overflow list: the due timers of the long list become the
      current list. */
  function NextPeriod(s: State): State
    requires Shape(s) && InTable(s.target, s.long)
  {
    var t := Ticked(s);
    var k := DueCount(t, s.long);
    State(s.target, s.longTarget, s.long[..k], [], s.long[k..], t.high, t.longCnt)
  }

  lemma ClockSteps(s: State)
    requires Shape(s)
    ensures PeriodStart(Ticked(s)) == if PeriodStart(s) + PERIOD < WORD32 * WORD32 then PeriodStart(s) + PERIOD else 0
  {
    NowFits(s.high, 0);
  }

  /** The 64-bit clock advances by one period, with the carry from the high to the long counter. */
  lemma ClockAdvances(s: State)
    requires Shape(s)
    ensures PeriodStart(Ticked(s)) == (PeriodStart(s) + PERIOD) % (WORD32 * WORD32)
  {
    NowFits(s.high, 0);
    ClockSteps(s);
    assert PeriodStart(s) + PERIOD <= WORD32 * WORD32;
  }

  /** For a timer that is not overdue the test is exact. */
  lemma DueExactly(s: State, t: nat)
    requires Shape(s) && t < |s.target| && Deadline(s, t) >= PeriodStart(s)
    ensures Due(s, t) <==> Deadline(s, t) < PeriodStart(s) + PERIOD
    ensures Due(s, t) ==> s.longTarget[t] == s.longCnt
  {
  }

  lemma DueCountAll(s: State, l: seq<nat>)
    requires Shape(s) && SortedBy(Deadlines(s), l)
    requires forall i :: 0 <= i < |l| ==> Deadline(s, l[i]) >= PeriodStart(s)
    ensures InTable(s.target, l)
    ensures forall i :: 0 <= i < DueCount(s, l) ==> Deadline(s, l[i]) < PeriodStart(s) + PERIOD && s.longTarget[l[i]] == s.longCnt
    ensures forall i :: DueCount(s, l) <= i < |l| ==> Deadline(s, l[i]) >= PeriodStart(s) + PERIOD
  {
    var k := DueCount(s, l);
    forall i | 0 <= i < k ensures Deadline(s, l[i]) < PeriodStart(s) + PERIOD && s.longTarget[l[i]] == s.longCnt {
      DueExactly(s, l[i]);
    }
    if k < |l| {
      DueExactly(s, l[k]);
      forall i | k <= i < |l| ensures Deadline(s, l[i]) >= PeriodStart(s) + PERIOD {
        assert i > k ==> Deadlines(s)[l[k]] <= Deadlines(s)[l[i]];
      }
    }
  }

  lemma NextLists(s: State)
    requires Sound(s) && s.current == []
    ensures Listed(NextPeriod(s)) && NextPeriod(s).current + NextPeriod(s).long == s.long
  {
    CutList(s.long, DueCount(Ticked(s), s.long));
  }

  lemma TimelyEntries(r: State)
    requires Shape(r)
    requires forall i :: 0 <= i < |r.current| && r.current[i] < |r.target| ==>
      r.longTarget[r.current[i]] == r.longCnt && PeriodStart(r) <= Deadline(r, r.current[i]) < PeriodStart(r) + PERIOD
    requires forall i :: 0 <= i < |r.long| && r.long[i] < |r.target| ==> Deadline(r, r.long[i]) >= PeriodStart(r) + PERIOD
    ensures Timely(r)
  {
  }

  /** How far the long list is due after one more period. */
  lemma DueNext(s: State)
    requires Sound(s) && PeriodStart(s) + PERIOD < WORD32 * WORD32
    ensures var m, k := Ticked(s), DueCount(Ticked(s), s.long);
            && PeriodStart(m) == PeriodStart(s) + PERIOD
            && (forall i :: 0 <= i < k ==>
                  PeriodStart(m) <= Deadline(s, s.long[i]) < PeriodStart(m) + PERIOD && s.longTarget[s.long[i]] == m.longCnt)
            && (forall i :: k <= i < |s.long| ==> Deadline(s, s.long[i]) >= PeriodStart(m) + PERIOD)
  {
    var m := Ticked(s);
    ClockSteps(s);
    DeadlinesOf(s, m);
    forall i | 0 <= i < |s.long| ensures Deadline(m, s.long[i]) >= PeriodStart(m) {
      assert s.long[i] in s.long;
    }
    DueCountAll(m, s.long);
  }

  lemma NextTimely(s: State)
    requires Sound(s) && PeriodStart(s) + PERIOD < WORD32 * WORD32
    ensures PeriodStart(NextPeriod(s)) == PeriodStart(s) + PERIOD && Timely(NextPeriod(s))
    ensures forall i :: 0 <= i < |NextPeriod(s).current| ==>
      Deadline(s, NextPeriod(s).current[i]) < PeriodStart(s) + 2 * PERIOD
  {
    DueNext(s);
    TimelyEntries(NextPeriod(s));
  }

  lemma NextSorted(s: State)
    requires Sound(s) && PeriodStart(s) + PERIOD < WORD32 * WORD32
    ensures SortedBy(s.target, NextPeriod(s).current) && SortedBy(Deadlines(NextPeriod(s)), NextPeriod(s).long)
  {
    DueNext(s);
    CutSorted(s, NextPeriod(s), DueCount(Ticked(s), s.long));
  }

  /** In the last period of the 64-bit clock nothing can be due later. */
  lemma LastPeriod(s: State)
    requires Sound(s) && PeriodStart(s) + PERIOD >= WORD32 * WORD32
    ensures s.long == []
  {
    assert s.long != [] ==> s.long[0] in s.long && Deadline(s, s.long[0]) < WORD32 * WORD32;
  }

  /** The timers due in the new period, and only they, move to the current list in order, and none of the
      others is overdue. */
  lemma NextPeriodSound(s: State)
    requires Sound(s) && s.current == []
    ensures var r := NextPeriod(s);
            && Sound(r) && PeriodStart(r) == PeriodStart(Ticked(s)) && r.current + r.long == s.long
            && forall t :: 0 < t < |s.target| && IsSet(s, t) ==>
                 (t in r.current <==> Deadline(s, t) < PeriodStart(s) + 2 * PERIOD)
  {
    NextLists(s);
    if PeriodStart(s) + PERIOD < WORD32 * WORD32 {
      NextTimely(s);
      NextSorted(s);
    } else {
      LastPeriod(s);
    }
  }

  /** How far the long list is due after one more period, in any period of the clock. */
  lemma DueBound(s: State, k: nat, limit: nat)
    requires Sound(s) && k == DueCount(Ticked(s), s.long) && limit == PeriodStart(s) + 2 * PERIOD
    ensures forall i :: 0 <= i < k ==> Deadline(s, s.long[i]) < limit
    ensures forall i :: k <= i < |s.long| ==> limit <= Deadline(s, s.long[i])
  {
    if PeriodStart(s) + PERIOD < WORD32 * WORD32 {
      DueNext(s);
    } else {
      LastPeriod(s);
    }
  }

  /** A change of period field by field, whatever is on the current list: no timer changes its deadline, the
      counters move on, and the long list is cut behind its last timer that is due. */
  lemma NextPeriodMoves(s: State)
    requires Sound(s)
    ensures var r, limit := NextPeriod(s), PeriodStart(s) + 2 * PERIOD;
            && r == Ticked(s).(current := r.current, long := r.long) && r.current + r.long == s.long
            && (forall i :: 0 <= i < |r.current| ==> Deadline(s, r.current[i]) < limit)
            && (forall i :: 0 <= i < |r.long| ==> limit <= Deadline(s, r.long[i]))
  {
    var k := DueCount(Ticked(s), s.long);
    DueBound(s, k, PeriodStart(s) + 2 * PERIOD);
    CutList(s.long, k);
  }

  /** Changing the period loses no timer, and keeps the lists in order, if and only if the current list has
      been used up. */
  lemma NextPeriodKeeps(s: State)
    requires Sound(s)
    ensures Sound(NextPeriod(s)) <==> s.current == []
  {
    if s.current == [] {
      NextPeriodSound(s);
    } else {
      var t, r := s.current[0], NextPeriod(s);
      assert t in s.current && t !in s.long;
      assert t !in r.current && t !in r.long;
      assert IsSet(r, t);
    }
  }

  /** A timer for tick 1000 is on the current list when the period changes: it is on no list afterwards. */
  lemma NextPeriodFails(s: State)
    requires s == State([0, 1000], [0, 0], [1], [], [], 0, 0)
    ensures Sound(s) && IsSet(NextPeriod(s), 1) && NextPeriod(s).current == NextPeriod(s).long == []
    ensures !Sound(NextPeriod(s))
  {
    assert Deadline(s, 1) == 1000 && s.current[0] == 1;
    NextPeriodKeeps(s);
  }

  lemma CutList(l: seq<nat>, k: nat)
    requires Distinct(l) && k <= |l|
    ensures Distinct(l[..k]) && Distinct(l[k..]) && l[..k] + l[k..] == l
    ensures forall x :: x in l <==> x in l[..k] || x in l[k..]
    ensures forall x :: x in l[..k] ==> x !in l[k..]
  {
  }

  lemma CutSorted(s: State, r: State, k: nat)
    requires Shape(s) && Shape(r) && r.target == s.target && r.longTarget == s.longTarget
    requires SortedBy(Deadlines(s), s.long) && k <= |s.long|
    requires forall i :: 0 <= i < k ==> s.longTarget[s.long[i]] == r.longCnt
    ensures SortedBy(s.target, s.long[..k]) && SortedBy(Deadlines(r), s.long[k..])
  {
  }

  // ---------------------------------------------------------------- runs

  /** _secure_mintimer_set_absolute: a target within the backoff fires at once. */
  function SetAbsolute(s: State, t: nat, target: nat, ll: nat): (r: State)
    requires Shape(s) && InTables(s) && t < |s.target| && target < WORD32
    ensures Shape(r)
  {
    if Offset(target, Now(s, ll)) <= BACKOFF then s else Insert(s, t, target, ll)
  }

  function Ahead(now: nat, offset: nat): (t: nat)
    ensures t < WORD32
  {
    (now + offset) % WORD32
  }

  /** The target of a timer set `offset` ticks ahead when the hardware counter shows `ll`. */
  function TargetOf(s: State, offset: nat, ll: nat): nat {
    Ahead(Now(s, ll), offset)
  }

  /** The target lies the offset ahead of now on the 32-bit clock; read again after `later - ll` ticks, as
      much less. */
  lemma TargetAhead(s: State, offset: nat, ll: nat, later: nat)
    requires Shape(s) && offset < WORD32 && ll <= later < PERIOD && later - ll <= offset
    ensures Offset(TargetOf(s, offset, ll), Now(s, later)) == offset - (later - ll)
  {
    NowFits(s.high, ll);
    NowFits(s.high, later);
    var now, o := Now(s, ll), offset - (later - ll);
    assert TargetOf(s, offset, ll) == if now + offset < WORD32 then now + offset else now + offset - WORD32;
    assert now + offset == Now(s, later) + o;
  }

  /** The entries of the multiplexer. The hardware counter is read twice while a timer is set. */
  datatype Op = Set(timer: nat, offset: nat, ll: nat, later: nat) | Cancel(timer: nat) | Fire | Tick

  predicate Legal(s: State, op: Op)
    requires Shape(s)
  {
    match op
    case Set(t, offset, ll, later) =>
      && 0 < t < |s.target| && offset < WORD32 && ll < PERIOD && later < PERIOD
      && (Offset(TargetOf(s, offset, ll), Now(s, later)) <= BACKOFF || Lands(s, TargetOf(s, offset, ll), later))
    case Cancel(t) => 0 < t < |s.target|
    case Fire => s.current != []
    case Tick => s.current == []
  }

  lemma SoundTables(s: State)
    requires Sound(s)
    ensures Shape(s) && InTables(s)
  {
  }

  lemma SameClock(s: State, r: State, target: nat, ll: nat)
    requires r.high == s.high && r.longCnt == s.longCnt
    ensures Offset(target, Now(r, ll)) == Offset(target, Now(s, ll)) && (Lands(r, target, ll) <==> Lands(s, target, ll))
  {
  }

  /** Setting timer `t` in state `r`, which shows the same time as `s`. */
  lemma SetLater(s: State, r: State, t: nat, target: nat, ll: nat)
    requires Sound(r) && r.high == s.high && r.longCnt == s.longCnt
    requires 0 < t < |r.target| && !IsSet(r, t) && target < WORD32 && ll < PERIOD
    ensures InTables(r)
    ensures Sound(SetAbsolute(r, t, target, ll)) <==> Offset(target, Now(s, ll)) <= BACKOFF || Lands(s, target, ll)
  {
    SetSound(r, t, target, ll);
    SameClock(s, r, target, ll);
  }

  /** _secure_mintimer_set with the target it computes: the timer is removed and set again. */
  ghost function Reset(s: State, t: nat, target: nat, ll: nat): (r: State)
    requires Sound(s) && 0 < t < |s.target| && target < WORD32 && ll < PERIOD
    ensures Sound(r) <==> Offset(target, Now(s, ll)) <= BACKOFF || Lands(s, target, ll)
  {
    RemoveSound(s, t);
    var removed := Remove(s, t);
    SoundTables(removed);
    SetLater(s, removed, t, target, ll);
    SetAbsolute(removed, t, target, ll)
  }

  lemma ResetSteps(s: State, r: State, t: nat, target: nat, ll: nat)
    requires Sound(s) && 0 < t < |s.target| && target < WORD32 && ll < PERIOD && r == Remove(s, t)
    ensures Sound(r) && 0 < t < |r.target| && !IsSet(r, t) && InTables(r)
    ensures Reset(s, t, target, ll) == SetAbsolute(r, t, target, ll) && Now(r, ll) == Now(s, ll)
  {
    RemoveSound(s, t);
  }

  /** `r` is `s` with timer `t` armed `o` ticks after the time `now`, give or take the turn of the 32-bit clock
      that a distance below the overhead can cost; the other timers are as they were. */
  ghost predicate ArmedFor(s: State, r: State, t: nat, target: nat, o: nat, now: nat)
    requires Shape(s) && t < |s.target|
  {
    && Sound(r) && |r.target| == |s.target| && IsSet(r, t)
    && Deadline(r, t) == now + o + (if o < OVERHEAD <= target then WORD32 else 0)
    && forall x :: 0 <= x < |s.target| && x != t ==> r.target[x] == s.target[x] && r.longTarget[x] == s.longTarget[x]
  }

  lemma SetAbsoluteArms(s: State, t: nat, target: nat, ll: nat)
    requires Sound(s) && 0 < t < |s.target| && !IsSet(s, t) && target < WORD32 && ll < PERIOD
    ensures InTables(s)
    ensures Offset(target, Now(s, ll)) <= BACKOFF ==> SetAbsolute(s, t, target, ll) == s
    ensures Offset(target, Now(s, ll)) > BACKOFF && Lands(s, target, ll) ==>
              ArmedFor(s, SetAbsolute(s, t, target, ll), t, target, Offset(target, Now(s, ll)), PeriodStart(s) + ll)
  {
    SoundTables(s);
    if Offset(target, Now(s, ll)) > BACKOFF && Lands(s, target, ll) {
      InsertKeeps(s, t, target, ll);
      InsertDeadline(s, t, target, ll);
      InsertFields(s, t, target, ll);
    }
  }

  lemma ResetArms(s: State, t: nat, target: nat, ll: nat)
    requires Sound(s) && 0 < t < |s.target| && target < WORD32 && ll < PERIOD
    ensures Offset(target, Now(s, ll)) <= BACKOFF ==> Reset(s, t, target, ll) == Remove(s, t)
    ensures Offset(target, Now(s, ll)) > BACKOFF && Lands(s, target, ll) ==>
              ArmedFor(s, Reset(s, t, target, ll), t, target, Offset(target, Now(s, ll)), PeriodStart(s) + ll)
  {
    var r := Remove(s, t);
    ResetSteps(s, r, t, target, ll);
    SameClock(s, r, target, ll);
    SetAbsoluteArms(r, t, target, ll);
  }

  /** After a timer has been set it fires `offset` ticks after the first reading of the counter, unless that
      is within the backoff of the second one; what is left below the overhead costs a turn of the 32-bit
      clock. */
  lemma SetDeadline(s: State, t: nat, offset: nat, ll: nat, later: nat)
    requires Sound(s) && 0 < t < |s.target| && offset < WORD32 && ll <= later < PERIOD && later - ll + BACKOFF < offset
    requires Lands(s, TargetOf(s, offset, ll), later)
    ensures var r, left := Reset(s, t, TargetOf(s, offset, ll), later), offset - (later - ll);
            && Sound(r) && |r.target| == |s.target| && IsSet(r, t)
            && Deadline(r, t) == PeriodStart(s) + ll + offset
                                 + if left < OVERHEAD <= TargetOf(s, offset, ll) then WORD32 else 0
  {
    TargetAhead(s, offset, ll, later);
    ResetArms(s, t, TargetOf(s, offset, ll), later);
  }

  ghost function Step(s: State, op: Op): (r: State)
    requires Sound(s) && Legal(s, op)
    ensures Sound(r)
  {
    match op
    case Set(t, offset, ll, later) => Reset(s, t, TargetOf(s, offset, ll), later)
    case Cancel(t) => RemoveSound(s, t); Remove(s, t)
    case Fire => ExpireSound(s); Expire(s)
    case Tick => NextPeriodSound(s); NextPeriod(s)
  }

  /** The timer an entry is about; 0, which is no timer, for a change of period. */
  function Subject(s: State, op: Op): nat
    requires Sound(s) && Legal(s, op)
  {
    match op
    case Set(t, _, _, _) => t
    case Cancel(t) => t
    case Fire => s.current[0]
    case Tick => 0
  }

  /** What each entry does to the timers and to the clock: the timer it is about is armed for its target, or not
      armed any more, no other timer changes, and only a change of period moves the clock. */
  lemma StepTimers(s: State, op: Op)
    requires Sound(s) && Legal(s, op)
    ensures var r, t := Step(s, op), Subject(s, op);
            && |r.target| == |s.target| && t < |s.target|
            && (forall x :: 0 <= x < |s.target| && x != t ==> r.target[x] == s.target[x] && r.longTarget[x] == s.longTarget[x])
            && PeriodStart(r) == (if op.Tick? then PeriodStart(Ticked(s)) else PeriodStart(s))
            && match op
               case Set(_, offset, ll, later) =>
                 var target := TargetOf(s, offset, ll);
                 var o := Offset(target, Now(s, later));
                 if o <= BACKOFF then !IsSet(r, t) else ArmedFor(s, r, t, target, o, PeriodStart(s) + later)
               case _ => !IsSet(r, t)
  {
    match op
    case Set(t, offset, ll, later) =>
      SetTimers(s, t, TargetOf(s, offset, ll), later);
    case Cancel(t) => RemoveSound(s, t);
    case Fire => ExpireSound(s);
    case Tick => NextPeriodSound(s);
  }

  lemma SetTimers(s: State, t: nat, target: nat, ll: nat)
    requires Sound(s) && 0 < t < |s.target| && target < WORD32 && ll < PERIOD
    requires Offset(target, Now(s, ll)) <= BACKOFF || Lands(s, target, ll)
    ensures var r, o := Reset(s, t, target, ll), Offset(target, Now(s, ll));
            && Sound(r) && |r.target| == |s.target| && PeriodStart(r) == PeriodStart(s)
            && (forall x :: 0 <= x < |s.target| && x != t ==> r.target[x] == s.target[x] && r.longTarget[x] == s.longTarget[x])
            && if o <= BACKOFF then !IsSet(r, t) else ArmedFor(s, r, t, target, o, PeriodStart(s) + ll)
  {
    RemoveSound(s, t);
    ResetArms(s, t, target, ll);
    ResetSteps(s, Remove(s, t), t, target, ll);
  }

  lemma SetSound(s: State, t: nat, target: nat, ll: nat)
    requires Sound(s) && 0 < t < |s.target| && !IsSet(s, t)
    requires target < WORD32 && ll < PERIOD
    ensures InTables(s)
    ensures Sound(SetAbsolute(s, t, target, ll)) <==> Offset(target, Now(s, ll)) <= BACKOFF || Lands(s, target, ll)
  {
    if Offset(target, Now(s, ll)) > BACKOFF {
      InsertKeeps(s, t, target, ll);
    }
  }

  ghost predicate LegalRun(s: State, ops: seq<Op>)
    requires Sound(s)
    decreases |ops|
  {
    ops == [] || (Legal(s, ops[0]) && LegalRun(Step(s, ops[0]), ops[1..]))
  }

  ghost function Run(s: State, ops: seq<Op>): State
    requires Sound(s) && LegalRun(s, ops)
    decreases |ops|
  {
    if ops == [] then s else Run(Step(s, ops[0]), ops[1..])
  }

  function Initial(timers: nat): State {
    State(seq(timers + 1, i => 0), seq(timers + 1, i => 0), [], [], [], 0, 0)
  }

  lemma InitialSound(timers: nat)
    ensures Sound(Initial(timers)) && PeriodStart(Initial(timers)) == 0 && |Initial(timers).target| == timers + 1
    ensures forall t :: 0 <= t <= timers ==> !IsSet(Initial(timers), t)
  {
  }

  /** In every reachable state an armed timer is on exactly one list and there once, the lists are sorted,
      nothing is overdue and the overflow list is empty. */
  lemma {:induction false} RunSafe(s: State, ops: seq<Op>)
    requires Sound(s) && LegalRun(s, ops)
    ensures var r := Run(s, ops);
            && Sound(r) && r.overflow == []
            && (forall t :: 0 < t < |r.target| && IsSet(r, t) ==> t in r.current + r.long && Deadline(r, t) >= PeriodStart(r))
            && Distinct(r.current + r.long) && SortedBy(r.target, r.current) && SortedBy(Deadlines(r), r.long)
    decreases |ops|
  {
    if ops == [] {
      assert forall i :: 0 <= i < |s.current| ==> s.current[i] in s.current;
      assert forall i :: 0 <= i < |s.long| ==> s.long[i] in s.long;
    } else {
      RunSafe(Step(s, ops[0]), ops[1..]);
    }
  }
}
