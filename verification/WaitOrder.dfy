/** Queues kept in priority order: a new thread goes behind those of its own priority. */
module WaitOrder {
  import opened Sequences

  predicate InTable(prio: seq<nat>, a: seq<nat>) {
    forall i :: 0 <= i < |a| ==> a[i] < |prio|
  }

  /** Where `thread_add_to_list` enters a thread of priority `r`: before the first one of lower priority.
      Lower numbers are higher priorities. */
  function Slot(prio: seq<nat>, l: seq<nat>, r: nat): (k: nat)
    requires InTable(prio, l)
    ensures k <= |l|
    ensures forall i :: 0 <= i < k ==> prio[l[i]] <= r
    ensures k < |l| ==> prio[l[k]] > r
  {
    if l == [] || prio[l[0]] > r then 0 else 1 + Slot(prio, l[1..], r)
  }

  lemma SlotIs(prio: seq<nat>, l: seq<nat>, r: nat, k: nat)
    requires InTable(prio, l) && k <= |l| && (forall i :: 0 <= i < k ==> prio[l[i]] <= r) && (k < |l| ==> prio[l[k]] > r)
    ensures Slot(prio, l, r) == k
  {
  }

  function Enter(prio: seq<nat>, l: seq<nat>, p: nat): (r: seq<nat>)
    requires InTable(prio, l) && p < |prio|
    ensures |r| == |l| + 1 && InTable(prio, r)
  {
    With(l, Slot(prio, l, prio[p]), p)
  }

  /** `l'` is `l` with `p` put in behind all that come before it or are its equals. */
  ghost predicate Gains(prio: seq<nat>, l: seq<nat>, l': seq<nat>, p: nat)
    requires InTable(prio, l) && p < |prio|
  {
    exists k {:trigger l[..k]} :: 0 <= k <= |l| && l' == l[..k] + [p] + l[k..]
      && (forall i :: 0 <= i < k ==> prio[l[i]] <= prio[p]) && (k < |l| ==> prio[p] < prio[l[k]])
  }

  lemma EnterGains(prio: seq<nat>, l: seq<nat>, p: nat)
    requires InTable(prio, l) && p < |prio|
    ensures Gains(prio, l, Enter(prio, l, p), p)
  {
    var k := Slot(prio, l, prio[p]);
    assert Enter(prio, l, p) == l[..k] + [p] + l[k..];
  }

  /** The queue that results when the threads of `a` arrive in this order. */
  function ByPrio(prio: seq<nat>, a: seq<nat>): (l: seq<nat>)
    requires InTable(prio, a)
    ensures |l| == |a| && InTable(prio, l)
  {
    if a == [] then [] else Enter(prio, ByPrio(prio, a[..|a| - 1]), a[|a| - 1])
  }

  /** The queue holds the threads that arrived. */
  lemma {:induction false} ByPrioIn(prio: seq<nat>, a: seq<nat>)
    requires InTable(prio, a)
    ensures forall x :: x in ByPrio(prio, a) <==> x in a
  {
    if a != [] {
      var n := |a| - 1;
      var l := ByPrio(prio, a[..n]);
      ByPrioIn(prio, a[..n]);
      InWith(l, Slot(prio, l, prio[a[n]]), a[n]);
      assert a == a[..n] + [a[n]];
    }
  }

  lemma ByPrioElement(prio: seq<nat>, a: seq<nat>, i: nat)
    requires InTable(prio, a) && i < |a|
    ensures ByPrio(prio, a)[i] in a
  {
    ByPrioIn(prio, a);
  }

  lemma {:induction false} ByPrioDistinct(prio: seq<nat>, a: seq<nat>)
    requires InTable(prio, a) && Distinct(a)
    ensures Distinct(ByPrio(prio, a))
  {
    if a != [] {
      var n := |a| - 1;
      var l := ByPrio(prio, a[..n]);
      ByPrioDistinct(prio, a[..n]);
      forall i | 0 <= i < |l| ensures l[i] != a[n] {
        ByPrioElement(prio, a[..n], i);
      }
      WithDistinct(l, Slot(prio, l, prio[a[n]]), a[n]);
    }
  }

  lemma ByPrioEnter(prio: seq<nat>, a: seq<nat>, p: nat)
    requires InTable(prio, a) && p < |prio|
    ensures ByPrio(prio, a + [p]) == Enter(prio, ByPrio(prio, a), p)
  {
  }

  /** The waiter to serve next: highest priority, the earliest among equals. */
  function Best(prio: seq<nat>, a: seq<nat>): (k: nat)
    requires a != [] && InTable(prio, a)
    ensures k < |a|
    ensures forall i :: 0 <= i < |a| ==> prio[a[k]] <= prio[a[i]]
    ensures forall i :: 0 <= i < k ==> prio[a[k]] < prio[a[i]]
  {
    if |a| == 1 then 0
    else
      var k := Best(prio, a[..|a| - 1]);
      if prio[a[|a| - 1]] < prio[a[k]] then |a| - 1 else k
  }

  /** Waiter `k` is of the highest priority, and came first among those. */
  predicate Foremost(prio: seq<nat>, a: seq<nat>, k: nat)
    requires InTable(prio, a)
  {
    && k < |a| && (forall i :: 0 <= i < |a| ==> prio[a[k]] <= prio[a[i]])
    && forall i :: 0 <= i < k ==> prio[a[k]] < prio[a[i]]
  }

  lemma EnterFirst(prio: seq<nat>, l: seq<nat>, p: nat)
    requires InTable(prio, l) && p < |prio| && l != [] && prio[p] < prio[l[0]]
    ensures Enter(prio, l, p)[0] == p && Enter(prio, l, p)[1..] == l
  {
  }

  lemma EnterLater(prio: seq<nat>, l: seq<nat>, p: nat)
    requires InTable(prio, l) && p < |prio| && l != [] && prio[l[0]] <= prio[p]
    ensures Enter(prio, l, p)[0] == l[0] && Enter(prio, l, p)[1..] == Enter(prio, l[1..], p)
  {
  }

  lemma WithoutLast(a: seq<nat>, j: nat)
    requires j < |a| - 1
    ensures Without(a, j) == Without(a[..|a| - 1], j) + [a[|a| - 1]]
    ensures Without(a, j)[..|a| - 2] == Without(a[..|a| - 1], j)
  {
  }

  /** The first of the queue is the waiter to serve, and without it the queue is that of the others. */
  lemma {:induction false} FirstIsBest(prio: seq<nat>, a: seq<nat>)
    requires a != [] && InTable(prio, a)
    ensures ByPrio(prio, a)[0] == a[Best(prio, a)]
    ensures ByPrio(prio, a)[1..] == ByPrio(prio, Without(a, Best(prio, a)))
  {
    var n := |a| - 1;
    var b, p := a[..n], a[n];
    if n == 0 {
      assert Without(a, 0) == [];
    } else {
      FirstIsBest(prio, b);
      var j := Best(prio, b);
      if prio[p] < prio[b[j]] {
        EnterFirst(prio, ByPrio(prio, b), p);
        assert Without(a, n) == b;
      } else {
        EnterLater(prio, ByPrio(prio, b), p);
        WithoutLast(a, j);
      }
    }
  }
}
