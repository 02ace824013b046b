/** How the thread links show the lists of the scheduler: run queues as rings reached from their last
    thread, mutex queues as chains in priority order. */
module KernelLinks {
  import opened BitCache
  import opened LinkedChains
  import opened Scheduling
  import opened Sequences
  import opened WaitOrder

  /** mutex_LOCKED, the queue pointer of a mutex that is held while nobody waits. */
  const LOCKED := -1

  ghost predicate RingAt(link: seq<nat>, l: seq<nat>, i: nat)
    requires i < |l|
  {
    l[i] < |link| && link[l[i]] == l[if i + 1 < |l| then i + 1 else 0]
  }

  ghost predicate RingOf(link: seq<nat>, last: nat, l: seq<nat>) {
    last == (if l == [] then 0 else l[|l| - 1]) && forall i :: 0 <= i < |l| ==> RingAt(link, l, i)
  }

  ghost predicate ChainOf(link: seq<nat>, head: int, l: seq<nat>, locked: bool) {
    && head == (if l != [] then l[0] else if locked then LOCKED else 0)
    && Linked(link, l)
  }

  ghost predicate Rings(link: seq<nat>, queues: seq<nat>, lists: seq<seq<nat>>) {
    |queues| == LEVELS <= |lists| && forall q :: 0 <= q < LEVELS ==> RingOf(link, queues[q], lists[q])
  }

  /** A run queue has its bit set when it is not empty. */
  ghost predicate Cached(bits: nat, queues: seq<nat>) {
    |queues| == LEVELS && forall q :: 0 <= q < LEVELS ==> (Bit(bits, q) <==> queues[q] != 0)
  }

  /** The word of mutex `m` and the links behind it show who waits, in priority order. */
  ghost predicate ChainFor(link: seq<nat>, head: int, s: Sys, m: nat)
    requires Shape(s) && m < |s.locked|
  {
    InTable(s.prio, s.lists[LEVELS + m]) && ChainOf(link, head, ByPrio(s.prio, s.lists[LEVELS + m]), s.locked[m])
  }

  ghost predicate Chains(link: seq<nat>, heads: seq<int>, s: Sys) {
    Shape(s) && |heads| == |s.locked| && forall m :: 0 <= m < |heads| ==> ChainFor(link, heads[m], s, m)
  }

  /** Only links of thread `p` and of threads on list `l` changed. */
  ghost predicate OnlyOn(link: seq<nat>, link': seq<nat>, home: seq<int>, l: int, p: int) {
    |link| == |link'| == |home| && forall x :: 0 <= x < |home| && x != p && home[x] != l ==> link'[x] == link[x]
  }

  lemma RingKept(link: seq<nat>, link': seq<nat>, home: seq<int>, l: int, p: int, last: nat, t: seq<nat>, j: int)
    requires OnlyOn(link, link', home, l, p) && RingOf(link, last, t)
    requires Members(t, home, j) && j != l && (0 <= p < |home| ==> home[p] != j)
    ensures RingOf(link', last, t)
  {
    forall i | 0 <= i < |t| ensures RingAt(link', t, i) {
      assert RingAt(link, t, i);
    }
  }

  lemma ChainKept(link: seq<nat>, link': seq<nat>, home: seq<int>, l: int, p: int, c: seq<nat>, j: int)
    requires OnlyOn(link, link', home, l, p) && Linked(link, c)
    requires Members(c, home, j) && j != l && (0 <= p < |home| ==> home[p] != j)
    ensures Linked(link', c)
  {
    LinkedKept(link, link', c);
  }

  /** Links of one list change: the other run queues stay. */
  lemma RingsKept(link: seq<nat>, link': seq<nat>, home: seq<int>, l: int, p: int, queues: seq<nat>, lists: seq<seq<nat>>)
    requires Rings(link, queues, lists) && Placed(lists, home) && OnlyOn(link, link', home, l, p)
    requires 0 <= p < |home| ==> home[p] == l || home[p] < 0
    ensures forall q :: 0 <= q < LEVELS && q != l ==> RingOf(link', queues[q], lists[q])
  {
    forall q | 0 <= q < LEVELS && q != l ensures RingOf(link', queues[q], lists[q]) {
      RingKept(link, link', home, l, p, queues[q], lists[q], q);
    }
  }

  /** Links of one list change: the other mutex queues stay. */
  lemma ChainsKept(link: seq<nat>, link': seq<nat>, l: int, p: int, heads: seq<int>, s: Sys)
    requires Chains(link, heads, s) && Placed(s.lists, s.home) && OnlyOn(link, link', s.home, l, p)
    requires 0 <= p < |s.home| ==> s.home[p] == l || s.home[p] < 0
    ensures forall m :: 0 <= m < |heads| && LEVELS + m != l ==> ChainFor(link', heads[m], s, m)
  {
    forall m | 0 <= m < |heads| && LEVELS + m != l ensures ChainFor(link', heads[m], s, m) {
      assert ChainFor(link, heads[m], s, m);
      ByPrioHome(s.prio, s.lists[LEVELS + m], s.home, LEVELS + m);
      ChainKept(link, link', s.home, l, p, ByPrio(s.prio, s.lists[LEVELS + m]), LEVELS + m);
    }
  }

  lemma ChainsSame(link: seq<nat>, heads: seq<int>, s: Sys, t: Sys)
    requires Chains(link, heads, s) && Shape(t) && t.prio == s.prio && t.locked == s.locked
    requires |t.lists| == |s.lists| && forall j :: LEVELS <= j < |t.lists| ==> t.lists[j] == s.lists[j]
    ensures Chains(link, heads, t)
  {
  }

  lemma {:induction false} ByPrioOf(prio: seq<nat>, prio': seq<nat>, a: seq<nat>, p: nat)
    requires InTable(prio, a) && |prio'| == |prio| && p !in a
    requires forall x :: 0 <= x < |prio| && x != p ==> prio'[x] == prio[x]
    ensures ByPrio(prio', a) == ByPrio(prio, a)
  {
    if a != [] {
      var n := |a| - 1;
      ByPrioOf(prio, prio', a[..n], p);
      var l := ByPrio(prio, a[..n]);
      forall i | 0 <= i < |l| ensures l[i] != p {
        ByPrioElement(prio, a[..n], i);
      }
      SlotOf(prio, prio', l, prio[a[n]], p);
    }
  }

  lemma SlotOf(prio: seq<nat>, prio': seq<nat>, l: seq<nat>, r: nat, p: nat)
    requires InTable(prio, l) && |prio'| == |prio| && p !in l
    requires forall x :: 0 <= x < |prio| && x != p ==> prio'[x] == prio[x]
    ensures Slot(prio', l, r) == Slot(prio, l, r)
  {
  }

  /** The priority of a thread that waits for nothing changes. */
  lemma ChainsMoved(link: seq<nat>, heads: seq<int>, s: Sys, t: Sys, p: nat)
    requires Chains(link, heads, s) && Placed(s.lists, s.home) && Shape(t) && p < PIDS && s.home[p] < 0
    requires t.prio == s.prio[p := t.prio[p]] && t.locked == s.locked && t.lists == s.lists
    ensures Chains(link, heads, t)
  {
    forall m | 0 <= m < |heads| ensures ChainFor(link, heads[m], t, m) {
      assert ChainFor(link, heads[m], s, m) && Members(s.lists[LEVELS + m], s.home, LEVELS + m);
      ByPrioOf(s.prio, t.prio, s.lists[LEVELS + m], p);
    }
  }

  // ---------------------------------------------------------------- one ring

  lemma PushRing(link: seq<nat>, link': seq<nat>, last: nat, l: seq<nat>, p: nat)
    requires RingOf(link, last, l) && Distinct(l) && p !in l && p < |link| && (l != [] ==> last < |link|)
    requires link' == if l == [] then link[p := p] else link[p := link[last]][last := p]
    ensures RingOf(link', p, l + [p])
  {
    var t := l + [p];
    forall i | 0 <= i < |t| ensures RingAt(link', t, i) {
      assert i < |l| ==> RingAt(link, l, i);
      assert l != [] ==> RingAt(link, l, |l| - 1);
    }
  }

  lemma PopRing(link: seq<nat>, link': seq<nat>, last: nat, l: seq<nat>)
    requires RingOf(link, last, l) && Distinct(l) && l != []
    requires last < |link| && link[last] < |link|
    requires link' == if |l| == 1 then link else link[last := link[link[last]]]
    ensures link[last] == l[0] && RingOf(link', if |l| == 1 then 0 else last, l[1..])
  {
    assert RingAt(link, l, |l| - 1) && RingAt(link, l, 0);
    var t := l[1..];
    forall i | 0 <= i < |t| ensures RingAt(link', t, i) {
      assert RingAt(link, l, i + 1);
    }
  }

  lemma RotateRing(link: seq<nat>, last: nat, l: seq<nat>)
    requires RingOf(link, last, l) && l != []
    ensures last < |link| && link[last] == l[0] && RingOf(link, l[0], l[1..] + [l[0]])
  {
    assert RingAt(link, l, |l| - 1);
    var t := l[1..] + [l[0]];
    forall i | 0 <= i < |t| ensures RingAt(link, t, i) {
      assert RingAt(link, l, if i + 1 < |l| then i + 1 else 0);
    }
  }

  // ---------------------------------------------------------------- one chain

  /** The chain without its first thread; `LOCKED` stands for a queue that ran empty. */
  lemma ChainRest(link: seq<nat>, c: seq<nat>)
    requires c != [] && Linked(link, c)
    ensures 0 < c[0] < |link| && ChainOf(link, Word(link[c[0]]), c[1..], true)
  {
    LinkedRest(link, c);
    assert |c| > 1 ==> ChainAt(link, c, 1);
  }

  /** The word of a locked mutex, given the head of its queue. */
  function Word(head: nat): int {
    if head == 0 then LOCKED else head
  }

  /** The words with that of mutex `m` as if it were marked as locked. */
  function Marked(words: seq<int>, m: nat): (r: seq<int>)
    requires m < |words| && words[m] >= 0
    ensures |r| == |words|
  {
    words[m := Word(words[m])]
  }

  lemma MarkedAfter(words: seq<int>, m: nat, head: nat)
    requires m < |words|
    ensures Marked(words[m := head], m) == words[m := Word(head)]
  {
  }

  /** The queue of the waiters `a` without the one to serve next, which is the first of the chain. */
  lemma ChainServed(link: seq<nat>, prio: seq<nat>, a: seq<nat>)
    requires a != [] && InTable(prio, a) && Linked(link, ByPrio(prio, a))
    ensures var first, rest := a[Best(prio, a)], Without(a, Best(prio, a));
            && 0 < first < |link| && InTable(prio, rest)
            && ChainOf(link, Word(link[first]), ByPrio(prio, rest), true)
  {
    FirstIsBest(prio, a);
    ChainRest(link, ByPrio(prio, a));
  }

  /** Links of the threads in `c`, all of list `l`, and of `p` changed. */
  lemma OnlyOnList(link: seq<nat>, link': seq<nat>, home: seq<int>, l: int, p: nat, c: seq<nat>)
    requires |link| == |link'| == |home| && Members(c, home, l)
    requires forall x :: 0 <= x < |link| && x != p && x !in c ==> link'[x] == link[x]
    ensures OnlyOn(link, link', home, l, p)
  {
  }

  lemma ByPrioHome(prio: seq<nat>, a: seq<nat>, home: seq<int>, l: int)
    requires InTable(prio, a) && Members(a, home, l)
    ensures Members(ByPrio(prio, a), home, l)
  {
    ByPrioDistinct(prio, a);
    forall i | 0 <= i < |a| ensures 0 < ByPrio(prio, a)[i] < |home| && home[ByPrio(prio, a)[i]] == l {
      ByPrioElement(prio, a, i);
    }
  }
}
