/** Linked lists kept in the order of a key: threads waiting by priority, timers by target. A new entry goes
    behind all those whose key is not larger than its own. */
module KeyedLists {
  import opened LinkedChains
  import opened Sequences
  import opened WaitOrder

  /** `stays` is the test of the insertion loop for an entry of key `r`. */
  ghost predicate Compares(stays: nat --> bool, key: seq<nat>, r: nat) {
    forall x :: 0 <= x < |key| ==> stays.requires(x) && (stays(x) <==> key[x] <= r)
  }

  /** The test of thread_add_to_list and _add_timer_to_list, which compare the keys themselves. */
  function NotAfter(key: seq<nat>, p: nat): (stays: nat --> bool)
    requires p < |key|
    ensures Compares(stays, key, key[p])
  {
    (x: nat) requires x < |key| => key[x] <= key[p]
  }

  /** The loop of the insertion functions: the place behind the last entry that stays before the new one. */
  method FindSlot(link: seq<nat>, head: nat, stays: nat --> bool, ghost key: seq<nat>, ghost r: nat, ghost l: seq<nat>)
    returns (prev: nat, cur: nat, ghost k: nat)
    requires |link| == |key| && head == First(l) && Linked(link, l) && InTable(key, l) && Compares(stays, key, r)
    ensures k == Slot(key, l, r)
    ensures cur == (if k < |l| then l[k] else 0) && prev == (if k > 0 then l[k - 1] else 0) && (k > 0 ==> 0 < prev)
  {
    prev, cur, k := 0, head, 0;
    assert l != [] ==> ChainAt(link, l, 0);
    while cur != 0 && stays(cur)
      invariant k <= |l| && cur == (if k < |l| then l[k] else 0) && prev == (if k > 0 then l[k - 1] else 0)
      invariant (k < |l| ==> cur != 0) && (k > 0 ==> prev != 0)
      invariant forall i :: 0 <= i < k ==> key[l[i]] <= r
      decreases |l| - k
    {
      assert ChainAt(link, l, k);
      prev, cur, k := cur, link[cur], k + 1;
      assert k < |l| ==> ChainAt(link, l, k);
    }
    SlotIs(key, l, r, k);
  }

  /** thread_add_to_list, _add_timer_to_list, _add_timer_to_long_list: the links and the head after `p` has
      joined the list `l` */
  method AddToList(link: seq<nat>, head: nat, stays: nat --> bool, p: nat, ghost key: seq<nat>, ghost l: seq<nat>)
    returns (links: seq<nat>, first: nat)
    requires |link| == |key| && head == First(l) && Linked(link, l) && InTable(key, l)
    requires Distinct(l) && p !in l && 0 < p < |key| && Compares(stays, key, key[p])
    ensures |links| == |link| && forall x :: 0 <= x < |link| && x != p && x !in l ==> links[x] == link[x]
    ensures first == First(Enter(key, l, p)) && Linked(links, Enter(key, l, p))
  {
    var prev, cur;
    ghost var k;
    prev, cur, k := FindSlot(link, head, stays, key, key[p], l);
    links, first := link[p := cur], head;
    if prev == 0 {
      first := p;
    } else {
      links := links[prev := p];
    }
    LinkedWith(link, links, l, p, k);
  }
}
