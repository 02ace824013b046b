/** NULL-terminated lists threaded through a table of links: entry p of the table is the successor of
    thread or timer p, and 0 is NULL. */
module LinkedChains {
  import opened Sequences

  ghost predicate ChainAt(link: seq<nat>, l: seq<nat>, i: nat)
    requires i < |l|
  {
    0 < l[i] < |link| && link[l[i]] == if i + 1 < |l| then l[i + 1] else 0
  }

  ghost predicate Linked(link: seq<nat>, l: seq<nat>) {
    forall i {:trigger ChainAt(link, l, i)} :: 0 <= i < |l| ==> ChainAt(link, l, i)
  }

  function First(l: seq<nat>): nat {
    if l == [] then 0 else l[0]
  }

  lemma LinkedKept(link: seq<nat>, link': seq<nat>, l: seq<nat>)
    requires Linked(link, l) && |link'| == |link|
    requires forall i {:trigger link'[l[i]]} :: 0 <= i < |l| && l[i] < |link| ==> link'[l[i]] == link[l[i]]
    ensures Linked(link', l)
  {
    forall i | 0 <= i < |l| ensures ChainAt(link', l, i) {
      assert ChainAt(link, l, i);
    }
  }

  /** The list without its first entry. */
  lemma LinkedRest(link: seq<nat>, l: seq<nat>)
    requires Linked(link, l) && l != []
    ensures 0 < l[0] < |link| && link[l[0]] == First(l[1..]) && Linked(link, l[1..])
  {
    assert ChainAt(link, l, 0);
    forall i | 0 <= i < |l[1..]| ensures ChainAt(link, l[1..], i) {
      assert ChainAt(link, l, i + 1);
    }
  }

  /** `p` is linked in as entry `k`. */
  lemma LinkedWith(link: seq<nat>, link': seq<nat>, l: seq<nat>, p: nat, k: nat)
    requires Linked(link, l) && Distinct(l) && p !in l && 0 < p < |link| && k <= |l|
    requires k > 0 ==> l[k - 1] < |link|
    requires var entered := link[p := if k < |l| then l[k] else 0];
             link' == if k == 0 then entered else entered[l[k - 1] := p]
    ensures Linked(link', With(l, k, p))
  {
    var t := With(l, k, p);
    forall i | 0 <= i < |t| ensures ChainAt(link', t, i) {
      assert i < k ==> ChainAt(link, l, i);
      assert i > k ==> ChainAt(link, l, i - 1);
    }
  }

  /** Entry `k` is bypassed. */
  lemma LinkedWithout(link: seq<nat>, link': seq<nat>, l: seq<nat>, k: nat)
    requires Linked(link, l) && Distinct(l) && k < |l| && l[k] < |link| && (k > 0 ==> l[k - 1] < |link|)
    requires link' == if k == 0 then link else link[l[k - 1] := link[l[k]]]
    ensures Linked(link', Without(l, k))
  {
    var t := Without(l, k);
    assert ChainAt(link, l, k);
    forall i | 0 <= i < |t| ensures ChainAt(link', t, i) {
      assert ChainAt(link, l, if i < k then i else i + 1);
    }
  }

  /** The list is cut before entry `k`. */
  lemma LinkedCut(link: seq<nat>, link': seq<nat>, l: seq<nat>, k: nat)
    requires Linked(link, l) && Distinct(l) && k <= |l| && (k > 0 ==> l[k - 1] < |link|)
    requires link' == if k == 0 then link else link[l[k - 1] := 0]
    ensures Linked(link', l[..k]) && Linked(link', l[k..])
  {
    forall i | 0 <= i < k ensures ChainAt(link', l[..k], i) {
      assert ChainAt(link, l, i);
    }
    forall i | 0 <= i < |l| - k ensures ChainAt(link', l[k..], i) {
      assert ChainAt(link, l, k + i);
    }
  }

  /** The link of entry `k` is cleared: exactly the entries behind it are lost. */
  lemma LinkCleared(link: seq<nat>, l: seq<nat>, k: nat)
    requires Linked(link, l) && Distinct(l) && k < |l| && l[k] < |link|
    ensures Linked(link[l[k] := 0], l[..k + 1]) && (Linked(link[l[k] := 0], l) <==> k == |l| - 1)
  {
    var link' := link[l[k] := 0];
    LinkedCut(link, link', l, k + 1);
    if k < |l| - 1 {
      assert ChainAt(link, l, k + 1) && !ChainAt(link', l, k);
    } else {
      assert l[..k + 1] == l;
    }
  }

  /** Links of one list, and of `p`, change: a list that shares nothing with them stays. */
  lemma LinkedApart(link: seq<nat>, link': seq<nat>, l: seq<nat>, p: nat, m: seq<nat>)
    requires Linked(link, m) && |link'| == |link| && p !in m && forall i :: 0 <= i < |m| ==> m[i] !in l
    requires forall x :: 0 <= x < |link| && x != p && x !in l ==> link'[x] == link[x]
    ensures Linked(link', m)
  {
    LinkedKept(link, link', m);
  }
}
