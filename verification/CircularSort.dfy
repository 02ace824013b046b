/** The in-place bottom-up merge sort of the circular list. The end of the list is recognised by
    comparing with the old head while the links are being rewritten. */
module CircularSort {
  import opened CircularList
  import MergeSpec
  import opened Sequences

  /** Node `i` of `s` as a pointer; NULL past the end. */
  function At(s: seq<Node>, i: nat): Node? {
    if i < |s| then s[i] else null
  }

  /** The merged list so far is linked up; its nodes are distinct nodes of `s`, none of them among
      those still to come: `s[i..m]` of the first run and everything from `s[j]` on. */
  ghost predicate Merged(out: seq<Node>, s: seq<Node>, i: nat, m: nat, j: nat)
    reads out
  {
    && Distinct(out)
    && (forall k :: 0 <= k < |out| - 1 ==> out[k].next == out[k + 1])
    && (forall k :: 0 <= k < |out| ==> out[k] in s)
    && (forall k, x :: 0 <= k < |out| && 0 <= x < |s| && (i <= x < m || j <= x) ==> out[k] != s[x])
  }

  /** The links of the nodes still to come are those of the old ring. */
  ghost predicate Untouched(s: seq<Node>, i: nat, m: nat, j: nat)
    reads s
  {
    forall x :: 0 <= x < |s| && (i <= x < m || j <= x) ==> s[x].next == s[if x + 1 < |s| then x + 1 else 0]
  }

  ghost predicate Ends(out: seq<Node>, list: Node?, tail: Node?) {
    if out == [] then list == null && tail == null else list == out[0] && tail == out[|out| - 1]
  }

  /** What is merged and what is left to merge make up `goal`. */
  ghost predicate ToMerge<T>(cmp: (T, T) -> int, s: seq<T>, i: nat, m: nat, j: nat, end: nat, out: seq<T>, goal: seq<T>)
    requires i <= m <= j <= end <= |s|
  {
    out + MergeSpec.Merge(cmp, s[i..m], s[j..end]) == goal
  }

  lemma MergeDone<T>(cmp: (T, T) -> int, s: seq<T>, m: nat, end: nat, out: seq<T>, goal: seq<T>)
    requires m <= end <= |s| && ToMerge(cmp, s, m, m, end, end, out, goal)
    ensures out == goal
  {
  }

  /** What is merged and what is left to merge, before and after one more node. */
  lemma MergeStep<T>(cmp: (T, T) -> int, s: seq<T>, i: nat, m: nat, j: nat, end: nat, out: seq<T>, goal: seq<T>, first: bool)
    requires i <= m <= j <= end <= |s| && ToMerge(cmp, s, i, m, j, end, out, goal)
    requires if first then i < m && (j == end || cmp(s[i], s[j]) <= 0)
             else j < end && (i == m || cmp(s[i], s[j]) > 0)
    ensures first ==> ToMerge(cmp, s, i + 1, m, j, end, out + [s[i]], goal)
    ensures !first ==> ToMerge(cmp, s, i, m, j + 1, end, out + [s[j]], goal)
  {
  }

  /** `x->next`, with NULL for the end of the old ring. */
  method Next(x: Node, oldhead: Node, ghost s: seq<Node>, ghost k: nat) returns (r: Node?)
    requires Distinct(s) && k < |s| && x == s[k] && oldhead == s[0]
    requires x.next == s[if k + 1 < |s| then k + 1 else 0]
    ensures r == At(s, k + 1)
  {
    r := x.next;
    if r == oldhead {
      r := null;
    }
  }

  /** Decides which run the next node comes from and steps past it. */
  method Choose(p0: Node?, q0: Node?, psize0: nat, qsize0: nat, oldhead: Node, cmp: (Node, Node) -> int,
                ghost s: seq<Node>, ghost i: nat, ghost m: nat, ghost j: nat, ghost end: nat)
    returns (e: Node, p: Node?, q: Node?, psize: nat, qsize: nat, ghost first: bool)
    requires Distinct(s) && i <= m <= j <= end <= |s| && |s| > 0 && oldhead == s[0] && Untouched(s, i, m, j)
    requires psize0 == m - i && (i < m ==> p0 == s[i])
    requires q0 == At(s, j) && (qsize0 > 0 && q0 != null <==> j < end) && (i < m || j < end)
    ensures first ==> i < m && (j == end || cmp(s[i], s[j]) <= 0)
    ensures !first ==> j < end && (i == m || cmp(s[i], s[j]) > 0)
    ensures e == if first then s[i] else s[j]
    ensures psize == if first then psize0 - 1 else psize0
    ensures qsize == if first then qsize0 else qsize0 - 1
    ensures q == At(s, if first then j else j + 1)
    ensures p == if first then At(s, i + 1) else p0
  {
    p, q, psize, qsize, first := p0, q0, psize0, qsize0, true;
    if psize == 0 {
      e := q;
      q := Next(e, oldhead, s, j);
      qsize, first := qsize - 1, false;
    } else if qsize == 0 || q == null {
      e := p;
      p := Next(e, oldhead, s, i);
      psize := psize - 1;
    } else if cmp(p, q) <= 0 {
      e := p;
      p := Next(e, oldhead, s, i);
      psize := psize - 1;
    } else {
      e := q;
      q := Next(e, oldhead, s, j);
      qsize, first := qsize - 1, false;
    }
  }

  /** Appends `e`, the next node of the first run (`first`) or of the second, to the merged list. */
  method Append(e: Node, list0: Node?, tail0: Node?, ghost s: seq<Node>, ghost out: seq<Node>,
                ghost i: nat, ghost m: nat, ghost j: nat, ghost first: bool)
    returns (list: Node, tail: Node)
    requires Distinct(s) && i <= m <= j <= |s| && Ends(out, list0, tail0)
    requires Merged(out, s, i, m, j) && Untouched(s, i, m, j)
    requires if first then i < m && e == s[i] else j < |s| && e == s[j]
    modifies s
    ensures Ends(out + [e], list, tail)
    ensures first ==> Merged(out + [e], s, i + 1, m, j) && Untouched(s, i + 1, m, j)
    ensures !first ==> Merged(out + [e], s, i, m, j + 1) && Untouched(s, i, m, j + 1)
  {
    if tail0 != null {
      list := list0;
      tail0.next := e;
    } else {
      list := e;
    }
    tail := e;
  }

  /** One round of the inner loop: the next node is taken from one of the runs and appended. */
  method MergeOne(p0: Node?, q0: Node?, psize0: nat, qsize0: nat, oldhead: Node, list0: Node?, tail0: Node?,
                  cmp: (Node, Node) -> int, ghost s: seq<Node>, ghost i0: nat, ghost m: nat, ghost j0: nat,
                  ghost end: nat, ghost out0: seq<Node>, ghost goal: seq<Node>)
    returns (p: Node?, q: Node?, psize: nat, qsize: nat, list: Node?, tail: Node?, ghost i: nat, ghost j: nat, ghost out: seq<Node>)
    requires Distinct(s) && i0 <= m <= j0 <= end <= |s| && |s| > 0 && oldhead == s[0]
    requires psize0 == m - i0 && (i0 < m ==> p0 == s[i0])
    requires q0 == At(s, j0) && (qsize0 > 0 && q0 != null <==> j0 < end) && (i0 < m || j0 < end)
    requires ToMerge(cmp, s, i0, m, j0, end, out0, goal)
    requires Untouched(s, i0, m, j0) && Merged(out0, s, i0, m, j0) && Ends(out0, list0, tail0)
    modifies s
    ensures i0 <= i <= m <= j <= end && j0 <= j && i + j == i0 + j0 + 1
    ensures psize == m - i && (i < m ==> p == s[i]) && q == At(s, j) && qsize == qsize0 - (j - j0)
    ensures ToMerge(cmp, s, i, m, j, end, out, goal)
    ensures Untouched(s, i, m, j) && Merged(out, s, i, m, j) && Ends(out, list, tail)
  {
    var e: Node;
    ghost var first;
    e, p, q, psize, qsize, first := Choose(p0, q0, psize0, qsize0, oldhead, cmp, s, i0, m, j0, end);
    list, tail := Append(e, list0, tail0, s, out0, i0, m, j0, first);
    MergeStep(cmp, s, i0, m, j0, end, out0, goal, first);
    i, j := if first then i0 + 1 else i0, if first then j0 else j0 + 1;
    out := out0 + [e];
  }

  /** The inner loop of a pass, with `p` and `q` at the starts `c` and `m` of the two runs. */
  method MergeLoop(p0: Node, q0: Node?, psize0: nat, insize: nat, oldhead: Node, list0: Node?, tail0: Node?,
                   cmp: (Node, Node) -> int, ghost s: seq<Node>, ghost c: nat, ghost m: nat, ghost end: nat,
                   ghost out0: seq<Node>, ghost goal: seq<Node>)
    returns (q: Node?, list: Node?, tail: Node?, ghost out: seq<Node>)
    requires Distinct(s) && c + psize0 == m <= end <= |s| && |s| > 0 && oldhead == s[0]
    requires (c < m ==> p0 == s[c]) && q0 == At(s, m) && end == MergeSpec.Min(m + insize, |s|)
    requires ToMerge(cmp, s, c, m, m, end, out0, goal)
    requires Untouched(s, c, m, m) && Merged(out0, s, c, m, m) && Ends(out0, list0, tail0)
    modifies s
    ensures q == At(s, end) && ToMerge(cmp, s, m, m, end, end, out, goal)
    ensures Untouched(s, m, m, end) && Merged(out, s, m, m, end) && Ends(out, list, tail)
  {
    ghost var i, j := c, m;
    var p: Node?;
    p, q, list, tail, out := p0, q0, list0, tail0, out0;
    var psize, qsize := psize0, insize;
    while psize > 0 || (qsize > 0 && q != null)
      invariant c <= i <= m <= j <= end && psize == m - i && qsize == insize - (j - m)
      invariant i < m ==> p == s[i]
      invariant q == At(s, j)
      invariant ToMerge(cmp, s, i, m, j, end, out, goal)
      invariant Untouched(s, i, m, j) && Merged(out, s, i, m, j) && Ends(out, list, tail)
      decreases psize + qsize
    {
      p, q, psize, qsize, list, tail, i, j, out :=
        MergeOne(p, q, psize, qsize, oldhead, list, tail, cmp, s, i, m, j, end, out, goal);
    }
  }

  /** Merges the run of `psize` nodes at `p` with the run of at most `insize` nodes at `q`, appending to
      the merged list `list0`..`tail0`. */
  method MergeRuns(p0: Node, q0: Node?, psize0: nat, insize: nat, oldhead: Node, list0: Node?, tail0: Node?,
                   cmp: (Node, Node) -> int, ghost s: seq<Node>, ghost c: nat, ghost m: nat, ghost e: nat, ghost out0: seq<Node>)
    returns (q: Node?, list: Node?, tail: Node?, ghost out: seq<Node>)
    requires Distinct(s) && 0 < psize0 && m == c + psize0 <= |s| && e == MergeSpec.Min(m + insize, |s|)
    requires p0 == s[c] && q0 == At(s, m) && oldhead == s[0]
    requires Untouched(s, c, c, c) && Merged(out0, s, c, c, c) && Ends(out0, list0, tail0)
    modifies s
    ensures out == out0 + MergeSpec.Merge(cmp, s[c..m], s[m..e])
    ensures q == At(s, e) && Untouched(s, e, e, e) && Merged(out, s, e, e, e) && Ends(out, list, tail)
  {
    ghost var goal := out0 + MergeSpec.Merge(cmp, s[c..m], s[m..e]);
    q, list, tail, out := MergeLoop(p0, q0, psize0, insize, oldhead, list0, tail0, cmp, s, c, m, e, out0, goal);
    MergeDone(cmp, s, m, e, out, goal);
  }

  /** Steps `insize` places along from `p`, or to the end of the old ring. */
  method StepAlong(p: Node, insize: nat, oldhead: Node, ghost s: seq<Node>, ghost c: nat)
    returns (q: Node?, psize: nat)
    requires Distinct(s) && c < |s| && p == s[c] && oldhead == s[0] && insize > 0 && Untouched(s, c, c, c)
    ensures c + psize == Middle(c, insize, |s|) && q == At(s, c + psize)
  {
    q, psize := p, 0;
    var i := 0;
    while i < insize
      invariant i == psize <= insize && c + psize <= |s| && q == At(s, c + psize)
      invariant i < insize ==> q != null
      invariant q == null ==> psize <= insize
    {
      psize := psize + 1;
      q := Next(q, oldhead, s, c + psize - 1);
      if q == null {
        break;
      }
      i := i + 1;
    }
  }

  /** Where the first run of the merge that starts at `c` ends, and where the second does. */
  function Middle(c: nat, w: nat, n: nat): (m: nat)
    requires c <= n
    ensures c <= m <= n
  {
    c + MergeSpec.Min(w, n - c)
  }

  function Reach(c: nat, w: nat, n: nat): (e: nat)
    requires c <= n
    ensures Middle(c, w, n) <= e <= n
  {
    MergeSpec.Min(Middle(c, w, n) + w, n)
  }

  /** What a pass has done and what is left, before and after one more merge. */
  lemma PassStep<T>(cmp: (T, T) -> int, s: seq<T>, c: nat, w: nat, m: nat, e: nat, t: seq<T>, goal: seq<T>)
    requires c < |s| && w > 0 && t + MergeSpec.Pass(cmp, s[c..], w) == goal
    requires m == Middle(c, w, |s|) && e == Reach(c, w, |s|)
    ensures t + MergeSpec.Merge(cmp, s[c..m], s[m..e]) + MergeSpec.Pass(cmp, s[e..], w) == goal
  {
    var a, b, rest := s[c..m], s[m..e], s[e..];
    MergeSpec.Slices(s, c, m, e);
    FirstMerge(cmp, s[c..], w, a, b, rest);
    Regroup(t, MergeSpec.Merge(cmp, a, b), MergeSpec.Pass(cmp, rest, w));
  }

  lemma Regroup<T>(t: seq<T>, a: seq<T>, b: seq<T>)
    ensures t + (a + b) == t + a + b
  {
  }

  lemma FirstMerge<T>(cmp: (T, T) -> int, s: seq<T>, w: nat, a: seq<T>, b: seq<T>, rest: seq<T>)
    requires |s| > 0 && w > 0
    requires a == s[..MergeSpec.Min(w, |s|)] && b == s[MergeSpec.Min(w, |s|)..MergeSpec.Min(2 * w, |s|)]
    requires rest == s[MergeSpec.Min(2 * w, |s|)..]
    ensures MergeSpec.Pass(cmp, s, w) == MergeSpec.Merge(cmp, a, b) + MergeSpec.Pass(cmp, rest, w)
  {
  }

  /** One merge of a pass: the two runs from `p`, node `c`, on. */
  method MergeAt(p: Node, insize: nat, oldhead: Node, list0: Node?, tail0: Node?, cmp: (Node, Node) -> int,
                 ghost s: seq<Node>, ghost c: nat, ghost out0: seq<Node>)
    returns (q: Node?, list: Node?, tail: Node?, ghost out: seq<Node>)
    requires Distinct(s) && c < |s| && p == s[c] && oldhead == s[0] && insize > 0
    requires Untouched(s, c, c, c) && Merged(out0, s, c, c, c) && Ends(out0, list0, tail0)
    modifies s
    ensures var m, e := Middle(c, insize, |s|), Reach(c, insize, |s|);
            && out == out0 + MergeSpec.Merge(cmp, s[c..m], s[m..e])
            && q == At(s, e) && Untouched(s, e, e, e) && Merged(out, s, e, e, e) && Ends(out, list, tail)
  {
    var psize;
    ghost var m, e := Middle(c, insize, |s|), Reach(c, insize, |s|);
    q, psize := StepAlong(p, insize, oldhead, s, c);
    q, list, tail, out := MergeRuns(p, q, psize, insize, oldhead, list0, tail0, cmp, s, c, m, e, out0);
  }

  /** What the number of merges says about how far a pass over `n` nodes has come. */
  predicate Counted(nmerges: nat, c: nat, w: nat, n: nat) {
    && (nmerges == 0 ==> c == 0)
    && (nmerges == 1 ==> c == MergeSpec.Min(2 * w, n))
    && (nmerges > 1 ==> n > 2 * w)
  }

  lemma CountMerge(nmerges: nat, c: nat, w: nat, n: nat)
    requires w > 0 && c < n && Counted(nmerges, c, w, n)
    ensures c < Reach(c, w, n) <= n && Counted(nmerges + 1, Reach(c, w, n), w, n)
  {
  }

  /** All merges of one pass, until the old ring is used up. */
  method MergePairs(oldhead: Node, insize: nat, cmp: (Node, Node) -> int, ghost s: seq<Node>)
    returns (list: Node?, tail: Node?, nmerges: nat, ghost t: seq<Node>)
    requires s != [] && Distinct(s) && Ring(s) && oldhead == s[0] && insize > 0
    modifies s
    ensures t == MergeSpec.Pass(cmp, s, insize) && Ends(t, list, tail) && Merged(t, s, |s|, |s|, |s|)
    ensures Counted(nmerges, |s|, insize, |s|)
  {
    var p: Node? := oldhead;
    list, tail, nmerges, t := null, null, 0, [];
    ghost var c := 0;
    assert s[0..] == s;
    while p != null
      invariant c <= |s| && p == At(s, c)
      invariant t + MergeSpec.Pass(cmp, s[c..], insize) == MergeSpec.Pass(cmp, s, insize)
      invariant Untouched(s, c, c, c) && Merged(t, s, c, c, c) && Ends(t, list, tail)
      invariant Counted(nmerges, c, insize, |s|)
      decreases |s| - c
    {
      CountMerge(nmerges, c, insize, |s|);
      PassStep(cmp, s, c, insize, Middle(c, insize, |s|), Reach(c, insize, |s|), t, MergeSpec.Pass(cmp, s, insize));
      nmerges := nmerges + 1;
      p, list, tail, t := MergeAt(p, insize, oldhead, list, tail, cmp, s, c, t);
      c := Reach(c, insize, |s|);
    }
    assert MergeSpec.Pass(cmp, s[c..], insize) == [];
  }

  /** One pass over the ring `s` with runs of `insize` nodes; the ring is closed again at the end. */
  method Pass(list0: Node, insize: nat, cmp: (Node, Node) -> int, ghost s: seq<Node>)
    returns (list: Node, tail: Node, nmerges: nat, ghost t: seq<Node>)
    requires s != [] && Distinct(s) && Ring(s) && list0 == s[0] && insize > 0
    modifies s
    ensures t == MergeSpec.Pass(cmp, s, insize) && Distinct(t) && Ring(t)
    ensures list == t[0] && tail == t[|t| - 1]
    ensures forall k :: 0 <= k < |t| ==> t[k] in s
    ensures nmerges <= 1 <==> |s| <= 2 * insize
  {
    var head, last;
    head, last, nmerges, t := MergePairs(list0, insize, cmp, s);
    list, tail := head, last;
    assert t != [] && list == t[0] && tail == t[|t| - 1];
    tail.next := list;
    Closed(t);
  }

  /** A merged list whose last node leads to the first is a ring. */
  lemma Closed(t: seq<Node>)
    requires t != [] && t[|t| - 1].next == t[0] && forall k :: 0 <= k < |t| - 1 ==> t[k].next == t[k + 1]
    ensures Ring(t)
  {
  }

  lemma Within(a: seq<Node>, b: seq<Node>, c: seq<Node>)
    requires (forall k :: 0 <= k < |a| ==> a[k] in b) && forall k :: 0 <= k < |b| ==> b[k] in c
    ensures forall k :: 0 <= k < |a| ==> a[k] in c
  {
  }

  /** The sort proper: passes with doubled run length until one merge is enough. The run length stays
      below the number of nodes whenever it is doubled. */
  method Sort(list0: Node, cmp: (Node, Node) -> int, ghost s: seq<Node>) returns (tail: Node, ghost t: seq<Node>)
    requires s != [] && Distinct(s) && Ring(s) && list0 == s[0]
    modifies s
    ensures t == MergeSpec.SortFrom(cmp, s, 1) && |t| == |s| && Distinct(t) && Ring(t)
    ensures tail == t[|t| - 1] && forall k :: 0 <= k < |t| ==> t[k] in s
  {
    var list, insize := list0, 1;
    t := s;
    while true
      invariant insize == 1 || insize < |s|
      invariant |t| == |s| && Distinct(t) && Ring(t) && list == t[0] && insize > 0
      invariant forall k :: 0 <= k < |t| ==> t[k] in s
      invariant MergeSpec.SortFrom(cmp, t, insize) == MergeSpec.SortFrom(cmp, s, 1)
      decreases |s| - insize
    {
      var nmerges;
      ghost var t0 := t;
      list, tail, nmerges, t := Pass(list, insize, cmp, t0);
      Within(t, t0, s);
      if nmerges <= 1 {
        return;
      }
      insize := insize * 2;
    }
  }

  /** clist_sort. */
  method SortList(list: List, cmp: (Node, Node) -> int)
    requires list.Valid()
    modifies list, list.nodes
    ensures list.Valid() && list.nodes == MergeSpec.SortFrom(cmp, old(list.nodes), 1)
  {
    if list.next != null {
      ghost var s, t := list.nodes, [];
      var last := list.next;
      assert last == s[|s| - 1] && last.next == s[0];
      last, t := Sort(last.next, cmp, s);
      list.next, list.nodes := last, t;
    }
  }

  /** For every total preorder clist_sort makes the list the stable sorting of its nodes; `pos` gives
      the place each node had before. */
  method SortStably(list: List, cmp: (Node, Node) -> int, ghost pos: Node -> int)
    requires list.Valid() && MergeSpec.TotalPreorder(cmp, list.nodes)
    requires forall i :: 0 <= i < |list.nodes| ==> pos(list.nodes[i]) == i
    modifies list, list.nodes
    ensures list.Valid() && MergeSpec.StableSorting(cmp, pos, old(list.nodes), list.nodes)
  {
    MergeSpec.SortIsStable(cmp, pos, list.nodes);
    SortList(list, cmp);
  }
}
