/** The state of the MSP430 heap seen from above the bytes: which chunks tile the
    space from the heap start to the break, and the order of the free list.
    The C allocator is proved against the functions of this module in
    Allocator.dfy; everything here is about the functions alone. */
module HeapLayout {
  import opened Ascending
  import opened Sequences

  /** sizeof(size_t): the size field in front of every payload. */
  const HEADER: nat := 2

  /** sizeof(struct __freelist): a size field and a link. */
  const NODE: nat := 4

  datatype Chunk = Chunk(size: nat, free: bool)

  type Chunks = map<nat, Chunk>

  /** The first address after the chunk at `a`. */
  function End(c: Chunks, a: nat): nat
    requires a in c
  {
    a + HEADER + c[a].size
  }

  predicate Boundary(c: Chunks, brk: nat, x: nat) {
    x == brk || x in c
  }

  /** The chunk at `a` is followed by another chunk or by the break. */
  predicate Followed(c: Chunks, brk: nat, a: nat)
    requires a in c
  {
    Boundary(c, brk, End(c, a))
  }

  /** Stepping from header to header, a walk that begins at the heap start stays on chunks
      until it arrives at the break. */
  ghost predicate Chained(c: Chunks, start: nat, brk: nat) {
    && Boundary(c, brk, start)
    && (forall a {:trigger Followed(c, brk, a)} :: a in c ==> Followed(c, brk, a))
  }

  /** The chunks at `a` and `b` do not overlap. */
  predicate Clear(c: Chunks, a: nat, b: nat)
    requires a in c && b in c
  {
    a == b || End(c, a) <= b || End(c, b) <= a
  }

  /** Chunks lie inside [start, brk) and do not overlap. */
  ghost predicate Disjoint(c: Chunks, start: nat, brk: nat) {
    && start <= brk
    && (forall a :: a in c ==> start <= a && End(c, a) <= brk)
    && (forall a, b {:trigger Clear(c, a, b)} :: a in c && b in c ==> Clear(c, a, b))
  }

  /** Every other chunk lies on one side of the chunk at `a`. */
  lemma ClearOf(c: Chunks, start: nat, brk: nat, a: nat)
    requires Disjoint(c, start, brk) && a in c
    ensures forall b :: b in c && b != a ==> End(c, b) <= a || End(c, a) <= b
  {
    forall b | b in c && b != a ensures End(c, b) <= a || End(c, a) <= b {
      assert Clear(c, a, b);
    }
  }

  /** The chunks cover [start, brk) exactly. */
  ghost predicate Tiled(c: Chunks, start: nat, brk: nat) {
    Chained(c, start, brk) && Disjoint(c, start, brk)
  }

  /** The free list holds exactly the free chunks, strictly ascending, and each of them has
      room for the link. */
  ghost predicate Listed(c: Chunks, free: seq<nat>) {
    && Sorted(free)
    && (forall a :: a in free ==> a in c && c[a].free && c[a].size >= NODE - HEADER)
    && (forall a :: a in c && c[a].free ==> a in free)
  }

  /** Entry `i` of the free list touches neither the next entry nor the break. */
  ghost predicate Apart(c: Chunks, free: seq<nat>, brk: nat, i: nat)
    requires Listed(c, free) && i < |free|
  {
    End(c, free[i]) < if i + 1 < |free| then free[i + 1] else brk
  }

  /** No two free chunks touch, and none touches the break. */
  ghost predicate Coalesced(c: Chunks, free: seq<nat>, brk: nat)
    requires Listed(c, free)
  {
    forall i :: 0 <= i < |free| ==> Apart(c, free, brk, i)
  }

  /** Live chunk addresses with their payload sizes. */
  ghost function LiveOf(c: Chunks): map<nat, nat> {
    map a | a in c && !c[a].free :: c[a].size
  }

  datatype Layout = Layout(start: nat, brk: nat, chunks: Chunks, free: seq<nat>) {
    ghost predicate Sound() {
      && Tiled(chunks, start, brk)
      && Listed(chunks, free)
      && Coalesced(chunks, free, brk)
    }

    ghost function Live(): map<nat, nat> {
      LiveOf(chunks)
    }

    predicate Known(k: nat) {
      k < |free| && free[k] in chunks
    }

    function SizeAt(k: nat): nat
      requires Known(k)
    {
      chunks[free[k]].size
    }
  }

  // ---------------------------------------------------------------- malloc

  /** The request actually served: never below the room for a link. */
  function Request(len: nat): nat {
    if len < NODE - HEADER then NODE - HEADER else len
  }

  function TakeWhole(l: Layout, k: nat): Layout
    requires l.Known(k)
  {
    l.(chunks := l.chunks[l.free[k] := Chunk(l.SizeAt(k), false)], free := Without(l.free, k))
  }

  /** The lower part stays free, the upper part of `n` bytes becomes live. */
  function Split(l: Layout, k: nat, n: nat): Layout
    requires l.Known(k) && l.SizeAt(k) >= n + NODE
  {
    var a, s := l.free[k], l.SizeAt(k);
    l.(chunks := l.chunks[a := Chunk(s - n - HEADER, true)][a + s - n := Chunk(n, false)])
  }

  function Extend(l: Layout, n: nat): Layout {
    l.(brk := l.brk + HEADER + n, chunks := l.chunks[l.brk := Chunk(n, false)])
  }

  lemma SameSizesTiled(c: Chunks, c': Chunks, start: nat, brk: nat)
    requires Tiled(c, start, brk) && c'.Keys == c.Keys
    requires forall a :: a in c ==> c'[a].size == c[a].size
    ensures Tiled(c', start, brk)
  {
    forall a | a in c' ensures Followed(c', brk, a) {
      assert Followed(c, brk, a);
    }
    forall a, b | a in c' && b in c' ensures Clear(c', a, b) {
      assert Clear(c, a, b);
    }
  }

  lemma TakeWholeListed(l: Layout, k: nat)
    requires Listed(l.chunks, l.free) && k < |l.free|
    ensures Listed(TakeWhole(l, k).chunks, TakeWhole(l, k).free)
    ensures TakeWhole(l, k).Live() == l.Live()[l.free[k] := l.SizeAt(k)]
  {
    WithoutMembers(l.free, k);
    LiveUpdate(l.chunks, l.free[k], Chunk(l.SizeAt(k), false));
  }

  lemma TakeWholeApart(l: Layout, k: nat)
    requires Listed(l.chunks, l.free) && Coalesced(l.chunks, l.free, l.brk) && k < |l.free|
    requires Listed(TakeWhole(l, k).chunks, TakeWhole(l, k).free)
    ensures Coalesced(TakeWhole(l, k).chunks, TakeWhole(l, k).free, l.brk)
  {
    var l' := TakeWhole(l, k);
    assert Apart(l.chunks, l.free, l.brk, k);
    forall i | 0 <= i < |l'.free| ensures Apart(l'.chunks, l'.free, l'.brk, i) {
      var j := if i < k then i else i + 1;
      assert Apart(l.chunks, l.free, l.brk, j);
      assert l'.free[i] == l.free[j] && l'.chunks[l.free[j]].size == l.chunks[l.free[j]].size;
    }
  }

  lemma TakeWholeSound(l: Layout, k: nat)
    requires l.Sound() && k < |l.free|
    ensures TakeWhole(l, k).Sound()
    ensures TakeWhole(l, k).Live() == l.Live()[l.free[k] := l.SizeAt(k)]
  {
    TakeWholeListed(l, k);
    SameSizesTiled(l.chunks, TakeWhole(l, k).chunks, l.start, l.brk);
    TakeWholeApart(l, k);
  }

  lemma SplitDisjoint(c: Chunks, start: nat, brk: nat, a: nat, lo: Chunk, hi: Chunk)
    requires Disjoint(c, start, brk) && a in c && lo.size + HEADER + hi.size == c[a].size
    ensures a + HEADER + lo.size !in c
    ensures Disjoint(c[a := lo][a + HEADER + lo.size := hi], start, brk)
  {
    var u := a + HEADER + lo.size;
    ClearOf(c, start, brk, a);
    assert u !in c;
    var c' := c[a := lo][u := hi];
    forall x, y | x in c' && y in c' ensures Clear(c', x, y) {
      var x0, y0 := if x == u then a else x, if y == u then a else y;
      assert Clear(c, x0, y0);
    }
  }

  lemma SplitChained(c: Chunks, start: nat, brk: nat, a: nat, lo: Chunk, hi: Chunk)
    requires Chained(c, start, brk) && a in c && lo.size + HEADER + hi.size == c[a].size
    requires a + HEADER + lo.size !in c
    ensures Chained(c[a := lo][a + HEADER + lo.size := hi], start, brk)
  {
    var u := a + HEADER + lo.size;
    var c' := c[a := lo][u := hi];
    forall b | b in c' ensures Followed(c', brk, b) {
      if b == u {
        assert Followed(c, brk, a);
      } else if b != a {
        assert Followed(c, brk, b);
      }
    }
  }

  /** Changing chunks other than by their place in the list keeps the list in order. */
  lemma SameListed(c: Chunks, c': Chunks, free: seq<nat>, brk: nat, brk': nat)
    requires Listed(c, free) && Coalesced(c, free, brk) && brk <= brk'
    requires forall a :: a in c && c[a].free ==>
               a in c' && c'[a].free && NODE - HEADER <= c'[a].size <= c[a].size
    requires forall a :: a in c' && c'[a].free ==> a in c && c[a].free
    ensures Listed(c', free) && Coalesced(c', free, brk')
  {
    forall i | 0 <= i < |free| ensures Apart(c', free, brk', i) {
      assert Apart(c, free, brk, i);
    }
  }

  lemma LiveUpdate(c: Chunks, a: nat, x: Chunk)
    ensures LiveOf(c[a := x]) == if x.free then LiveOf(c) - {a} else LiveOf(c)[a := x.size]
  {
  }

  lemma SplitListed(l: Layout, k: nat, n: nat)
    requires Listed(l.chunks, l.free) && Coalesced(l.chunks, l.free, l.brk) && k < |l.free| && l.SizeAt(k) >= n + NODE
    requires l.free[k] + l.SizeAt(k) - n !in l.chunks
    ensures Listed(Split(l, k, n).chunks, l.free) && Coalesced(Split(l, k, n).chunks, l.free, l.brk)
  {
    SameListed(l.chunks, Split(l, k, n).chunks, l.free, l.brk, l.brk);
  }

  lemma SplitLive(l: Layout, k: nat, n: nat)
    requires Listed(l.chunks, l.free) && k < |l.free| && l.SizeAt(k) >= n + NODE
    ensures Split(l, k, n).Live() == l.Live()[l.free[k] + l.SizeAt(k) - n := n]
  {
    var a, lo, hi := l.free[k], Chunk(l.SizeAt(k) - n - HEADER, true), Chunk(n, false);
    assert l.free[k] in l.free;
    LiveUpdate(l.chunks, a, lo);
    LiveUpdate(l.chunks[a := lo], a + l.SizeAt(k) - n, hi);
  }

  lemma SplitSound(l: Layout, k: nat, n: nat)
    requires l.Sound() && k < |l.free| && l.SizeAt(k) >= n + NODE
    ensures Split(l, k, n).Sound() && l.free[k] + l.SizeAt(k) - n !in l.chunks
    ensures Split(l, k, n).Live() == l.Live()[l.free[k] + l.SizeAt(k) - n := n]
  {
    var lo, hi := Chunk(l.SizeAt(k) - n - HEADER, true), Chunk(n, false);
    SplitDisjoint(l.chunks, l.start, l.brk, l.free[k], lo, hi);
    SplitChained(l.chunks, l.start, l.brk, l.free[k], lo, hi);
    SplitListed(l, k, n);
    SplitLive(l, k, n);
  }

  lemma ExtendTiled(c: Chunks, start: nat, brk: nat, x: Chunk)
    requires Tiled(c, start, brk)
    ensures brk !in c && Tiled(c[brk := x], start, brk + HEADER + x.size)
  {
    var c', brk' := c[brk := x], brk + HEADER + x.size;
    assert brk !in c;
    assert forall a :: a in c ==> c'[a] == c[a];
    forall a | a in c' ensures Followed(c', brk', a) {
      if a != brk {
        assert Followed(c, brk, a);
      }
    }
    forall x, y | x in c' && y in c' ensures Clear(c', x, y) {
      if x != brk && y != brk {
        assert Clear(c, x, y);
      }
    }
  }

  lemma ExtendSound(l: Layout, n: nat)
    requires l.Sound()
    ensures Extend(l, n).Sound() && l.brk !in l.chunks
    ensures Extend(l, n).Live() == l.Live()[l.brk := n]
  {
    ExtendTiled(l.chunks, l.start, l.brk, Chunk(n, false));
    LiveUpdate(l.chunks, l.brk, Chunk(n, false));
    SameListed(l.chunks, Extend(l, n).chunks, l.free, l.brk, Extend(l, n).brk);
  }

  // ---------------------------------------------------------------- free

  /** Puts the live chunk `a` at position `k` of the free list. */
  function Insert(l: Layout, a: nat, k: nat): Layout
    requires a in l.chunks && k <= |l.free|
  {
    l.(chunks := l.chunks[a := Chunk(l.chunks[a].size, true)], free := With(l.free, k, a))
  }

  /** Joins list entries `k` and `k + 1` when they touch. */
  function Join(l: Layout, k: nat): Layout
    requires l.Known(k) && (k + 1 < |l.free| ==> l.Known(k + 1))
  {
    if k + 1 < |l.free| && End(l.chunks, l.free[k]) == l.free[k + 1] then
      l.(chunks := Joined(l.chunks, l.free[k], l.free[k + 1]), free := Without(l.free, k + 1))
    else l
  }

  function Joined(c: Chunks, a: nat, b: nat): Chunks
    requires a in c && b in c
  {
    (c - {b})[a := Chunk(c[a].size + HEADER + c[b].size, true)]
  }

  /** Gives the last free chunk back below the break when it touches it. */
  function Trim(l: Layout): Layout
    requires |l.free| > 0 ==> l.Known(|l.free| - 1)
  {
    var n := |l.free|;
    if n > 0 && End(l.chunks, l.free[n - 1]) == l.brk then
      Layout(l.start, l.free[n - 1], l.chunks - {l.free[n - 1]}, Without(l.free, n - 1))
    else l
  }

  /** Sound except that entries `lo`..`hi` may touch the next entry and the last one the break. */
  ghost predicate AlmostSound(l: Layout, lo: int, hi: int) {
    && Tiled(l.chunks, l.start, l.brk)
    && Listed(l.chunks, l.free)
    && (forall i :: 0 <= i < |l.free| - 1 && !(lo <= i <= hi) ==> Apart(l.chunks, l.free, l.brk, i))
  }

  lemma InsertListed(c: Chunks, free: seq<nat>, a: nat, k: nat)
    requires Listed(c, free) && a in c && !c[a].free && c[a].size >= NODE - HEADER && k == Rank(free, a)
    ensures Listed(c[a := Chunk(c[a].size, true)], With(free, k, a))
  {
  }

  lemma InsertApart(l: Layout, a: nat, k: nat)
    requires Listed(l.chunks, l.free) && Coalesced(l.chunks, l.free, l.brk) && a in l.chunks && k <= |l.free|
    requires Listed(Insert(l, a, k).chunks, Insert(l, a, k).free)
    ensures var l' := Insert(l, a, k);
            forall i :: 0 <= i < |l'.free| - 1 && !(k - 1 <= i <= k) ==> Apart(l'.chunks, l'.free, l'.brk, i)
  {
    var l' := Insert(l, a, k);
    forall i | 0 <= i < |l'.free| - 1 && !(k - 1 <= i <= k) ensures Apart(l'.chunks, l'.free, l'.brk, i) {
      assert Apart(l.chunks, l.free, l.brk, if i < k then i else i - 1);
    }
  }

  lemma InsertSound(l: Layout, a: nat, k: nat)
    requires l.Sound() && a in l.Live() && l.chunks[a].size >= NODE - HEADER && k == Rank(l.free, a)
    ensures AlmostSound(Insert(l, a, k), k - 1, k)
    ensures Insert(l, a, k).Live() == l.Live() - {a}
  {
    var l' := Insert(l, a, k);
    InsertListed(l.chunks, l.free, a, k);
    SameSizesTiled(l.chunks, l'.chunks, l.start, l.brk);
    LiveUpdate(l.chunks, a, Chunk(l.chunks[a].size, true));
    InsertApart(l, a, k);
  }

  lemma JoinedDisjoint(c: Chunks, start: nat, brk: nat, a: nat, b: nat)
    requires Disjoint(c, start, brk) && a in c && b in c && End(c, a) == b
    ensures Disjoint(Joined(c, a, b), start, brk)
  {
    var c' := Joined(c, a, b);
    assert End(c', a) == End(c, b);
    assert forall d :: d in c' && d != a ==> c'[d] == c[d];
    forall x, y | x in c' && y in c' ensures Clear(c', x, y) {
      assert Clear(c, x, y) && Clear(c, x, b) && Clear(c, y, b);
    }
  }

  lemma JoinedChained(c: Chunks, start: nat, brk: nat, a: nat, b: nat)
    requires Tiled(c, start, brk) && a in c && b in c && End(c, a) == b
    ensures Chained(Joined(c, a, b), start, brk)
  {
    var c' := Joined(c, a, b);
    forall d | d in c' ensures Followed(c', brk, d) {
      assert Followed(c, brk, if d == a then b else d) && Clear(c, a, d);
    }
  }

  lemma JoinedApart(l: Layout, k: nat, lo: int)
    requires k + 1 < |l.free| && AlmostSound(l, lo, k) && End(l.chunks, l.free[k]) == l.free[k + 1]
    requires Listed(Join(l, k).chunks, Join(l, k).free)
    ensures forall i :: 0 <= i < |Join(l, k).free| - 1 && !(lo <= i <= k - 1) ==>
              Apart(Join(l, k).chunks, Join(l, k).free, l.brk, i)
  {
    var l' := Join(l, k);
    forall i | 0 <= i < |l'.free| - 1 && !(lo <= i <= k - 1) ensures Apart(l'.chunks, l'.free, l'.brk, i) {
      assert Apart(l.chunks, l.free, l.brk, if i < k then i else i + 1);
    }
  }

  lemma JoinedLive(c: Chunks, a: nat, b: nat)
    requires a in c && b in c && a != b && c[a].free && c[b].free
    ensures LiveOf(Joined(c, a, b)) == LiveOf(c)
  {
    LiveUpdate(c - {b}, a, Chunk(c[a].size + HEADER + c[b].size, true));
  }

  lemma JoinedListed(c: Chunks, free: seq<nat>, k: nat)
    requires Listed(c, free) && k + 1 < |free|
    ensures Listed(Joined(c, free[k], free[k + 1]), Without(free, k + 1))
  {
    var a, b, free' := free[k], free[k + 1], Without(free, k + 1);
    var c' := Joined(c, a, b);
    WithoutMembers(free, k + 1);
    assert a in free;
    forall x ensures x in free' <==> x in c' && c'[x].free {
      assert x in free' <==> x in free && x != b;
    }
  }

  lemma JoinSound(l: Layout, k: nat, lo: int)
    requires k < |l.free| && AlmostSound(l, lo, k)
    ensures var l' := Join(l, k);
            && AlmostSound(l', lo, k - 1) && k < |l'.free| && l'.free[..k + 1] == l.free[..k + 1]
            && l'.Live() == l.Live() && l'.start == l.start && l'.brk == l.brk
  {
    if k + 1 < |l.free| {
      assert l.free[k] in l.free && l.free[k + 1] in l.free;
      assert Clear(l.chunks, l.free[k], l.free[k + 1]);
    }
    if k + 1 < |l.free| && End(l.chunks, l.free[k]) == l.free[k + 1] {
      JoinedListed(l.chunks, l.free, k);
      JoinedLive(l.chunks, l.free[k], l.free[k + 1]);
      JoinedApart(l, k, lo);
      JoinedDisjoint(l.chunks, l.start, l.brk, l.free[k], l.free[k + 1]);
      JoinedChained(l.chunks, l.start, l.brk, l.free[k], l.free[k + 1]);
    }
  }

  lemma TrimTiled(c: Chunks, start: nat, brk: nat, z: nat)
    requires Tiled(c, start, brk) && z in c && End(c, z) == brk
    ensures Tiled(c - {z}, start, z)
  {
    var c' := c - {z};
    ClearOf(c, start, brk, z);
    forall x, y | x in c' && y in c' ensures Clear(c', x, y) {
      assert Clear(c, x, y);
    }
    forall d | d in c' ensures Followed(c', z, d) && End(c', d) <= z {
      assert Followed(c, brk, d);
    }
  }

  lemma TrimListed(c: Chunks, free: seq<nat>)
    requires Listed(c, free) && |free| > 0
    ensures Listed(c - {free[|free| - 1]}, Without(free, |free| - 1))
    ensures LiveOf(c - {free[|free| - 1]}) == LiveOf(c)
  {
  }

  lemma TrimApart(l: Layout)
    requires AlmostSound(l, -1, -1) && |l.free| > 0 && End(l.chunks, l.free[|l.free| - 1]) == l.brk
    requires Listed(Trim(l).chunks, Trim(l).free)
    ensures Coalesced(Trim(l).chunks, Trim(l).free, Trim(l).brk)
  {
    var l' := Trim(l);
    forall i | 0 <= i < |l'.free| ensures Apart(l'.chunks, l'.free, l'.brk, i) {
      assert Apart(l.chunks, l.free, l.brk, i);
    }
  }

  lemma TrimSound(l: Layout)
    requires AlmostSound(l, -1, -1)
    ensures Trim(l).Sound() && Trim(l).Live() == l.Live() && Trim(l).start == l.start && Trim(l).brk <= l.brk
  {
    var n := |l.free|;
    if n > 0 && End(l.chunks, l.free[n - 1]) == l.brk {
      TrimTiled(l.chunks, l.start, l.brk, l.free[n - 1]);
      TrimListed(l.chunks, l.free);
      TrimApart(l);
    }
  }

  /** Chunk `a` is entered as entry `k` of the list and joined with the chunk above it. */
  ghost function Entered(l: Layout, a: nat, k: nat): (l': Layout)
    requires l.Sound() && a in l.Live() && l.chunks[a].size >= NODE - HEADER && k == Rank(l.free, a)
    ensures AlmostSound(l', k - 1, k - 1) && l'.Live() == l.Live() - {a}
    ensures l'.start == l.start && l'.brk == l.brk
    ensures k < |l'.free| && l'.free[k] == a && (k > 0 ==> l'.free[k - 1] == l.free[k - 1])
  {
    InsertSound(l, a, k);
    var l1 := Insert(l, a, k);
    JoinSound(l1, k, k - 1);
    var l2 := Join(l1, k);
    assert l2.free[k] == l2.free[..k + 1][k] == a;
    assert k > 0 ==> l2.free[k - 1] == l2.free[..k + 1][k - 1] == l1.free[k - 1];
    l2
  }

  /** Entry `k` is joined with the chunk above it and the break lowered if it can be. */
  ghost function Settled(l: Layout, k: nat): (l': Layout)
    requires k < |l.free| && AlmostSound(l, k, k)
    ensures l'.Sound() && l'.Live() == l.Live() && l'.start == l.start && l'.brk <= l.brk
  {
    JoinSound(l, k, k);
    TrimSound(Join(l, k));
    Trim(Join(l, k))
  }

  /** The steps of `free` on the chunk at `a`: insert, join with the chunk above, join with the
      chunk below, lower the break. */
  ghost function ReleaseSteps(l: Layout, a: nat): (l': Layout)
    requires l.Sound() && a in l.Live() && l.chunks[a].size >= NODE - HEADER
    ensures l'.Sound() && l'.Live() == l.Live() - {a} && l'.start == l.start && l'.brk <= l.brk
  {
    var k := Rank(l.free, a);
    var l2 := Entered(l, a, k);
    if k > 0 then Settled(l2, k - 1)
    else
      TrimSound(l2);
      Trim(l2)
  }

  // ---------------------------------------------------------------- one layout per set of live chunks

  /** What follows a free chunk is a live chunk. */
  lemma FreeThenLive(l: Layout, a: nat)
    requires l.Sound() && a in l.chunks && l.chunks[a].free
    ensures End(l.chunks, a) in l.Live()
  {
    var i :| 0 <= i < |l.free| && l.free[i] == a;
    assert Apart(l.chunks, l.free, l.brk, i);
    assert Followed(l.chunks, l.brk, a);
    var e := End(l.chunks, a);
    assert i + 1 < |l.free| ==> l.free[i + 1] in l.free;
    assert e < l.brk;
    forall j | 0 <= j < |l.free| ensures l.free[j] != e {
      assert j <= i || i + 1 <= j;
    }
  }

  /** From a boundary they share, two sound layouts with the same live chunks agree upwards. */
  lemma {:induction false} AgreeFrom(l: Layout, m: Layout, x: nat)
    requires l.Sound() && m.Sound() && l.Live() == m.Live()
    requires Boundary(l.chunks, l.brk, x) && Boundary(m.chunks, m.brk, x)
    requires x <= l.brk && x <= m.brk
    ensures l.brk == m.brk
    ensures forall a :: x <= a ==> (a in l.chunks <==> a in m.chunks) && (a in l.chunks ==> l.chunks[a] == m.chunks[a])
    decreases l.brk + m.brk - x
  {
    if x == l.brk {
      NothingAbove(l, m, x);
    } else if x == m.brk {
      NothingAbove(m, l, x);
    } else {
      if l.chunks[x].free || m.chunks[x].free {
        assert x !in l.Live() && x !in m.Live();
        FreeThenLive(l, x);
        FreeThenLive(m, x);
        assert Clear(l.chunks, x, End(m.chunks, x)) && Clear(m.chunks, x, End(l.chunks, x));
      } else {
        assert l.Live()[x] == m.Live()[x];
      }
      assert l.chunks[x] == m.chunks[x];
      var e := End(l.chunks, x);
      assert Followed(l.chunks, l.brk, x) && Followed(m.chunks, m.brk, x);
      AgreeFrom(l, m, e);
      ClearOf(l.chunks, l.start, l.brk, x);
      ClearOf(m.chunks, m.start, m.brk, x);
      forall a | x < a < e ensures a !in l.chunks && a !in m.chunks {
      }
    }
  }

  lemma NothingAbove(l: Layout, m: Layout, x: nat)
    requires l.Sound() && m.Sound() && l.Live() == m.Live()
    requires x == l.brk && Boundary(m.chunks, m.brk, x) && x <= m.brk
    ensures x == m.brk
  {
    assert forall a :: a in m.Live() ==> a in l.chunks && a < x;
    assert x !in m.Live();
    if x in m.chunks && m.chunks[x].free {
      FreeThenLive(m, x);
    }
  }

  /** A sound layout is determined by its live chunks: neither the free list nor the break
      remembers the order in which blocks came and went. */
  lemma Canonical(l: Layout, m: Layout)
    requires l.Sound() && m.Sound() && l.start == m.start && l.Live() == m.Live()
    ensures l == m
  {
    AgreeFrom(l, m, l.start);
    assert l.chunks == m.chunks;
    SameMembers(l.free, m.free);
  }

  ghost predicate Released(l: Layout, a: nat, l': Layout) {
    l'.Sound() && l'.Live() == l.Live() - {a} && l'.start == l.start && l'.brk <= l.brk
  }

  /** `free`: the one sound layout whose live chunks are those of `l` without `a`. */
  ghost function Release(l: Layout, a: nat): (l': Layout)
    requires l.Sound() && a in l.Live() && l.chunks[a].size >= NODE - HEADER
    ensures l'.Sound() && l'.Live() == l.Live() - {a} && l'.start == l.start && l'.brk <= l.brk
  {
    assert Released(l, a, ReleaseSteps(l, a));
    var l' :| Released(l, a, l');
    l'
  }

  lemma ReleaseBySteps(l: Layout, a: nat)
    requires l.Sound() && a in l.Live() && l.chunks[a].size >= NODE - HEADER
    ensures Release(l, a) == ReleaseSteps(l, a)
  {
    Canonical(Release(l, a), ReleaseSteps(l, a));
  }

  // ---------------------------------------------------------------- malloc and realloc as a whole

  /** Sizes of the free chunks, in list order. */
  function Sizes(l: Layout): (s: seq<nat>)
    requires forall k :: 0 <= k < |l.free| ==> l.Known(k)
    ensures |s| == |l.free| && forall k :: 0 <= k < |s| ==> s[k] == l.SizeAt(k)
  {
    seq(|l.free|, k requires 0 <= k < |l.free| => l.SizeAt(k))
  }

  /** The first of the smallest sizes that hold `n`; `|s|` when none does. */
  function BestFit(s: seq<nat>, n: nat): (k: nat)
    ensures k <= |s|
    ensures k == |s| ==> forall j :: 0 <= j < |s| ==> s[j] < n
    ensures k < |s| ==> s[k] >= n && forall j :: 0 <= j < |s| && s[j] >= n ==> s[k] < s[j] || (s[k] == s[j] && k <= j)
  {
    if |s| == 0 then 0
    else
      var m := |s| - 1;
      var k := BestFit(s[..m], n);
      if k < m then (if n <= s[m] < s[k] then m else k)
      else if n <= s[m] then m else |s|
  }

  /** Where a request is served: the chunk, 0 for failure, and its payload size. */
  datatype Place = Place(chunk: nat, size: nat)

  function MallocPlace(l: Layout, len: nat, end: nat): Place
    requires forall k :: 0 <= k < |l.free| ==> l.Known(k)
  {
    var n := Request(len);
    var k := BestFit(Sizes(l), n);
    if k < |l.free| then
      if l.SizeAt(k) - n < NODE then Place(l.free[k], l.SizeAt(k))
      else Place(l.free[k] + l.SizeAt(k) - n, n)
    else if l.brk + HEADER + n <= end then Place(l.brk, n)
    else Place(0, 0)
  }

  /** The layout after malloc. */
  function MallocLayout(l: Layout, len: nat, end: nat): Layout
    requires forall k :: 0 <= k < |l.free| ==> l.Known(k)
  {
    var n := Request(len);
    var k := BestFit(Sizes(l), n);
    if k < |l.free| then
      if l.SizeAt(k) - n < NODE then TakeWhole(l, k) else Split(l, k, n)
    else if l.brk + HEADER + n <= end then Extend(l, n)
    else l
  }

  /** The live chunks with the block at `p`. */
  ghost function Added(live: map<nat, nat>, p: Place): map<nat, nat> {
    if p.chunk == 0 then live else live[p.chunk := p.size]
  }

  /** The live chunks when the block `a` has been replaced by the one at `p`. */
  ghost function Replaced(live: map<nat, nat>, a: nat, p: Place): map<nat, nat> {
    if p.chunk == 0 then live
    else if p.chunk == a then live[a := p.size]
    else (live - {a})[p.chunk := p.size]
  }

  lemma NoFit(l: Layout, n: nat)
    requires Listed(l.chunks, l.free) && BestFit(Sizes(l), n) == |l.free|
    ensures forall a :: a in l.chunks && l.chunks[a].free ==> l.chunks[a].size < n
  {
    forall a | a in l.chunks && l.chunks[a].free ensures l.chunks[a].size < n {
      var j :| 0 <= j < |l.free| && l.free[j] == a;
      assert Sizes(l)[j] < n;
    }
  }

  /** The new block was not live before and is large enough, by less than a chunk too large at most. */
  ghost predicate Fresh(l: Layout, p: Place, n: nat) {
    0 < p.chunk && p.chunk !in l.Live() && n <= p.size < n + NODE
  }

  /** `m` is a sound layout with the live chunks of `l` and a fresh one at `p`. */
  ghost predicate Serves(l: Layout, m: Layout, p: Place, n: nat) {
    m.Sound() && m.start == l.start && m.Live() == Added(l.Live(), p) && Fresh(l, p, n)
  }

  lemma TakeWholeServes(l: Layout, k: nat, n: nat)
    requires l.Sound() && l.start > 0 && k < |l.free| && l.Known(k) && n <= l.SizeAt(k) < n + NODE
    ensures Serves(l, TakeWhole(l, k), Place(l.free[k], l.SizeAt(k)), n)
  {
    TakeWholeSound(l, k);
    assert l.free[k] in l.free;
  }

  lemma SplitServes(l: Layout, k: nat, n: nat)
    requires l.Sound() && l.start > 0 && k < |l.free| && l.Known(k) && n + NODE <= l.SizeAt(k)
    ensures Serves(l, Split(l, k, n), Place(l.free[k] + l.SizeAt(k) - n, n), n)
  {
    SplitSound(l, k, n);
    assert l.free[k] in l.free;
  }

  lemma ExtendServes(l: Layout, n: nat)
    requires l.Sound() && l.start > 0
    ensures Serves(l, Extend(l, n), Place(l.brk, n), n)
  {
    ExtendSound(l, n);
  }

  lemma KnownAll(l: Layout)
    requires Listed(l.chunks, l.free)
    ensures forall k :: 0 <= k < |l.free| ==> l.Known(k)
  {
    forall k | 0 <= k < |l.free| ensures l.Known(k) {
      assert l.free[k] in l.free;
    }
  }

  /** Malloc keeps the layout sound, adds one block of the requested size to the live ones, and fails
      only when no free chunk is large enough and the break cannot be moved. */
  lemma MallocSound(l: Layout, len: nat, end: nat)
    requires l.Sound() && l.start > 0
    ensures forall k :: 0 <= k < |l.free| ==> l.Known(k)
    ensures var m, p := MallocLayout(l, len, end), MallocPlace(l, len, end);
            if p.chunk == 0 then
              && m == l && l.brk + HEADER + Request(len) > end
              && forall a :: a in l.chunks && l.chunks[a].free ==> l.chunks[a].size < Request(len)
            else Serves(l, m, p, Request(len)) && (m.brk == l.brk || m.brk <= end)
  {
    KnownAll(l);
    var n := Request(len);
    var k := BestFit(Sizes(l), n);
    var m, p := MallocLayout(l, len, end), MallocPlace(l, len, end);
    if k < |l.free| {
      if l.SizeAt(k) - n < NODE {
        assert m == TakeWhole(l, k) && p == Place(l.free[k], l.SizeAt(k));
        TakeWholeServes(l, k, n);
      } else {
        assert m == Split(l, k, n) && p == Place(l.free[k] + l.SizeAt(k) - n, n);
        SplitServes(l, k, n);
      }
    } else {
      NoFit(l, n);
      if l.brk + HEADER + n <= end {
        assert m == Extend(l, n) && p == Place(l.brk, n);
        ExtendServes(l, n);
      }
    }
  }

  /** A live chunk cut in two live chunks, the lower one keeping `n` bytes. */
  function Cut(l: Layout, a: nat, n: nat): Layout
    requires a in l.chunks && n + HEADER <= l.chunks[a].size
  {
    l.(chunks := l.chunks[a := Chunk(n, false)][a + HEADER + n := Chunk(l.chunks[a].size - n - HEADER, false)])
  }

  /** The live chunk `a` grown over the whole free chunk, entry `k`, that follows it. */
  function Swallow(l: Layout, a: nat, k: nat): Layout
    requires a in l.chunks && l.Known(k)
  {
    l.(chunks := (l.chunks - {l.free[k]})[a := Chunk(l.chunks[a].size + HEADER + l.SizeAt(k), false)], free := Without(l.free, k))
  }

  /** The live chunk `a` grown to `n` bytes over the front of the free chunk that follows it. */
  function Nibble(l: Layout, a: nat, k: nat, n: nat): Layout
    requires a in l.chunks && l.Known(k)
    requires l.chunks[a].size <= n <= l.chunks[a].size + l.SizeAt(k)
  {
    var rest := Chunk(l.SizeAt(k) - (n - l.chunks[a].size), true);
    l.(chunks := (l.chunks - {l.free[k]})[a := Chunk(n, false)][a + HEADER + n := rest], free := l.free[k := a + HEADER + n])
  }

  /** The topmost chunk grown by moving the break. */
  function Stretch(l: Layout, a: nat, n: nat): Layout {
    l.(brk := a + HEADER + n, chunks := l.chunks[a := Chunk(n, false)])
  }

  lemma CutSound(l: Layout, a: nat, n: nat)
    requires l.Sound() && a in l.Live() && n + HEADER <= l.chunks[a].size
    ensures Cut(l, a, n).Sound() && a + HEADER + n !in l.chunks
    ensures Cut(l, a, n).Live() == l.Live()[a := n][a + HEADER + n := l.chunks[a].size - n - HEADER]
  {
    var lo, hi := Chunk(n, false), Chunk(l.chunks[a].size - n - HEADER, false);
    SplitDisjoint(l.chunks, l.start, l.brk, a, lo, hi);
    SplitChained(l.chunks, l.start, l.brk, a, lo, hi);
    CutListed(l, a, n);
    CutLive(l, a, n);
  }

  lemma CutLive(l: Layout, a: nat, n: nat)
    requires a in l.chunks && n + HEADER <= l.chunks[a].size
    ensures Cut(l, a, n).Live() == l.Live()[a := n][a + HEADER + n := l.chunks[a].size - n - HEADER]
  {
    LiveUpdate(l.chunks, a, Chunk(n, false));
    LiveUpdate(l.chunks[a := Chunk(n, false)], a + HEADER + n, Chunk(l.chunks[a].size - n - HEADER, false));
  }

  lemma CutListed(l: Layout, a: nat, n: nat)
    requires Listed(l.chunks, l.free) && Coalesced(l.chunks, l.free, l.brk)
    requires a in l.Live() && n + HEADER <= l.chunks[a].size && a + HEADER + n !in l.chunks
    ensures Listed(Cut(l, a, n).chunks, l.free) && Coalesced(Cut(l, a, n).chunks, l.free, l.brk)
  {
    SameListed(l.chunks, Cut(l, a, n).chunks, l.free, l.brk, l.brk);
  }

  lemma SwallowTiled(c: Chunks, start: nat, brk: nat, a: nat, b: nat)
    requires Tiled(c, start, brk) && a in c && b in c && End(c, a) == b
    ensures Tiled((c - {b})[a := Chunk(c[a].size + HEADER + c[b].size, false)], start, brk)
  {
    JoinedDisjoint(c, start, brk, a, b);
    JoinedChained(c, start, brk, a, b);
    SameSizesTiled(Joined(c, a, b), (c - {b})[a := Chunk(c[a].size + HEADER + c[b].size, false)], start, brk);
  }

  lemma SwallowLive(l: Layout, a: nat, k: nat)
    requires Listed(l.chunks, l.free) && a in l.Live() && k < |l.free|
    ensures Swallow(l, a, k).Live() == l.Live()[a := l.chunks[a].size + HEADER + l.SizeAt(k)]
  {
    assert l.free[k] in l.free;
    LiveUpdate(l.chunks - {l.free[k]}, a, Chunk(l.chunks[a].size + HEADER + l.SizeAt(k), false));
  }

  lemma SwallowListed(l: Layout, a: nat, k: nat)
    requires Listed(l.chunks, l.free) && a in l.Live() && k < |l.free|
    ensures Listed(Swallow(l, a, k).chunks, Swallow(l, a, k).free)
  {
    WithoutMembers(l.free, k);
  }

  lemma SwallowApart(l: Layout, a: nat, k: nat)
    requires Listed(l.chunks, l.free) && Coalesced(l.chunks, l.free, l.brk) && a in l.Live() && k < |l.free|
    requires Listed(Swallow(l, a, k).chunks, Swallow(l, a, k).free)
    ensures Coalesced(Swallow(l, a, k).chunks, Swallow(l, a, k).free, l.brk)
  {
    var l' := Swallow(l, a, k);
    assert Apart(l.chunks, l.free, l.brk, k);
    forall i | 0 <= i < |l'.free| ensures Apart(l'.chunks, l'.free, l'.brk, i) {
      var j := if i < k then i else i + 1;
      assert Apart(l.chunks, l.free, l.brk, j);
      assert l'.free[i] == l.free[j] && l.free[j] in l'.chunks && l'.chunks[l.free[j]] == l.chunks[l.free[j]];
    }
  }

  lemma SwallowSound(l: Layout, a: nat, k: nat)
    requires l.Sound() && a in l.Live() && k < |l.free| && End(l.chunks, a) == l.free[k]
    ensures Swallow(l, a, k).Sound()
    ensures Swallow(l, a, k).Live() == l.Live()[a := l.chunks[a].size + HEADER + l.SizeAt(k)]
  {
    SwallowTiled(l.chunks, l.start, l.brk, a, l.free[k]);
    SwallowLive(l, a, k);
    SwallowListed(l, a, k);
    SwallowApart(l, a, k);
  }

  lemma NibbleTiled(c: Chunks, start: nat, brk: nat, a: nat, b: nat, n: nat)
    requires Tiled(c, start, brk) && a in c && b in c && End(c, a) == b
    requires c[a].size < n <= c[a].size + c[b].size
    ensures a + HEADER + n !in c
    ensures Tiled((c - {b})[a := Chunk(n, false)][a + HEADER + n := Chunk(c[a].size + c[b].size - n, true)], start, brk)
  {
    var j := Joined(c, a, b);
    JoinedDisjoint(c, start, brk, a, b);
    JoinedChained(c, start, brk, a, b);
    var lo, hi := Chunk(n, false), Chunk(c[a].size + c[b].size - n, true);
    SplitDisjoint(j, start, brk, a, lo, hi);
    SplitChained(j, start, brk, a, lo, hi);
    assert j[a := lo] == (c - {b})[a := lo];
  }

  lemma NibbleListed(l: Layout, a: nat, k: nat, n: nat)
    requires Listed(l.chunks, l.free) && Coalesced(l.chunks, l.free, l.brk)
    requires a in l.Live() && k < |l.free| && End(l.chunks, a) == l.free[k] && a + HEADER + n !in l.chunks
    requires l.chunks[a].size < n && n + NODE - HEADER <= l.chunks[a].size + l.SizeAt(k)
    ensures Listed(Nibble(l, a, k, n).chunks, Nibble(l, a, k, n).free)
  {
    var l', u := Nibble(l, a, k, n), a + HEADER + n;
    assert Apart(l.chunks, l.free, l.brk, k);
    ReplacedMembers(l.free, k, u);
    assert a !in l.free;
  }

  lemma NibbleApart(l: Layout, a: nat, k: nat, n: nat)
    requires Listed(l.chunks, l.free) && Coalesced(l.chunks, l.free, l.brk)
    requires a in l.Live() && k < |l.free| && End(l.chunks, a) == l.free[k]
    requires l.chunks[a].size < n && n + NODE - HEADER <= l.chunks[a].size + l.SizeAt(k)
    requires Listed(Nibble(l, a, k, n).chunks, Nibble(l, a, k, n).free)
    ensures Coalesced(Nibble(l, a, k, n).chunks, Nibble(l, a, k, n).free, l.brk)
  {
    var l' := Nibble(l, a, k, n);
    assert Apart(l.chunks, l.free, l.brk, k);
    forall i | 0 <= i < |l'.free| ensures Apart(l'.chunks, l'.free, l'.brk, i) {
      assert Apart(l.chunks, l.free, l.brk, i);
    }
  }

  lemma NibbleSound(l: Layout, a: nat, k: nat, n: nat)
    requires l.Sound() && a in l.Live() && k < |l.free| && End(l.chunks, a) == l.free[k]
    requires l.chunks[a].size < n && n + NODE - HEADER <= l.chunks[a].size + l.SizeAt(k)
    ensures Nibble(l, a, k, n).Sound()
    ensures Nibble(l, a, k, n).Live() == l.Live()[a := n]
  {
    NibbleTiled(l.chunks, l.start, l.brk, a, l.free[k], n);
    NibbleListed(l, a, k, n);
    NibbleApart(l, a, k, n);
    NibbleLive(l, a, k, n);
  }

  lemma NibbleLive(l: Layout, a: nat, k: nat, n: nat)
    requires Listed(l.chunks, l.free) && a in l.Live() && k < |l.free| && a + HEADER + n !in l.chunks
    requires l.chunks[a].size <= n <= l.chunks[a].size + l.SizeAt(k)
    ensures Nibble(l, a, k, n).Live() == l.Live()[a := n]
  {
    var c := l.chunks - {l.free[k]};
    assert l.free[k] in l.free;
    LiveUpdate(c, a, Chunk(n, false));
    LiveUpdate(c[a := Chunk(n, false)], a + HEADER + n, Chunk(l.SizeAt(k) - (n - l.chunks[a].size), true));
  }

  lemma StretchTiled(c: Chunks, start: nat, brk: nat, a: nat, n: nat)
    requires Tiled(c, start, brk) && a in c && End(c, a) == brk && c[a].size <= n
    ensures Tiled(c[a := Chunk(n, false)], start, a + HEADER + n)
  {
    var c', brk' := c[a := Chunk(n, false)], a + HEADER + n;
    ClearOf(c, start, brk, a);
    forall x, y | x in c' && y in c' ensures Clear(c', x, y) {
      assert Clear(c, x, y);
    }
    forall d | d in c' ensures Followed(c', brk', d) {
      assert Followed(c, brk, d);
    }
  }

  lemma StretchSound(l: Layout, a: nat, n: nat)
    requires l.Sound() && a in l.Live() && End(l.chunks, a) == l.brk && l.chunks[a].size <= n
    ensures Stretch(l, a, n).Sound()
    ensures Stretch(l, a, n).Live() == l.Live()[a := n]
  {
    StretchTiled(l.chunks, l.start, l.brk, a, n);
    LiveUpdate(l.chunks, a, Chunk(n, false));
    SameListed(l.chunks, Stretch(l, a, n).chunks, l.free, l.brk, a + HEADER + n);
  }
}
