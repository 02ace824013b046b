/** How a heap layout lies in memory: size fields in the headers, links in the free payloads,
    and what each store of the C code does to that picture. */
module HeapLinks {
  import opened Ascending
  import opened HeapLayout
  import opened Memory
  import opened Sequences

  /** Entry `i` of the free list as a pointer; NULL past the end. */
  function Entry(free: seq<nat>, i: nat): nat {
    if i < |free| then free[i] else 0
  }

  /** The entry before entry `k`, as a pointer. */
  function Before(free: seq<nat>, k: nat): nat
    requires k <= |free|
  {
    if k == 0 then 0 else free[k - 1]
  }

  ghost predicate Headers(m: seq<byte>, c: Chunks) {
    forall a :: a in c ==> Word(m, a) == c[a].size
  }

  /** Link `i`, from entry `i` to the next, is in place. */
  ghost predicate LinkAt(m: seq<byte>, free: seq<nat>, i: nat)
    requires i < |free|
  {
    Word(m, free[i] + HEADER) == Entry(free, i + 1)
  }

  /** All links are in place, except that the one to entry `hole` may be missing. */
  ghost predicate Linked(m: seq<byte>, free: seq<nat>, hole: int) {
    forall i :: 0 <= i < |free| && i != hole - 1 ==> LinkAt(m, free, i)
  }

  /** Memory shows the layout, except that the link to entry `hole` may be missing. */
  ghost predicate Shows(m: seq<byte>, flp: nat, l: Layout, hole: int) {
    && |m| == WORD && l.brk < WORD
    && Headers(m, l.chunks)
    && (hole != 0 ==> flp == Entry(l.free, 0))
    && Linked(m, l.free, hole)
  }

  /** The free list as a pointer walk meets it: where the entries lie, their sizes and links. */
  ghost predicate ListView(m: seq<byte>, flp: nat, free: seq<nat>, sizes: seq<nat>) {
    && |free| == |sizes| && |m| == WORD && flp == Entry(free, 0)
    && Linked(m, free, -1)
    && (forall i :: 0 <= i < |free| ==> 0 < free[i] && free[i] + NODE <= WORD && Word(m, free[i]) == sizes[i])
  }

  /** The chunks are disjoint, the list holds the free ones, and all lies within 16-bit addresses. */
  ghost predicate InPlace(l: Layout) {
    && 0 < l.start && l.brk < WORD
    && Disjoint(l.chunks, l.start, l.brk) && Listed(l.chunks, l.free)
  }

  lemma EntryBounds(l: Layout, i: nat)
    requires InPlace(l)
    ensures Entry(l.free, i) < WORD
    ensures i < |l.free| ==>
              && l.start <= l.free[i] && l.free[i] in l.chunks
              && l.chunks[l.free[i]].size >= NODE - HEADER && l.free[i] + NODE <= l.brk
  {
    if i < |l.free| {
      assert l.free[i] in l.free;
    }
  }

  lemma ViewOf(m: seq<byte>, flp: nat, l: Layout)
    requires InPlace(l) && Shows(m, flp, l, -1)
    ensures forall i :: 0 <= i < |l.free| ==> l.Known(i)
    ensures ListView(m, flp, l.free, Sizes(l))
  {
    forall i | 0 <= i < |l.free| ensures l.Known(i) && 0 < l.free[i] && l.free[i] + NODE <= WORD {
      EntryBounds(l, i);
    }
  }

  // ---------------------------------------------------------------- bytes of live chunks

  /** Bytes `lo`..`hi` are the same in both memories. */
  ghost predicate SameBytes(m: seq<byte>, m': seq<byte>, lo: nat, hi: nat) {
    |m| == |m'| && forall x :: lo <= x < hi && x < |m| ==> m'[x] == m[x]
  }

  /** Headers and payloads of the chunks in `live` are the same in both memories. */
  ghost predicate Kept(m: seq<byte>, m': seq<byte>, live: map<nat, nat>) {
    forall b :: b in live ==> SameBytes(m, m', b, b + HEADER + live[b])
  }

  lemma SameWord(m: seq<byte>, m': seq<byte>, lo: nat, x: nat)
    requires SameBytes(m, m', lo, WORD) && |m| == WORD && lo <= x
    ensures Word(m', x) == Word(m, x)
  {
  }

  lemma KeptTrans(m: seq<byte>, m1: seq<byte>, m2: seq<byte>, live: map<nat, nat>)
    requires Kept(m, m1, live) && Kept(m1, m2, live)
    ensures Kept(m, m2, live)
  {
  }

  lemma KeptPart(m: seq<byte>, m': seq<byte>, live: map<nat, nat>, part: map<nat, nat>)
    requires Kept(m, m', live) && forall b :: b in part ==> b in live && part[b] <= live[b]
    ensures Kept(m, m', part)
  {
  }

  /** A store inside a chunk leaves the bytes of live chunks other than that one alone. */
  lemma KeptStore(l: Layout, live: map<nat, nat>, m: seq<byte>, m': seq<byte>, f: nat, x: nat, v: nat)
    requires Disjoint(l.chunks, l.start, l.brk) && Stored(m, m', x, v)
    requires forall b :: b in live ==> b in l.Live() && l.Live()[b] == live[b]
    requires f in l.chunks && f !in live && f <= x && x + HEADER <= End(l.chunks, f)
    ensures Kept(m, m', live)
  {
    ClearOf(l.chunks, l.start, l.brk, f);
    forall b | b in live ensures SameBytes(m, m', b, b + HEADER + live[b]) {
      assert b in l.chunks && End(l.chunks, b) == b + HEADER + live[b];
    }
  }

  /** Live chunks lie below the break, so what happens above it does not touch them. */
  lemma KeptAbove(l: Layout, m: seq<byte>, m': seq<byte>, v: nat)
    requires Disjoint(l.chunks, l.start, l.brk) && Stored(m, m', l.brk, v)
    ensures Kept(m, m', l.Live())
  {
  }

  // ---------------------------------------------------------------- words

  /** Headers of chunks other than `a`, and links of entries other than `a`, read the same. */
  ghost predicate WordsKept(m: seq<byte>, m': seq<byte>, l: Layout, a: nat) {
    && |m'| == |m|
    && (forall b :: b in l.chunks && b != a ==> Word(m', b) == Word(m, b))
    && (forall i :: 0 <= i < |l.free| && l.free[i] != a ==> Word(m', l.free[i] + HEADER) == Word(m, l.free[i] + HEADER))
  }

  lemma WordsTrans(m: seq<byte>, m1: seq<byte>, m2: seq<byte>, l: Layout, a: nat)
    requires WordsKept(m, m1, l, a) && WordsKept(m1, m2, l, a)
    ensures WordsKept(m, m2, l, a)
  {
  }

  /** A store inside chunk `a` leaves the headers and links of all other chunks alone. */
  lemma InsideStore(l: Layout, m: seq<byte>, m': seq<byte>, a: nat, x: nat, v: nat)
    requires InPlace(l) && Stored(m, m', x, v)
    requires a in l.chunks && a <= x && x + HEADER <= End(l.chunks, a)
    ensures WordsKept(m, m', l, a)
  {
    ClearOf(l.chunks, l.start, l.brk, a);
    forall i | 0 <= i < |l.free| && l.free[i] != a
      ensures Word(m', l.free[i] + HEADER) == Word(m, l.free[i] + HEADER) {
      EntryBounds(l, i);
    }
  }

  /** Whatever is written into the payload of chunk `a`, all other chunks and its header read the same. */
  lemma PayloadStore(l: Layout, m: seq<byte>, m': seq<byte>, a: nat, live: map<nat, nat>)
    requires InPlace(l) && |m| == |m'| && a in l.chunks && a !in live
    requires forall b :: b in live ==> b in l.Live() && l.Live()[b] == live[b]
    requires forall x :: 0 <= x < |m| && !(a + HEADER <= x < End(l.chunks, a)) ==> m'[x] == m[x]
    ensures WordsKept(m, m', l, a) && Word(m', a) == Word(m, a) && Kept(m, m', live)
  {
    ClearOf(l.chunks, l.start, l.brk, a);
    forall i | 0 <= i < |l.free| && l.free[i] != a
      ensures Word(m', l.free[i] + HEADER) == Word(m, l.free[i] + HEADER) {
      EntryBounds(l, i);
    }
    forall b | b in live ensures SameBytes(m, m', b, b + HEADER + live[b]) {
      assert b in l.chunks && End(l.chunks, b) == b + HEADER + live[b];
    }
  }

  /** A store into the payload of a live chunk changes nothing in the picture. */
  lemma PayloadShows(m: seq<byte>, m': seq<byte>, flp: nat, l: Layout, a: nat)
    requires Listed(l.chunks, l.free) && Shows(m, flp, l, -1) && a in l.Live()
    requires WordsKept(m, m', l, a) && Word(m', a) == Word(m, a)
    ensures Shows(m', flp, l, -1)
  {
    forall i | 0 <= i < |l.free| ensures LinkAt(m', l.free, i) {
      assert LinkAt(m, l.free, i) && l.free[i] in l.free;
    }
  }

  // ---------------------------------------------------------------- malloc

  /** The link to entry `k` is redirected to what follows entry `k`. */
  ghost predicate Bypassed(m: seq<byte>, m': seq<byte>, l: Layout, k: nat, next: nat)
    requires k < |l.free|
  {
    if k == 0 then m' == m
    else
      && WordsKept(m, m', l, l.free[k - 1])
      && Word(m', l.free[k - 1]) == Word(m, l.free[k - 1])
      && Word(m', l.free[k - 1] + HEADER) == next
  }

  lemma BypassLinked(m: seq<byte>, m': seq<byte>, l: Layout, k: nat, next: nat)
    requires Sorted(l.free) && Linked(m, l.free, -1) && k < |l.free|
    requires Bypassed(m, m', l, k, next) && next == Entry(l.free, k + 1)
    ensures Linked(m', Without(l.free, k), -1)
  {
    forall i | 0 <= i < |l.free| - 1 ensures LinkAt(m', Without(l.free, k), i) {
      assert LinkAt(m, l.free, if i < k then i else i + 1);
    }
  }

  /** Entry `k` is taken out of the list and handed out whole. */
  lemma UnlinkShows(m: seq<byte>, m': seq<byte>, flp: nat, l: Layout, k: nat)
    requires Listed(l.chunks, l.free) && Shows(m, flp, l, -1) && k < |l.free|
    requires Bypassed(m, m', l, k, Word(m, l.free[k] + HEADER))
    ensures Shows(m', if k == 0 then Word(m, l.free[0] + HEADER) else flp, TakeWhole(l, k), -1)
  {
    assert LinkAt(m, l.free, k);
    BypassLinked(m, m', l, k, Word(m, l.free[k] + HEADER));
  }

  lemma SplitShows(m: seq<byte>, m': seq<byte>, flp: nat, l: Layout, k: nat, n: nat)
    requires Listed(l.chunks, l.free) && Shows(m, flp, l, -1) && k < |l.free| && l.SizeAt(k) >= n + NODE
    requires WordsKept(m, m', l, l.free[k])
    requires Word(m', l.free[k]) == l.SizeAt(k) - n - HEADER && Word(m', l.free[k] + l.SizeAt(k) - n) == n
    requires Word(m', l.free[k] + HEADER) == Word(m, l.free[k] + HEADER)
    ensures Shows(m', flp, Split(l, k, n), -1)
  {
    forall i | 0 <= i < |l.free| ensures LinkAt(m', l.free, i) {
      assert LinkAt(m, l.free, i);
    }
  }

  lemma ExtendShows(m: seq<byte>, m': seq<byte>, flp: nat, l: Layout, n: nat)
    requires InPlace(l) && Shows(m, flp, l, -1) && l.brk + HEADER + n < WORD && Stored(m, m', l.brk, n)
    ensures Shows(m', flp, Extend(l, n), -1)
  {
    forall i | 0 <= i < |l.free| ensures LinkAt(m', l.free, i) {
      EntryBounds(l, i);
      assert LinkAt(m, l.free, i);
    }
  }

  // ---------------------------------------------------------------- free

  /** The chunk `a` carries its link to the next entry; the link to it is still missing. */
  lemma OpenShows(m: seq<byte>, flp: nat, l: Layout, a: nat, k: nat)
    requires Listed(l.chunks, l.free) && Shows(m, flp, l, -1) && k <= |l.free|
    requires a in l.chunks && Word(m, a + HEADER) == Entry(l.free, k)
    ensures Shows(m, flp, Insert(l, a, k), k)
  {
    var l' := Insert(l, a, k);
    forall i | 0 <= i < |l'.free| && i != k - 1 ensures LinkAt(m, l'.free, i) {
      if i != k {
        assert LinkAt(m, l.free, if i < k then i else i - 1);
      }
    }
  }

  lemma JoinLinked(m: seq<byte>, m': seq<byte>, l: Layout, k: nat, hole: int)
    requires Sorted(l.free) && Linked(m, l.free, hole) && hole <= k && k + 1 < |l.free|
    requires WordsKept(m, m', l, l.free[k])
    requires Word(m', l.free[k] + HEADER) == Word(m, l.free[k + 1] + HEADER)
    ensures Linked(m', Without(l.free, k + 1), hole)
  {
    var free' := Without(l.free, k + 1);
    forall i | 0 <= i < |free'| && i != hole - 1 ensures LinkAt(m', free', i) {
      var j := if i < k then i else i + 1;
      assert LinkAt(m, l.free, j);
      JoinedLink(m, m', l.free, k, i, j);
    }
  }

  lemma JoinedLink(m: seq<byte>, m': seq<byte>, free: seq<nat>, k: nat, i: nat, j: nat)
    requires Sorted(free) && k + 1 < |free| && i < |free| - 1 && j == (if i < k then i else i + 1) && LinkAt(m, free, j)
    requires i != k ==> Word(m', free[j] + HEADER) == Word(m, free[j] + HEADER)
    requires Word(m', free[k] + HEADER) == Word(m, free[k + 1] + HEADER)
    ensures LinkAt(m', Without(free, k + 1), i)
  {
    if i == k {
      assert LinkAt(m, free, k + 1);
    }
  }

  /** Joining entry `k` with the one above it. */
  lemma JoinShows(m: seq<byte>, m': seq<byte>, flp: nat, l: Layout, k: nat, hole: int)
    requires Listed(l.chunks, l.free) && Shows(m, flp, l, hole) && hole <= k && k + 1 < |l.free|
    requires End(l.chunks, l.free[k]) == l.free[k + 1]
    requires WordsKept(m, m', l, l.free[k])
    requires Word(m', l.free[k]) == l.SizeAt(k) + HEADER + l.SizeAt(k + 1)
    requires Word(m', l.free[k] + HEADER) == Word(m, l.free[k + 1] + HEADER)
    ensures Shows(m', flp, Join(l, k), hole)
  {
    assert l.free[k] in l.free && l.free[k + 1] in l.free;
    JoinLinked(m, m', l, k, hole);
  }

  /** The missing link to entry `k` is put in place. */
  lemma CloseShows(m: seq<byte>, m': seq<byte>, flp: nat, l: Layout, k: nat)
    requires Listed(l.chunks, l.free) && Shows(m, flp, l, k) && k < |l.free|
    requires Bypassed(m, m', l, k, l.free[k])
    ensures Shows(m', if k == 0 then l.free[0] else flp, l, -1)
  {
    forall i | 0 <= i < |l.free| ensures LinkAt(m', l.free, i) {
      if i != k - 1 {
        assert LinkAt(m, l.free, i);
      }
    }
  }

  lemma TrimShows(m: seq<byte>, m': seq<byte>, flp: nat, l: Layout)
    requires Listed(l.chunks, l.free) && Shows(m, flp, l, -1) && |l.free| > 0
    requires End(l.chunks, l.free[|l.free| - 1]) == l.brk
    requires Bypassed(m, m', l, |l.free| - 1, 0)
    ensures Shows(m', if |l.free| == 1 then 0 else flp, Trim(l), -1)
  {
    assert l.free[|l.free| - 1] in l.free;
    BypassLinked(m, m', l, |l.free| - 1, 0);
  }

  // ---------------------------------------------------------------- realloc

  /** Cutting a live chunk: the header of the upper part and the shortened size. */
  lemma CutShows(m: seq<byte>, m': seq<byte>, flp: nat, l: Layout, a: nat, n: nat)
    requires Listed(l.chunks, l.free) && Shows(m, flp, l, -1)
    requires a in l.Live() && n + HEADER <= l.chunks[a].size
    requires WordsKept(m, m', l, a) && Word(m', a) == n && Word(m', a + HEADER + n) == l.chunks[a].size - n - HEADER
    ensures Shows(m', flp, Cut(l, a, n), -1)
  {
    forall i | 0 <= i < |l.free| ensures LinkAt(m', l.free, i) {
      assert LinkAt(m, l.free, i) && l.free[i] in l.free;
    }
  }

  /** Growing the topmost chunk. */
  lemma StretchShows(m: seq<byte>, m': seq<byte>, flp: nat, l: Layout, a: nat, n: nat)
    requires Listed(l.chunks, l.free) && Shows(m, flp, l, -1) && a in l.Live() && a + HEADER + n < WORD
    requires WordsKept(m, m', l, a) && Word(m', a) == n
    ensures Shows(m', flp, Stretch(l, a, n), -1)
  {
    forall i | 0 <= i < |l.free| ensures LinkAt(m', l.free, i) {
      assert LinkAt(m, l.free, i) && l.free[i] in l.free;
    }
  }

  /** Chunk `a` has grown into entry `k`: its size reads `n`, the link to entry `k` reads `next`, and
      nothing but these and entry `k` itself has changed. */
  ghost predicate Grown(m: seq<byte>, m': seq<byte>, l: Layout, a: nat, k: nat, n: nat, next: nat)
    requires k < |l.free|
  {
    && |m'| == |m|
    && Word(m', a) == n
    && (forall c :: c in l.chunks && c != a && c != l.free[k] ==> Word(m', c) == Word(m, c))
    && (forall i :: 0 <= i < |l.free| && i != k && i != k - 1 ==> Word(m', l.free[i] + HEADER) == Word(m, l.free[i] + HEADER))
    && (k > 0 ==> Word(m', l.free[k - 1] + HEADER) == next)
  }

  lemma SwallowLinked(m: seq<byte>, m': seq<byte>, l: Layout, a: nat, k: nat, n: nat, next: nat)
    requires Linked(m, l.free, -1) && k < |l.free| && next == Word(m, l.free[k] + HEADER)
    requires Grown(m, m', l, a, k, n, next)
    ensures Linked(m', Without(l.free, k), -1) && next == Entry(l.free, k + 1)
  {
    var free' := Without(l.free, k);
    assert LinkAt(m, l.free, k);
    forall i | 0 <= i < |free'| ensures LinkAt(m', free', i) {
      assert LinkAt(m, l.free, if i < k then i else i + 1);
    }
  }

  lemma SwallowShows(m: seq<byte>, m': seq<byte>, flp: nat, l: Layout, a: nat, k: nat, n: nat, next: nat)
    requires Listed(l.chunks, l.free) && Shows(m, flp, l, -1) && a in l.Live() && k < |l.free|
    requires n == l.chunks[a].size + HEADER + l.SizeAt(k) && next == Word(m, l.free[k] + HEADER) && Grown(m, m', l, a, k, n, next)
    ensures Shows(m', if k == 0 then next else flp, Swallow(l, a, k), -1)
  {
    SwallowLinked(m, m', l, a, k, n, next);
  }

  lemma NibbleLinked(m: seq<byte>, m': seq<byte>, l: Layout, a: nat, k: nat, n: nat, cp: nat)
    requires Linked(m, l.free, -1) && k < |l.free| && Grown(m, m', l, a, k, n, cp)
    requires Word(m', cp + HEADER) == Word(m, l.free[k] + HEADER)
    ensures Linked(m', l.free[k := cp], -1)
  {
    var free' := l.free[k := cp];
    forall i | 0 <= i < |free'| ensures LinkAt(m', free', i) {
      assert LinkAt(m, l.free, i);
    }
  }

  lemma NibbleShows(m: seq<byte>, m': seq<byte>, flp: nat, l: Layout, a: nat, k: nat, n: nat, cp: nat)
    requires Listed(l.chunks, l.free) && Shows(m, flp, l, -1) && a in l.Live() && k < |l.free|
    requires l.chunks[a].size <= n <= l.chunks[a].size + l.SizeAt(k)
    requires cp == a + HEADER + n && Grown(m, m', l, a, k, n, cp)
    requires Word(m', cp) == l.SizeAt(k) - (n - l.chunks[a].size) && Word(m', cp + HEADER) == Word(m, l.free[k] + HEADER)
    ensures Shows(m', if k == 0 then cp else flp, Nibble(l, a, k, n), -1)
  {
    NibbleLinked(m, m', l, a, k, n, cp);
    assert Nibble(l, a, k, n).free == l.free[k := cp];
  }

  /** The first stores of growing stay inside the header of `a`, which now reads `n`, and entry `k`. */
  ghost predicate Growing(m: seq<byte>, m1: seq<byte>, l: Layout, a: nat, k: nat, n: nat)
    requires l.Known(k)
  {
    && |m| == |m1| == WORD && Word(m1, a) == n
    && forall x :: 0 <= x < WORD && !(a <= x < a + HEADER) && !(l.free[k] <= x < End(l.chunks, l.free[k])) ==> m1[x] == m[x]
  }

  lemma GrowWords(m: seq<byte>, m1: seq<byte>, m2: seq<byte>, l: Layout, a: nat, k: nat, n: nat, next: nat)
    requires InPlace(l) && a in l.Live() && k < |l.free| && l.Known(k)
    requires Growing(m, m1, l, a, k, n) && Bypassed(m1, m2, l, k, next)
    ensures Grown(m, m2, l, a, k, n, next)
  {
    GrowingWords(m, m1, l, a, k, n);
    BypassWords(m1, m2, l, k, next);
  }

  lemma BypassWords(m1: seq<byte>, m2: seq<byte>, l: Layout, k: nat, next: nat)
    requires InPlace(l) && k < |l.free| && Bypassed(m1, m2, l, k, next)
    ensures |m2| == |m1| && forall c :: c in l.chunks ==> Word(m2, c) == Word(m1, c)
    ensures forall i :: 0 <= i < |l.free| && i != k - 1 ==> Word(m2, l.free[i] + HEADER) == Word(m1, l.free[i] + HEADER)
    ensures k > 0 ==> Word(m2, l.free[k - 1] + HEADER) == next
  {
  }

  lemma GrowingWords(m: seq<byte>, m1: seq<byte>, l: Layout, a: nat, k: nat, n: nat)
    requires InPlace(l) && a in l.Live() && k < |l.free| && l.Known(k) && Growing(m, m1, l, a, k, n)
    ensures forall c :: c in l.chunks && c != a && c != l.free[k] ==> Word(m1, c) == Word(m, c)
    ensures forall i :: 0 <= i < |l.free| && i != k ==> Word(m1, l.free[i] + HEADER) == Word(m, l.free[i] + HEADER)
  {
    EntryBounds(l, k);
    ClearOf(l.chunks, l.start, l.brk, a);
    ClearOf(l.chunks, l.start, l.brk, l.free[k]);
    assert a !in l.free;
    forall i | 0 <= i < |l.free| && i != k ensures Word(m1, l.free[i] + HEADER) == Word(m, l.free[i] + HEADER) {
      EntryBounds(l, i);
    }
  }

  lemma GrowKept(m: seq<byte>, m1: seq<byte>, m2: seq<byte>, l: Layout, a: nat, k: nat, n: nat)
    requires InPlace(l) && a in l.Live() && k < |l.free| && l.Known(k)
    requires Growing(m, m1, l, a, k, n) && Kept(m1, m2, l.Live())
    ensures Kept(m, m2, l.Live() - {a}) && SameBytes(m, m2, a + HEADER, End(l.chunks, a))
  {
    EntryBounds(l, k);
    ClearOf(l.chunks, l.start, l.brk, a);
    ClearOf(l.chunks, l.start, l.brk, l.free[k]);
    assert SameBytes(m1, m2, a, a + HEADER + l.Live()[a]);
    forall b | b in l.Live() - {a} ensures SameBytes(m, m2, b, b + HEADER + l.Live()[b]) {
      assert b in l.chunks && End(l.chunks, b) == b + HEADER + l.Live()[b];
      assert SameBytes(m1, m2, b, b + HEADER + l.Live()[b]);
    }
  }
}
