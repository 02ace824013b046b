/** The free-list allocator of the MSP430 port: malloc, free and realloc on byte memory. */
module Allocator {
  import opened Ascending
  import opened HeapLayout
  import opened HeapLinks
  import opened HeapRuns
  import opened Memory
  import opened Sequences

  /** The pointer handed to the caller for a chunk; NULL for none. */
  function Payload(chunk: nat): nat {
    if chunk == 0 then 0 else chunk + HEADER
  }

  /** The search of malloc: stops at the first exact fit `fp1`, or walks the whole list and remembers
      in `sfp1` the first of the smallest chunks that are too large. */
  method Search(mem: array<byte>, flp: nat, n: nat, ghost free: seq<nat>, ghost sizes: seq<nat>)
    returns (fp1: nat, fp2: nat, s: nat, sfp1: nat, sfp2: nat)
    requires 0 < n && mem.Length == WORD && ListView(mem[..], flp, free, sizes)
    ensures var k := BestFit(sizes, n);
            if fp1 != 0 then k < |free| && fp1 == free[k] && fp2 == Before(free, k) && sizes[k] == n
            else if s != 0 then k < |free| && sfp1 == free[k] && sfp2 == Before(free, k) && sizes[k] == s > n
            else k == |free|
  {
    ghost var i, k := 0, 0;
    s, sfp1, sfp2 := 0, 0, 0;
    fp1, fp2 := flp, 0;
    while fp1 != 0
      invariant i <= |free| && fp1 == Entry(free, i) && fp2 == Before(free, i)
      invariant s == 0 ==> forall j :: 0 <= j < i ==> sizes[j] < n
      invariant s != 0 ==> k < i && s == sizes[k] > n && sfp1 == free[k] && sfp2 == Before(free, k)
      invariant s != 0 ==> forall j :: 0 <= j < i && sizes[j] >= n ==> s < sizes[j] || (s == sizes[j] && k <= j)
      decreases |free| - i
    {
      assert LinkAt(mem[..], free, i);
      var sz := Load(mem, fp1);
      if sz < n {
      } else if sz == n {
        return;
      } else if s == 0 || sz < s {
        s, sfp1, sfp2, k := sz, fp1, fp2, i;
      }
      fp2 := fp1;
      fp1 := Load(mem, fp1 + HEADER);
      i := i + 1;
    }
  }

  /** The first entry at or above `a` and the entry before it. */
  method FindPlace(mem: array<byte>, flp: nat, a: nat, ghost free: seq<nat>, ghost sizes: seq<nat>)
    returns (fp1: nat, fp2: nat)
    requires mem.Length == WORD && ListView(mem[..], flp, free, sizes) && Sorted(free)
    ensures fp1 == Entry(free, Rank(free, a)) && fp2 == Before(free, Rank(free, a))
  {
    fp1, fp2 := flp, 0;
    ghost var i := 0;
    while fp1 != 0 && fp1 < a
      invariant i <= |free| && fp1 == Entry(free, i) && fp2 == Before(free, i)
      invariant forall j :: 0 <= j < i ==> free[j] < a
      decreases |free| - i
    {
      assert LinkAt(mem[..], free, i);
      fp2 := fp1;
      fp1 := Load(mem, fp1 + HEADER);
      i := i + 1;
    }
    RankIs(free, a, i);
  }

  /** The last entry of a non-empty list and the one before it. */
  method Last(mem: array<byte>, flp: nat, ghost free: seq<nat>, ghost sizes: seq<nat>) returns (fp1: nat, fp2: nat)
    requires mem.Length == WORD && ListView(mem[..], flp, free, sizes) && |free| > 0
    ensures fp1 == free[|free| - 1] && fp2 == Before(free, |free| - 1)
  {
    fp1, fp2 := flp, 0;
    ghost var i := 0;
    assert LinkAt(mem[..], free, 0);
    var next := Load(mem, fp1 + HEADER);
    while next != 0
      invariant i < |free| && fp1 == free[i] && fp2 == Before(free, i) && next == Entry(free, i + 1)
      decreases |free| - i
    {
      fp2, fp1, i := fp1, next, i + 1;
      assert LinkAt(mem[..], free, i);
      next := Load(mem, fp1 + HEADER);
    }
  }

  // ---------------------------------------------------------------- what the steps make of the layout

  /** `l'` is a layout within 16-bit addresses with the same start and these live chunks, and memory shows it. */
  ghost predicate Becomes(l: Layout, l': Layout, live: map<nat, nat>, m: seq<byte>, flp: nat) {
    WellPlaced(l') && l'.start == l.start && l'.Live() == live && Shows(m, flp, l', -1)
  }

  /** Entry `k` is taken off the list. */
  lemma Unlinked(m: seq<byte>, m': seq<byte>, flp: nat, l: Layout, k: nat) returns (l': Layout)
    requires WellPlaced(l) && Shows(m, flp, l, -1) && k < |l.free| && l.Known(k)
    requires Bypassed(m, m', l, k, Word(m, l.free[k] + HEADER))
    ensures Becomes(l, l', l.Live()[l.free[k] := l.SizeAt(k)], m', if k == 0 then Word(m, l.free[0] + HEADER) else flp)
    ensures l'.brk == l.brk
  {
    TakeWholeSound(l, k);
    UnlinkShows(m, m', flp, l, k);
    l' := TakeWhole(l, k);
  }

  /** The upper `n` bytes of entry `k`, at `cp`, become live. */
  lemma Divided(m: seq<byte>, m': seq<byte>, flp: nat, l: Layout, k: nat, n: nat, cp: nat) returns (l': Layout)
    requires WellPlaced(l) && Shows(m, flp, l, -1) && k < |l.free| && l.Known(k) && l.SizeAt(k) >= n + NODE
    requires cp == l.free[k] + l.SizeAt(k) - n
    requires WordsKept(m, m', l, l.free[k]) && Word(m', l.free[k]) == l.SizeAt(k) - n - HEADER && Word(m', cp) == n
    requires Word(m', l.free[k] + HEADER) == Word(m, l.free[k] + HEADER)
    ensures Becomes(l, l', l.Live()[cp := n], m', flp) && l'.brk == l.brk
  {
    SplitSound(l, k, n);
    SplitShows(m, m', flp, l, k, n);
    l' := Split(l, k, n);
  }

  /** `n` bytes at the break become live. */
  lemma Lengthened(m: seq<byte>, m': seq<byte>, flp: nat, l: Layout, n: nat) returns (l': Layout)
    requires WellPlaced(l) && Shows(m, flp, l, -1) && l.brk + HEADER + n < WORD && Stored(m, m', l.brk, n)
    ensures Becomes(l, l', l.Live()[l.brk := n], m', flp) && l'.brk == l.brk + HEADER + n
    ensures Kept(m, m', l.Live())
  {
    ExtendSound(l, n);
    ExtendShows(m, m', flp, l, n);
    KeptAbove(l, m, m', n);
    l' := Extend(l, n);
  }

  /** The live chunk `a` is cut after `len` bytes. */
  lemma Severed(m: seq<byte>, m': seq<byte>, flp: nat, l: Layout, a: nat, len: nat, cp: nat, rest: nat) returns (l': Layout)
    requires WellPlaced(l) && Shows(m, flp, l, -1) && a in l.Live() && cp == a + HEADER + len
    requires l.Live()[a] == len + HEADER + rest && WordsKept(m, m', l, a) && Word(m', a) == len && Word(m', cp) == rest
    ensures Becomes(l, l', l.Live()[a := len][cp := rest], m', flp) && l'.brk == l.brk && cp !in l.Live()
  {
    CutSound(l, a, len);
    CutShows(m, m', flp, l, a, len);
    l' := Cut(l, a, len);
  }

  /** The live chunk `a` has grown over the front of entry `k`, whose rest is at `cp`. */
  lemma Nibbled(m: seq<byte>, m': seq<byte>, flp: nat, l: Layout, a: nat, k: nat, n: nat, cp: nat, rest: nat, next: nat)
    returns (l': Layout)
    requires WellPlaced(l) && Shows(m, flp, l, -1) && a in l.Live() && k < |l.free| && l.Known(k)
    requires l.free[k] == End(l.chunks, a) && l.chunks[a].size < n && n + rest == l.chunks[a].size + l.SizeAt(k)
    requires rest >= NODE - HEADER && cp == a + HEADER + n && next == Word(m, l.free[k] + HEADER)
    requires Grown(m, m', l, a, k, n, cp) && Word(m', cp) == rest && Word(m', cp + HEADER) == next
    ensures Becomes(l, l', l.Live()[a := n], m', if k == 0 then cp else flp) && l'.brk == l.brk
  {
    NibbleSound(l, a, k, n);
    NibbleShows(m, m', flp, l, a, k, n, cp);
    l' := Nibble(l, a, k, n);
  }

  /** The live chunk `a` has grown over all of entry `k`. */
  lemma Swallowed(m: seq<byte>, m': seq<byte>, flp: nat, l: Layout, a: nat, k: nat, n: nat, next: nat) returns (l': Layout)
    requires WellPlaced(l) && Shows(m, flp, l, -1) && a in l.Live() && k < |l.free| && l.Known(k)
    requires l.free[k] == End(l.chunks, a) && n == l.chunks[a].size + HEADER + l.SizeAt(k)
    requires next == Word(m, l.free[k] + HEADER) && Grown(m, m', l, a, k, n, next)
    ensures Becomes(l, l', l.Live()[a := n], m', if k == 0 then next else flp) && l'.brk == l.brk
  {
    SwallowSound(l, a, k);
    SwallowShows(m, m', flp, l, a, k, n, next);
    l' := Swallow(l, a, k);
  }

  /** Chunk `a` has become entry `k`, joined with the chunk above it if they touched. */
  ghost predicate EnteredAt(l: Layout, l': Layout, a: nat, k: nat) {
    && AlmostSound(l', k - 1, k - 1) && l'.Live() == l.Live() - {a} && l'.start == l.start && l'.brk == l.brk
    && 0 <= k <= |l.free| && k < |l'.free| && l'.free[k] == a && (k > 0 ==> l'.free[k - 1] == l.free[k - 1])
    && (k == 0 && l.free != [] ==> l'.Sound())
  }

  /** Entering a chunk whose link is in place, and joining it with the one above. */
  lemma TwoSteps(m: seq<byte>, flp: nat, l: Layout, a: nat, k: nat) returns (l1: Layout, l2: Layout)
    requires WellPlaced(l) && a in l.Live() && l.chunks[a].size >= NODE - HEADER && k == Rank(l.free, a)
    requires Shows(m, flp, l, -1) && Word(m, a + HEADER) == Entry(l.free, k)
    ensures InPlace(l1) && l1.Live() == l.Live() - {a} && Shows(m, flp, l1, k)
    ensures |l1.free| == |l.free| + 1 && l1.free[k] == a && (k < |l.free| ==> l1.free[k + 1] == l.free[k])
    ensures l1.Known(k) && (k < |l.free| ==> l1.Known(k + 1)) && l2 == Join(l1, k)
    ensures if Entry(l.free, k) == 0 then l2 == l1 else k < |l.free| && Entry(l.free, k) == l1.free[k + 1]
    ensures EnteredAt(l, l2, a, k)
  {
    EntryBounds(l, k);
    InsertSound(l, a, k);
    OpenShows(m, flp, l, a, k);
    l1, l2 := Insert(l, a, k), Entered(l, a, k);
    KnownAll(l1);
    if k == 0 && l.free != [] {
      NothingToTrim(l, a, l1, l2);
    }
  }

  /** At the head of a non-empty list free may stop early: the break cannot be lowered. */
  lemma NothingToTrim(l: Layout, a: nat, l1: Layout, l2: Layout)
    requires l.Sound() && l.free != [] && a in l.chunks && l1 == Insert(l, a, 0)
    requires AlmostSound(l1, -1, 0) && l1.Known(0) && l1.Known(1) && l2 == Join(l1, 0) && AlmostSound(l2, -1, -1)
    ensures l2.Sound()
  {
    LastApart(l, a, l1, l2);
  }

  lemma LastApart(l: Layout, a: nat, l1: Layout, l2: Layout)
    requires Listed(l.chunks, l.free) && Coalesced(l.chunks, l.free, l.brk) && l.free != []
    requires a in l.chunks && l1 == Insert(l, a, 0) && Listed(l1.chunks, l1.free)
    requires l1.Known(0) && l1.Known(1) && l2 == Join(l1, 0) && Listed(l2.chunks, l2.free)
    ensures l2.free != [] && Apart(l2.chunks, l2.free, l2.brk, |l2.free| - 1)
  {
    var n := |l.free|;
    assert Apart(l.chunks, l.free, l.brk, n - 1);
    var z := l.free[n - 1];
    assert l1.free[n] == z && z in l.free;
    assert End(l1.chunks, z) == End(l.chunks, z) < l.brk == l2.brk;
    LastEnd(l1);
  }

  /** Joining the first two entries does not move the end of the last one. */
  lemma LastEnd(l: Layout)
    requires Listed(l.chunks, l.free) && |l.free| > 1 && l.Known(0) && l.Known(1)
    requires Listed(Join(l, 0).chunks, Join(l, 0).free)
    ensures var l', z := Join(l, 0), l.free[|l.free| - 1];
            l'.free != [] && z in l.free && End(l'.chunks, l'.free[|l'.free| - 1]) == End(l.chunks, z)
  {
    assert l.free[0] in l.free && l.free[1] in l.free;
  }

  /** The layout after lowering the break over the last entry, `z`, if it touches. */
  lemma TrimmedAs(l: Layout) returns (l': Layout, z: nat, touches: bool)
    requires AlmostSound(l, -1, -1) && |l.free| > 0 && l.start > 0 && l.brk < WORD
    ensures z == l.free[|l.free| - 1] && z in l.chunks && z + NODE <= l.brk && (touches <==> End(l.chunks, z) == l.brk)
    ensures WellPlaced(l') && l'.Live() == l.Live() && l'.start == l.start
    ensures if touches then l'.brk == z && l' == Trim(l) else l' == l
  {
    TrimSound(l);
    EntryBounds(l, |l.free| - 1);
    l', z := Trim(l), l.free[|l.free| - 1];
    touches := End(l.chunks, z) == l.brk;
  }

  /** A sound layout with the live chunks malloc leaves is its result. */
  lemma MallocIs(l: Layout, l': Layout, len: nat, end: nat)
    requires WellPlaced(l) && forall k :: 0 <= k < |l.free| ==> l.Known(k)
    requires l'.Sound() && l'.start == l.start && l'.Live() == Added(l.Live(), MallocPlace(l, len, end))
    ensures l' == MallocLayout(l, len, end)
  {
    MallocSound(l, len, end);
    Canonical(l', MallocLayout(l, len, end));
  }

  /** The layout realloc leaves: sound with the live chunks it should have, or raised past the top. */
  lemma ReallocIs(l: Layout, l': Layout, a: nat, len: nat, end: nat)
    requires WellPlaced(l) && len < WORD && a in l.Live() && l.chunks[a].size >= NODE - HEADER
    requires forall k :: 0 <= k < |l.free| ==> l.Known(k)
    requires if Wraps(l, a, len, end) then l' == Raised(l, a, len)
             else l'.Sound() && l'.start == l.start && l'.Live() == Replaced(l.Live(), a, ReallocPlace(l, a, len, end))
    ensures l' == ReallocLayout(l, a, len, end)
  {
    ReallocSound(l, a, len, end);
    if Wraps(l, a, len, end) {
      WrapsRaised(l, a, len, end);
    } else {
      Canonical(l', ReallocLayout(l, a, len, end));
    }
  }

  /** What a caller of malloc sees: a new block that holds the request, or NULL when there is no room for
      it anywhere; the break moves only when no free chunk holds the request. */
  ghost predicate Allotted(l: Layout, m: Layout, p: nat, len: nat, end: nat) {
    && (p == 0 <==> NoneHolds(l, Request(len)) && end < l.brk + HEADER + Request(len))
    && (p == 0 ==> m == l)
    && (p != 0 ==> HEADER < p && p - HEADER !in l.Live() && p - HEADER in m.Live())
    && (p != 0 ==> len <= m.Live()[p - HEADER] < Request(len) + NODE)
    && (m.brk != l.brk ==> NoneHolds(l, Request(len)))
  }

  lemma MallocAllots(l: Layout, len: nat, end: nat)
    requires WellPlaced(l)
    ensures forall k :: 0 <= k < |l.free| ==> l.Known(k)
    ensures Allotted(l, MallocLayout(l, len, end), Payload(MallocPlace(l, len, end).chunk), len, end)
  {
    MallocSound(l, len, end);
    MallocServes(l, len, end);
  }

  /** What a caller of realloc sees of the block at `p`: the same one or a new one, which holds the request
      and not much more, or NULL and the heap as it was. */
  ghost predicate Reallotted(l: Layout, m: Layout, p: nat, r: nat, len: nat) {
    && (r == 0 ==> m == l)
    && (r != 0 ==> HEADER < r && r - HEADER in m.Live() && (r == p || r - HEADER !in l.Live()))
    && (r != 0 ==> len <= m.Live()[r - HEADER] <= len + NODE)
  }

  lemma ReallocReallots(l: Layout, a: nat, len: nat, end: nat)
    requires WellPlaced(l) && len < WORD && a in l.Live() && l.chunks[a].size >= NODE - HEADER && !Wraps(l, a, len, end)
    ensures forall k :: 0 <= k < |l.free| ==> l.Known(k)
    ensures Reallotted(l, ReallocLayout(l, a, len, end), a + HEADER, Payload(ReallocPlace(l, a, len, end).chunk), len)
  {
    ReallocSound(l, a, len, end);
    ReallocTight(l, a, len, end);
    var m, p := ReallocLayout(l, a, len, end), ReallocPlace(l, a, len, end);
    ResizedReallots(l, m, a, p, len, end);
  }

  lemma ResizedReallots(l: Layout, m: Layout, a: nat, p: Place, len: nat, end: nat)
    requires Resized(l, m, a, p, len, end) && (p.chunk != 0 ==> p.size <= len + NODE)
    ensures Reallotted(l, m, a + HEADER, Payload(p.chunk), len)
  {
    if p.chunk != 0 {
      assert m.Live()[p.chunk] == p.size;
    }
  }

  lemma WrapsRaised(l: Layout, a: nat, len: nat, end: nat)
    requires WellPlaced(l) && len < WORD && a in l.Live() && l.chunks[a].size >= NODE - HEADER && Wraps(l, a, len, end)
    ensures ReallocLayout(l, a, len, end) == Raised(l, a, len)
  {
    KnownAll(l);
    WrapsFar(l, a, len, end);
    TooLarge(l, len);
    if Above(l, a) < |l.free| {
      NotTopmost(l, a);
    }
  }

  /** A sound layout with the live chunks left over is the result of free. */
  lemma ReleaseIs(l: Layout, l': Layout, a: nat)
    requires l.Sound() && a in l.Live() && l.chunks[a].size >= NODE - HEADER
    requires l'.Sound() && l'.start == l.start && l'.Live() == l.Live() - {a}
    ensures l' == Release(l, a)
  {
    Canonical(l', Release(l, a));
  }

  class Heap {
    const mem: array<byte>
    const heapStart: nat
    var flp: nat
    var brk: nat
    ghost var lay: Layout

    /** Memory shows the layout; before the first call the break is NULL and stands for the heap start. */
    ghost predicate Shown()
      reads this, mem
    {
      && mem.Length == WORD && lay.start == heapStart >= HEADER
      && Shows(mem[..], flp, lay, -1)
      && (brk == lay.brk || (brk == 0 && lay.brk == heapStart))
    }

    ghost predicate Valid()
      reads this, mem
    {
      Shown() && WellPlaced(lay)
    }

    /** The heap before the first call: no break, no list. */
    constructor (mem: array<byte>, heapStart: nat)
      requires mem.Length == WORD && HEADER <= heapStart < WORD
      ensures Valid() && this.mem == mem && this.heapStart == heapStart
      ensures lay == Layout(heapStart, heapStart, map[], [])
    {
      this.mem, this.heapStart := mem, heapStart;
      flp, brk := 0, 0;
      lay := Layout(heapStart, heapStart, map[], []);
    }

    // -------------------------------------------------------------- malloc

    /** Lets the link after `fp2`, entry `k - 1`, or the list head when `fp2` is NULL, point to `next`. */
    method Redirect(fp2: nat, next: nat, ghost k: nat)
      requires mem.Length == WORD && InPlace(lay) && k < |lay.free| && fp2 == Before(lay.free, k) && next < WORD
      modifies this`flp, mem
      ensures Bypassed(old(mem[..]), mem[..], lay, k, next)
      ensures flp == if k == 0 then next else old(flp)
      ensures SameBytes(old(mem[..]), mem[..], lay.free[k], WORD) && Kept(old(mem[..]), mem[..], lay.Live())
    {
      EntryBounds(lay, k);
      if k > 0 {
        EntryBounds(lay, k - 1);
        assert Clear(lay.chunks, lay.free[k - 1], lay.free[k]);
      }
      ghost var m := mem[..];
      if fp2 != 0 {
        Store(mem, fp2 + HEADER, next);
        InsideStore(lay, m, mem[..], fp2, fp2 + HEADER, next);
        KeptStore(lay, lay.Live(), m, mem[..], fp2, fp2 + HEADER, next);
      } else {
        flp := next;
      }
    }

    /** Two stores inside chunk `a`. */
    method StoreBoth(x: nat, v: nat, y: nat, w: nat, ghost a: nat)
      requires mem.Length == WORD && InPlace(lay) && a in lay.chunks && v < WORD && w < WORD
      requires a <= x && x + HEADER <= End(lay.chunks, a) && a <= y && y + HEADER <= End(lay.chunks, a)
      requires x + 1 < y || y + 1 < x
      modifies mem
      ensures WordsKept(old(mem[..]), mem[..], lay, a) && Kept(old(mem[..]), mem[..], lay.Live() - {a})
      ensures Word(mem[..], x) == v && Word(mem[..], y) == w
      ensures forall z: nat :: (z + 1 < x || x + 1 < z) && (z + 1 < y || y + 1 < z) ==>
                Word(mem[..], z) == Word(old(mem[..]), z)
      ensures forall z :: 0 <= z < WORD && z != x && z != x + 1 && z != y && z != y + 1 ==> mem[z] == old(mem[z])
    {
      ghost var m, live := mem[..], lay.Live() - {a};
      Store(mem, x, v);
      ghost var m1 := mem[..];
      Store(mem, y, w);
      ghost var m2 := mem[..];
      InsideStore(lay, m, m1, a, x, v);
      InsideStore(lay, m1, m2, a, y, w);
      WordsTrans(m, m1, m2, lay, a);
      KeptStore(lay, live, m, m1, a, x, v);
      KeptStore(lay, live, m1, m2, a, y, w);
      KeptTrans(m, m1, m2, live);
    }

    /** Takes entry `k`, at `fp1`, off the list; `fp2` is the entry before it, or NULL. */
    method Unlink(fp1: nat, fp2: nat, ghost k: nat, ghost s: nat)
      requires Valid() && k < |lay.free| && fp1 == lay.free[k] && fp2 == Before(lay.free, k)
      requires lay.Known(k) && s == lay.SizeAt(k)
      modifies this`flp, this`lay, mem
      ensures Valid() && lay.Live() == old(lay.Live())[fp1 := s]
      ensures Kept(old(mem[..]), mem[..], old(lay.Live()))
    {
      EntryBounds(lay, k);
      ghost var m, head := mem[..], flp;
      var next := Load(mem, fp1 + HEADER);
      Redirect(fp2, next, k);
      lay := Unlinked(m, mem[..], head, lay, k);
    }

    /** Splits entry `k`, at `sfp1` with size `s`: the upper `n` bytes are handed out. */
    method SplitOff(sfp1: nat, s: nat, n: nat, ghost k: nat) returns (cp: nat)
      requires Valid() && k < |lay.free| && sfp1 == lay.free[k] && lay.Known(k) && s == lay.SizeAt(k)
      requires n >= NODE - HEADER && s >= n + NODE
      modifies this`lay, mem
      ensures Valid() && lay.Live() == old(lay.Live())[cp := n] && cp == sfp1 + s - n
      ensures Kept(old(mem[..]), mem[..], old(lay.Live()))
    {
      EntryBounds(lay, k);
      cp := sfp1 + (s - n);
      ghost var m := mem[..];
      StoreBoth(cp, n, sfp1, s - n - HEADER, sfp1);
      assert lay.Live() - {sfp1} == lay.Live();
      lay := Divided(m, mem[..], flp, lay, k, n, cp);
    }

    /** Serves `n` bytes from entry `k`, which is too large: whole if the rest could not be a chunk. */
    method FromList(sfp1: nat, sfp2: nat, s: nat, n: nat, ghost k: nat, ghost place: Place) returns (p: nat)
      requires Valid() && k < |lay.free| && sfp1 == lay.free[k] && sfp2 == Before(lay.free, k)
      requires lay.Known(k) && s == lay.SizeAt(k) > n >= NODE - HEADER
      requires place == if s - n < NODE then Place(sfp1, s) else Place(sfp1 + s - n, n)
      modifies this`flp, this`lay, mem
      ensures Valid() && p == place.chunk + HEADER
      ensures lay.Live() == old(lay.Live())[place.chunk := place.size]
      ensures Kept(old(mem[..]), mem[..], old(lay.Live()))
    {
      if s - n < NODE {
        assert place.chunk == sfp1 && place.size == s;
        Unlink(sfp1, sfp2, k, s);
        return sfp1 + HEADER;
      }
      var cp := SplitOff(sfp1, s, n, k);
      assert place.chunk == cp && place.size == n;
      return cp + HEADER;
    }

    /** Before the first call the break is NULL and stands for the heap start. */
    method SettleBreak()
      requires Valid()
      modifies this`brk
      ensures Valid() && brk == lay.brk && mem[..] == old(mem[..])
    {
      if brk == 0 {
        brk := heapStart;
      }
    }

    /** Makes a chunk of `n` bytes at the break. */
    method AddChunk(n: nat) returns (fp: nat)
      requires Valid() && brk == lay.brk && n >= NODE - HEADER && brk + HEADER + n < WORD
      modifies this`brk, this`lay, mem
      ensures Valid() && fp == old(brk) && lay.Live() == old(lay.Live())[fp := n]
      ensures Kept(old(mem[..]), mem[..], old(lay.Live()))
    {
      ghost var m := mem[..];
      fp := brk;
      brk := brk + n + HEADER;
      Store(mem, fp, n);
      lay := Lengthened(m, mem[..], flp, lay, n);
    }

    /** Makes a chunk of `n` bytes above the break, if it ends at or below `end`. */
    method FromBreak(n: nat, end: nat, ghost place: Place) returns (p: nat)
      requires Valid() && NODE - HEADER <= n < WORD && end < WORD
      requires place == if lay.brk + HEADER + n <= end then Place(lay.brk, n) else Place(0, 0)
      modifies this`brk, this`lay, mem
      ensures Valid() && p == Payload(place.chunk) && lay.Live() == Added(old(lay.Live()), place)
      ensures Kept(old(mem[..]), mem[..], old(lay.Live()))
    {
      SettleBreak();
      if end <= brk {
        return 0;
      }
      var avail := end - brk;
      if avail >= n && avail >= (n + HEADER) % WORD {
        var fp := AddChunk(n);
        assert fp == place.chunk && n == place.size;
        return fp + HEADER;
      }
      return 0;
    }

    /** Serves `len` bytes from the best-fitting free chunk, or else from above the break if that
        stays at or below `end`; NULL when neither is possible. */
    method Malloc(len: nat, end: nat) returns (p: nat)
      requires Valid() && len < WORD && end < WORD
      modifies this`flp, this`brk, this`lay, mem
      ensures Valid() && forall k :: 0 <= k < |old(lay).free| ==> old(lay).Known(k)
      ensures p == Payload(MallocPlace(old(lay), len, end).chunk) && lay == MallocLayout(old(lay), len, end)
      ensures lay.Live() == Added(old(lay.Live()), MallocPlace(old(lay), len, end))
      ensures Allotted(old(lay), lay, p, len, end) && Kept(old(mem[..]), mem[..], old(lay.Live()))
    {
      MallocAllots(lay, len, end);
      ghost var l, place := lay, MallocPlace(lay, len, end);
      p := Serve(len, end, place);
      MallocIs(l, lay, len, end);
    }

    /** The steps of malloc, with `place` for where the request is served. */
    method Serve(len: nat, end: nat, ghost place: Place) returns (p: nat)
      requires Valid() && len < WORD && end < WORD
      requires (forall k :: 0 <= k < |lay.free| ==> lay.Known(k)) && place == MallocPlace(lay, len, end)
      modifies this`flp, this`brk, this`lay, mem
      ensures Valid() && p == Payload(place.chunk) && lay.Live() == Added(old(lay.Live()), place)
      ensures Kept(old(mem[..]), mem[..], old(lay.Live()))
    {
      var n := len;
      if n < NODE - HEADER {
        n := NODE - HEADER;
      }
      ViewOf(mem[..], flp, lay);
      var fp1, fp2, s, sfp1, sfp2 := Search(mem, flp, n, lay.free, Sizes(lay));
      ghost var k := BestFit(Sizes(lay), n);
      if fp1 != 0 {
        EntryBounds(lay, k);
        assert place == Place(fp1, n);
        Unlink(fp1, fp2, k, n);
        return fp1 + HEADER;
      }
      if s != 0 {
        EntryBounds(lay, k);
        p := FromList(sfp1, sfp2, s, n, k, place);
        return;
      }
      p := FromBreak(n, end, place);
    }

    // -------------------------------------------------------------- free

    /** Joins entry `k` at `fp`, with the entry above it at `up` when they touch. */
    method Absorb(fp: nat, up: nat, ghost k: nat, ghost hole: int)
      requires mem.Length == WORD && InPlace(lay) && hole <= k
      requires k + 1 < |lay.free| && fp == lay.free[k] && up == lay.free[k + 1] && Shows(mem[..], flp, lay, hole)
      modifies this`lay, mem
      ensures lay == Join(old(lay), k) && Shows(mem[..], flp, lay, hole)
      ensures Kept(old(mem[..]), mem[..], old(lay.Live()))
    {
      EntryBounds(lay, k);
      EntryBounds(lay, k + 1);
      var s, t := Load(mem, fp), Load(mem, up);
      if fp + HEADER + s == up {
        Fuse(fp, up, s + t + HEADER, k, hole);
      }
      lay := Join(lay, k);
    }

    /** The size of both chunks and the link of the upper one go into the lower one. */
    method Fuse(fp: nat, up: nat, sum: nat, ghost k: nat, ghost hole: int)
      requires mem.Length == WORD && InPlace(lay) && hole <= k && k + 1 < |lay.free| && Shows(mem[..], flp, lay, hole)
      requires lay.Known(k) && lay.Known(k + 1) && sum == lay.SizeAt(k) + HEADER + lay.SizeAt(k + 1)
      requires fp == lay.free[k] && up == lay.free[k + 1] == End(lay.chunks, fp)
      modifies mem
      ensures Shows(mem[..], flp, Join(lay, k), hole) && Kept(old(mem[..]), mem[..], lay.Live())
    {
      EntryBounds(lay, k);
      EntryBounds(lay, k + 1);
      ghost var m := mem[..];
      var next := Load(mem, up + HEADER);
      StoreBoth(fp, sum, fp + HEADER, next, fp);
      assert lay.Live() - {fp} == lay.Live();
      JoinShows(m, mem[..], flp, lay, k, hole);
    }

    /** Takes the topmost chunk, entry `|free| - 1` at `fp1`, off the list and lowers the break to it. */
    method CutTop(fp1: nat, fp2: nat)
      requires mem.Length == WORD && InPlace(lay) && |lay.free| > 0 && Shows(mem[..], flp, lay, -1)
      requires fp1 == lay.free[|lay.free| - 1] && fp2 == Before(lay.free, |lay.free| - 1)
      requires fp1 in lay.chunks && End(lay.chunks, fp1) == lay.brk
      modifies this`flp, this`brk, mem
      ensures brk == fp1 && Shows(mem[..], flp, Trim(lay), -1)
      ensures Kept(old(mem[..]), mem[..], lay.Live())
    {
      ghost var m, head, k := mem[..], flp, |lay.free| - 1;
      Redirect(fp2, 0, k);
      brk := fp1;
      TrimShows(m, mem[..], head, lay);
    }

    /** Walks to the last entry and lowers the break when that entry touches it. */
    method LowerBreak()
      requires mem.Length == WORD && lay.start == heapStart >= HEADER && brk == lay.brk
      requires AlmostSound(lay, -1, -1) && |lay.free| > 0 && Shows(mem[..], flp, lay, -1)
      modifies this`flp, this`brk, this`lay, mem
      ensures Valid() && lay.Live() == old(lay.Live())
      ensures Kept(old(mem[..]), mem[..], lay.Live())
    {
      ghost var l', z, touches := TrimmedAs(lay);
      ViewOf(mem[..], flp, lay);
      var fp1, fp2 := Last(mem, flp, lay.free, Sizes(lay));
      var s := Load(mem, fp1);
      var end := fp1 + HEADER + s;
      assert fp1 == z && end == End(lay.chunks, z);
      if end == brk {
        CutTop(fp1, fp2);
      }
      lay := l';
    }

    /** With an empty list the chunk either lowers the break or becomes the only entry. */
    method FreeFirst(a: nat)
      requires Valid() && brk == lay.brk && lay.free == [] && flp == 0
      requires a in lay.Live() && lay.Live()[a] >= NODE - HEADER && Word(mem[..], a + HEADER) == 0
      modifies this`flp, this`brk, this`lay
      ensures Valid() && lay.Live() == old(lay.Live()) - {a}
      ensures mem[..] == old(mem[..])
    {
      ghost var l' := FirstShows(mem[..], lay, a);
      var s := Load(mem, a);
      if a + HEADER + s == brk {
        brk := a;
      } else {
        flp := a;
      }
      lay := l';
    }

    /** Enters chunk `a`, whose link already leads to entry `k` at `fp1`, as entry `k` and joins it
        with `fp1` when they touch; nothing leads to it yet. */
    method Enter(a: nat, fp1: nat, ghost k: nat)
      requires mem.Length == WORD && WellPlaced(lay)
      requires a in lay.Live() && lay.Live()[a] >= NODE - HEADER && k == Rank(lay.free, a) && fp1 == Entry(lay.free, k)
      requires Shows(mem[..], flp, lay, -1) && Word(mem[..], a + HEADER) == fp1
      modifies this`lay, mem
      ensures EnteredAt(old(lay), lay, a, k) && Shows(mem[..], flp, lay, k)
      ensures Kept(old(mem[..]), mem[..], lay.Live())
    {
      ghost var l1, l2 := TwoSteps(mem[..], flp, lay, a, k);
      lay := l1;
      JoinUp(a, fp1, k, l2);
    }

    /** Joins entry `k`, at `a`, with the one above it, at `fp1`, if there is one and they touch. */
    method JoinUp(a: nat, fp1: nat, ghost k: nat, ghost l2: Layout)
      requires mem.Length == WORD && InPlace(lay) && k < |lay.free| && a == lay.free[k] && Shows(mem[..], flp, lay, k)
      requires if fp1 == 0 then l2 == lay
               else k + 1 < |lay.free| && fp1 == lay.free[k + 1] && lay.Known(k) && lay.Known(k + 1) && l2 == Join(lay, k)
      requires l2.Live() == lay.Live()
      modifies this`lay, mem
      ensures lay == l2 && Shows(mem[..], flp, l2, k) && Kept(old(mem[..]), mem[..], l2.Live())
    {
      if fp1 != 0 {
        Absorb(a, fp1, k, k);
      }
    }

    /** Joins entry `k`, at `fp2`, with entry `k + 1`, at `a`, and lowers the break if it can be lowered. */
    method Settle(fp2: nat, a: nat, ghost k: nat)
      requires mem.Length == WORD && lay.start == heapStart >= HEADER && brk == lay.brk
      requires k + 1 < |lay.free| && fp2 == lay.free[k] && a == lay.free[k + 1]
      requires AlmostSound(lay, k, k) && Shows(mem[..], flp, lay, -1)
      modifies this`flp, this`brk, this`lay, mem
      ensures Valid() && lay.Live() == old(lay.Live())
      ensures Kept(old(mem[..]), mem[..], lay.Live())
    {
      JoinSound(lay, k, k);
      ghost var m := mem[..];
      Absorb(fp2, a, k, -1);
      ghost var m1 := mem[..];
      LowerBreak();
      KeptTrans(m, m1, mem[..], lay.Live());
    }

    /** Puts the chunk `a`, whose link already leads to entry `k` at `fp1`, on the list behind `fp2`. */
    method PutOnList(a: nat, fp1: nat, fp2: nat, ghost k: nat)
      requires Valid() && brk == lay.brk && lay.free != []
      requires a in lay.Live() && lay.Live()[a] >= NODE - HEADER && k == Rank(lay.free, a)
      requires fp1 == Entry(lay.free, k) && fp2 == Before(lay.free, k)
      requires Word(mem[..], a + HEADER) == fp1
      modifies this`flp, this`brk, this`lay, mem
      ensures Valid() && lay.Live() == old(lay.Live()) - {a}
      ensures Kept(old(mem[..]), mem[..], old(lay.Live()) - {a})
    {
      ghost var m, live := mem[..], lay.Live() - {a};
      if k > 0 {
        EntryBounds(lay, k - 1);
      }
      Attach(a, fp1, fp2, k);
      if fp2 != 0 {
        ghost var m1 := mem[..];
        Settle(fp2, a, k - 1);
        KeptTrans(m, m1, mem[..], live);
      }
    }

    method Attach(a: nat, fp1: nat, fp2: nat, ghost k: nat)
      requires mem.Length == WORD && WellPlaced(lay) && Shows(mem[..], flp, lay, -1) && lay.free != []
      requires a in lay.Live() && lay.Live()[a] >= NODE - HEADER && k == Rank(lay.free, a)
      requires fp1 == Entry(lay.free, k) && fp2 == Before(lay.free, k)
      requires Word(mem[..], a + HEADER) == fp1
      modifies this`flp, this`lay, mem
      ensures EnteredAt(old(lay), lay, a, k) && Shows(mem[..], flp, lay, -1)
      ensures Kept(old(mem[..]), mem[..], lay.Live())
    {
      ghost var m, head := mem[..], flp;
      Enter(a, fp1, k);
      ghost var m1 := mem[..];
      Redirect(fp2, a, k);
      CloseShows(m1, mem[..], head, lay, k);
      KeptTrans(m, m1, mem[..], lay.Live());
    }

    /** Stores `v` in the link field of the live chunk `a`, which the caller has given up. */
    method OwnLink(a: nat, v: nat)
      requires Valid() && a in lay.Live() && lay.Live()[a] >= NODE - HEADER && v < WORD
      modifies mem
      ensures Valid() && Word(mem[..], a + HEADER) == v
      ensures Kept(old(mem[..]), mem[..], lay.Live() - {a})
    {
      ghost var m := mem[..];
      Store(mem, a + HEADER, v);
      InsideStore(lay, m, mem[..], a, a + HEADER, v);
      PayloadShows(m, mem[..], flp, lay, a);
      KeptStore(lay, lay.Live() - {a}, m, mem[..], a, a + HEADER, v);
    }

    /** Gives the chunk `a` back, at `p` less the header. */
    method Free(p: nat, ghost a: nat)
      requires Valid() && (p != 0 ==> p == a + HEADER && a in lay.Live() && lay.Live()[a] >= NODE - HEADER)
      modifies this`flp, this`brk, this`lay, mem
      ensures Valid()
      ensures p == 0 ==> lay == old(lay) && mem[..] == old(mem[..])
      ensures p != 0 ==> lay == Release(old(lay), a) && lay.Live() == old(lay.Live()) - {a}
      ensures p != 0 ==> Kept(old(mem[..]), mem[..], old(lay.Live()) - {a})
    {
      SettleBreak();
      if p != 0 {
        var fp := p - HEADER;
        assert fp == a;
        ghost var l := lay;
        GiveBack(fp);
        ReleaseIs(l, lay, a);
      }
    }

    method GiveBack(a: nat)
      requires Valid() && brk == lay.brk && a in lay.Live() && lay.Live()[a] >= NODE - HEADER
      modifies this`flp, this`brk, this`lay, mem
      ensures Valid() && lay.Live() == old(lay.Live()) - {a}
      ensures Kept(old(mem[..]), mem[..], old(lay.Live()) - {a})
    {
      ghost var m, live := mem[..], lay.Live() - {a};
      OwnLink(a, 0);
      EntryBounds(lay, 0);
      if flp == 0 {
        FreeFirst(a);
      } else {
        ghost var m1 := mem[..];
        FreeAmong(a);
        KeptTrans(m, m1, mem[..], live);
      }
    }

    method LinkTo(a: nat, fp1: nat)
      requires Valid() && a in lay.Live() && lay.Live()[a] >= NODE - HEADER && fp1 < WORD && Word(mem[..], a + HEADER) == 0
      modifies mem
      ensures Valid() && Word(mem[..], a + HEADER) == fp1
      ensures Kept(old(mem[..]), mem[..], lay.Live() - {a})
    {
      if fp1 != 0 {
        OwnLink(a, fp1);
      }
    }

    /** With other entries on the list. */
    method FreeAmong(a: nat)
      requires Valid() && brk == lay.brk && lay.free != []
      requires a in lay.Live() && lay.Live()[a] >= NODE - HEADER && Word(mem[..], a + HEADER) == 0
      modifies this`flp, this`brk, this`lay, mem
      ensures Valid() && lay.Live() == old(lay.Live()) - {a}
      ensures Kept(old(mem[..]), mem[..], old(lay.Live()) - {a})
    {
      ghost var m, live, k := mem[..], lay.Live() - {a}, Rank(lay.free, a);
      ViewOf(mem[..], flp, lay);
      var fp1, fp2 := FindPlace(mem, flp, a, lay.free, Sizes(lay));
      EntryBounds(lay, k);
      LinkTo(a, fp1);
      ghost var m1 := mem[..];
      PutOnList(a, fp1, fp2, k);
      KeptTrans(m, m1, mem[..], live);
    }

    // -------------------------------------------------------------- realloc

    /** The header of the rest, at `cp`, and the new size of `a`. */
    method Sever(a: nat, len: nat, cp: nat, rest: nat) returns (ghost l': Layout)
      requires mem.Length == WORD && WellPlaced(lay) && Shows(mem[..], flp, lay, -1)
      requires a in lay.Live() && cp == a + HEADER + len && lay.Live()[a] == len + HEADER + rest
      modifies mem
      ensures Becomes(lay, l', lay.Live()[a := len][cp := rest], mem[..], flp) && l'.brk == lay.brk && cp !in lay.Live()
      ensures Kept(old(mem[..]), mem[..], lay.Live() - {a}) && SameBytes(old(mem[..]), mem[..], a + HEADER, cp)
    {
      ghost var m := mem[..];
      StoreBoth(cp, rest, a, len, a);
      l' := Severed(m, mem[..], flp, lay, a, len, cp, rest);
    }

    /** Cuts the live chunk `a`, which has `s` bytes, into one of `len` bytes and a live rest at `cp`. */
    method CutAt(a: nat, s: nat, len: nat) returns (cp: nat, rest: nat)
      requires Valid() && a in lay.Live() && s == lay.Live()[a] && len + HEADER <= s
      modifies this`lay, mem
      ensures Valid() && cp == a + HEADER + len && cp !in old(lay.Live()) && rest == s - len - HEADER
      ensures lay.Live() == old(lay.Live())[a := len][cp := rest]
      ensures Kept(old(mem[..]), mem[..], old(lay.Live()) - {a})
      ensures SameBytes(old(mem[..]), mem[..], a + HEADER, a + HEADER + len)
    {
      cp, rest := a + HEADER + len, s - len - HEADER;
      lay := Sever(a, len, cp, rest);
    }

    /** Shrinks the live chunk `a` to `len` bytes when the rest can be a chunk of its own. */
    method Shrink(a: nat, len: nat, ghost place: Place)
      requires Valid() && a in lay.Live() && len <= lay.Live()[a] && place == ShrinkPlace(lay.Live()[a], a, len)
      modifies this`flp, this`brk, this`lay, mem
      ensures Valid() && lay.Live() == Replaced(old(lay.Live()), a, place)
      ensures Kept(old(mem[..]), mem[..], old(lay.Live()) - {a})
      ensures SameBytes(old(mem[..]), mem[..], a + HEADER, a + HEADER + len)
    {
      ghost var live := lay.Live();
      ReplacedInPlace(live, a, place);
      var s := Load(mem, a);
      if s <= NODE || len > s - NODE {
        return;
      }
      CutAndFree(a, s, len);
    }

    method CutAndFree(a: nat, s: nat, len: nat)
      requires Valid() && a in lay.Live() && s == lay.Live()[a] && len + NODE <= s
      modifies this`flp, this`brk, this`lay, mem
      ensures Valid() && lay.Live() == old(lay.Live())[a := len]
      ensures Kept(old(mem[..]), mem[..], old(lay.Live()) - {a})
      ensures SameBytes(old(mem[..]), mem[..], a + HEADER, a + HEADER + len)
    {
      ghost var m, live := mem[..], lay.Live();
      var cp, rest := CutAt(a, s, len);
      ghost var m1 := mem[..];
      assert live[a := len][cp := rest] - {cp} == live[a := len];
      Free(cp + HEADER, cp);
      ShrinkBytes(m, m1, mem[..], live, a, len);
    }

    /** Grows the live chunk `a` over entry `k`, at `fp3`, which follows it; `ofp3` is the entry before. */
    method GrowInto(a: nat, fp3: nat, ofp3: nat, len: nat, ghost k: nat, ghost place: Place)
      requires Valid() && a in lay.Live() && k < |lay.free|
      requires fp3 == lay.free[k] == End(lay.chunks, a) && ofp3 == Before(lay.free, k)
      requires lay.Known(k) && lay.chunks[a].size < len <= lay.chunks[a].size + HEADER + lay.SizeAt(k)
      requires place == GrowPlace(lay.chunks[a].size, lay.SizeAt(k), a, len)
      modifies this`flp, this`lay, mem
      ensures Valid() && lay.Live() == Replaced(old(lay.Live()), a, place) && len <= place.size <= len + NODE
      ensures Kept(old(mem[..]), mem[..], old(lay.Live()) - {a})
      ensures SameBytes(old(mem[..]), mem[..], a + HEADER, End(old(lay).chunks, a))
    {
      EntryBounds(lay, k);
      ReplacedInPlace(lay.Live(), a, place);
      var s, t := Load(mem, a), Load(mem, fp3);
      var incr := len - s;
      if t + HEADER - incr > NODE {
        assert place.size == len;
        GrowPart(a, fp3, ofp3, s, t, len, k);
      } else {
        var n := s + HEADER + t;
        assert place.size == n;
        GrowWhole(a, fp3, ofp3, n, k);
      }
    }

    /** The size of `a` and the header and link of the free rest at `cp`. */
    method FillRest(a: nat, cp: nat, rest: nat, next: nat, len: nat, ghost k: nat)
      requires mem.Length == WORD && InPlace(lay) && a in lay.Live() && k < |lay.free| && lay.Known(k)
      requires lay.free[k] == End(lay.chunks, a) <= cp && cp + HEADER + rest == End(lay.chunks, lay.free[k])
      requires rest >= NODE - HEADER && next < WORD && len < WORD
      modifies mem
      ensures Growing(old(mem[..]), mem[..], lay, a, k, len)
      ensures Word(mem[..], cp) == rest && Word(mem[..], cp + HEADER) == next
    {
      EntryBounds(lay, k);
      StoreBoth(cp + HEADER, next, cp, rest, lay.free[k]);
      Store(mem, a, len);
    }

    /** The new size of `a`, the header and link of the rest of entry `k`, and the link to it. */
    method Encroach(a: nat, cp: nat, ofp3: nat, rest: nat, len: nat, next: nat, ghost k: nat) returns (ghost l': Layout)
      requires mem.Length == WORD && WellPlaced(lay) && Shows(mem[..], flp, lay, -1)
      requires a in lay.Live() && k < |lay.free| && lay.Known(k) && cp == a + HEADER + len
      requires lay.free[k] == End(lay.chunks, a) && ofp3 == Before(lay.free, k) && next == Word(mem[..], lay.free[k] + HEADER)
      requires lay.chunks[a].size < len && len + rest == lay.chunks[a].size + lay.SizeAt(k) && rest >= NODE - HEADER
      modifies this`flp, mem
      ensures Becomes(lay, l', lay.Live()[a := len], mem[..], flp) && l'.brk == lay.brk
      ensures Kept(old(mem[..]), mem[..], lay.Live() - {a}) && SameBytes(old(mem[..]), mem[..], a + HEADER, End(lay.chunks, a))
    {
      EntryBounds(lay, k);
      ghost var m, head := mem[..], flp;
      FillAndLink(a, cp, ofp3, rest, len, next, k);
      l' := Nibbled(m, mem[..], head, lay, a, k, len, cp, rest, next);
    }

    method FillAndLink(a: nat, cp: nat, ofp3: nat, rest: nat, len: nat, next: nat, ghost k: nat)
      requires mem.Length == WORD && InPlace(lay) && a in lay.Live() && k < |lay.free| && lay.Known(k)
      requires lay.free[k] == End(lay.chunks, a) <= cp && cp + HEADER + rest == End(lay.chunks, lay.free[k])
      requires rest >= NODE - HEADER && next < WORD && len < WORD && ofp3 == Before(lay.free, k) && cp < WORD
      modifies this`flp, mem
      ensures Grown(old(mem[..]), mem[..], lay, a, k, len, cp) && Word(mem[..], cp) == rest && Word(mem[..], cp + HEADER) == next
      ensures Kept(old(mem[..]), mem[..], lay.Live() - {a}) && SameBytes(old(mem[..]), mem[..], a + HEADER, End(lay.chunks, a))
      ensures flp == if k == 0 then cp else old(flp)
    {
      ghost var m := mem[..];
      FillRest(a, cp, rest, next, len, k);
      ghost var m1 := mem[..];
      Redirect(ofp3, cp, k);
      ghost var m2 := mem[..];
      SameWord(m1, m2, lay.free[k], cp);
      SameWord(m1, m2, lay.free[k], cp + HEADER);
      GrowKept(m, m1, m2, lay, a, k, len);
      GrowWords(m, m1, m2, lay, a, k, len, cp);
    }

    method GrowPart(a: nat, fp3: nat, ofp3: nat, s: nat, t: nat, len: nat, ghost k: nat)
      requires Valid() && a in lay.Live() && k < |lay.free|
      requires fp3 == lay.free[k] == End(lay.chunks, a) && ofp3 == Before(lay.free, k) && lay.Known(k)
      requires s == lay.chunks[a].size && t == lay.SizeAt(k) && s < len && len - s + NODE < t + HEADER
      modifies this`flp, this`lay, mem
      ensures Valid() && lay.Live() == old(lay.Live())[a := len]
      ensures Kept(old(mem[..]), mem[..], old(lay.Live()) - {a})
      ensures SameBytes(old(mem[..]), mem[..], a + HEADER, a + HEADER + s)
    {
      EntryBounds(lay, k);
      var cp := a + HEADER + len;
      var next := Load(mem, fp3 + HEADER);
      lay := Encroach(a, cp, ofp3, t - (len - s), len, next, k);
    }

    /** The size of `a` alone. */
    method StoreSize(a: nat, n: nat, ghost k: nat)
      requires mem.Length == WORD && InPlace(lay) && a in lay.Live() && k < |lay.free| && lay.Known(k) && n < WORD
      requires lay.free[k] == End(lay.chunks, a)
      modifies mem
      ensures Growing(old(mem[..]), mem[..], lay, a, k, n)
      ensures Word(mem[..], lay.free[k] + HEADER) == Word(old(mem[..]), lay.free[k] + HEADER)
    {
      EntryBounds(lay, k);
      Store(mem, a, n);
    }

    /** The new size of `a`, then the link past entry `k`. */
    method Merge(a: nat, n: nat, ofp3: nat, next: nat, ghost k: nat) returns (ghost l': Layout)
      requires mem.Length == WORD && WellPlaced(lay) && Shows(mem[..], flp, lay, -1)
      requires a in lay.Live() && k < |lay.free| && lay.Known(k) && n == lay.chunks[a].size + HEADER + lay.SizeAt(k)
      requires lay.free[k] == End(lay.chunks, a) && ofp3 == Before(lay.free, k) && next == Word(mem[..], lay.free[k] + HEADER)
      modifies this`flp, mem
      ensures Becomes(lay, l', lay.Live()[a := n], mem[..], flp) && l'.brk == lay.brk
      ensures Kept(old(mem[..]), mem[..], lay.Live() - {a}) && SameBytes(old(mem[..]), mem[..], a + HEADER, End(lay.chunks, a))
    {
      EntryBounds(lay, k);
      ghost var m, head := mem[..], flp;
      SizeAndLink(a, n, ofp3, next, k);
      l' := Swallowed(m, mem[..], head, lay, a, k, n, next);
    }

    method SizeAndLink(a: nat, n: nat, ofp3: nat, next: nat, ghost k: nat)
      requires mem.Length == WORD && InPlace(lay) && a in lay.Live() && k < |lay.free| && lay.Known(k) && n < WORD
      requires lay.free[k] == End(lay.chunks, a) && ofp3 == Before(lay.free, k) && next < WORD
      modifies this`flp, mem
      ensures Grown(old(mem[..]), mem[..], lay, a, k, n, next)
      ensures Kept(old(mem[..]), mem[..], lay.Live() - {a}) && SameBytes(old(mem[..]), mem[..], a + HEADER, End(lay.chunks, a))
      ensures flp == if k == 0 then next else old(flp)
    {
      ghost var m := mem[..];
      StoreSize(a, n, k);
      ghost var m1 := mem[..];
      Redirect(ofp3, next, k);
      GrowKept(m, m1, mem[..], lay, a, k, n);
      GrowWords(m, m1, mem[..], lay, a, k, n, next);
    }

    method GrowWhole(a: nat, fp3: nat, ofp3: nat, n: nat, ghost k: nat)
      requires Valid() && a in lay.Live() && k < |lay.free|
      requires fp3 == lay.free[k] == End(lay.chunks, a) && ofp3 == Before(lay.free, k) && lay.Known(k)
      requires n == lay.chunks[a].size + HEADER + lay.SizeAt(k)
      modifies this`flp, this`lay, mem
      ensures Valid() && lay.Live() == old(lay.Live())[a := n]
      ensures Kept(old(mem[..]), mem[..], old(lay.Live()) - {a})
      ensures SameBytes(old(mem[..]), mem[..], a + HEADER, End(old(lay).chunks, a))
    {
      EntryBounds(lay, k);
      var next := Load(mem, fp3 + HEADER);
      lay := Merge(a, n, ofp3, next, k);
    }

    /** Grows the topmost chunk `a` by moving the break to `cp`; with `wraps` when `cp` has wrapped and the
        layout is no longer sound. */
    method Raise(a: nat, len: nat, cp: nat, ghost wraps: bool)
      requires Valid() && brk == lay.brk && a in lay.Live() && End(lay.chunks, a) == lay.brk
      requires lay.chunks[a].size < len < WORD && cp == NewEnd(a, len) && a <= cp && (wraps <==> len >= WORD - HEADER)
      modifies this`brk, this`lay, mem
      ensures wraps ==> lay == Raised(old(lay), a, len) && brk == lay.brk && Word(mem[..], a) == len
      ensures !wraps ==> Valid() && lay.Live() == old(lay.Live())[a := len]
      ensures Kept(old(mem[..]), mem[..], old(lay.Live()) - {a})
      ensures SameBytes(old(mem[..]), mem[..], a + HEADER, End(old(lay).chunks, a))
    {
      ghost var m, l := mem[..], lay;
      brk := cp;
      SetSize(a, len);
      if wraps {
        lay := Raised(l, a, len);
      } else {
        lay := RaiseShows(m, mem[..], flp, l, a, len);
      }
    }

    method SetSize(a: nat, len: nat)
      requires mem.Length == WORD && InPlace(lay) && a in lay.Live() && len < WORD
      modifies mem
      ensures Word(mem[..], a) == len && WordsKept(old(mem[..]), mem[..], lay, a)
      ensures Kept(old(mem[..]), mem[..], lay.Live() - {a})
      ensures SameBytes(old(mem[..]), mem[..], a + HEADER, End(lay.chunks, a))
    {
      ghost var m := mem[..];
      Store(mem, a, len);
      RaiseKept(m, mem[..], lay, a, len);
    }

    /** memcpy from the live chunk `a` to the live chunk `c`. */
    method Copy(a: nat, c: nat, n: nat)
      requires mem.Length == WORD && InPlace(lay) && Shows(mem[..], flp, lay, -1)
      requires a in lay.Live() && c in lay.Live() && a != c && n <= lay.Live()[a] && n <= lay.Live()[c]
      modifies mem
      ensures Shows(mem[..], flp, lay, -1) && Kept(old(mem[..]), mem[..], lay.Live() - {c})
      ensures Same(old(mem[..]), a + HEADER, mem[..], c + HEADER, n)
    {
      assert Clear(lay.chunks, a, c);
      ghost var m := mem[..];
      CopyBytes(mem, c + HEADER, a + HEADER, n);
      CopiedInside(m, mem[..], flp, lay, c, n);
    }

    /** Copies `s` bytes of payload from `a` to `c`, then gives `a` back. */
    method CopyAndFree(a: nat, c: nat, s: nat)
      requires Valid() && a in lay.Live() && c in lay.Live() && a != c
      requires NODE - HEADER <= s == lay.Live()[a] <= lay.Live()[c]
      modifies this`flp, this`brk, this`lay, mem
      ensures Valid() && lay.Live() == old(lay.Live()) - {a}
      ensures Kept(old(mem[..]), mem[..], old(lay.Live()) - {a, c})
      ensures Same(old(mem[..]), a + HEADER, mem[..], c + HEADER, s)
    {
      ghost var m, live := mem[..], lay.Live();
      Copy(a, c, s);
      ghost var m1 := mem[..];
      Free(a + HEADER, a);
      CopiedBytes(m, m1, mem[..], live, a, c, s);
    }

    /** Moves the payload of `a`, `s` bytes, to a chunk of at least `len` bytes from malloc, at `place`. */
    method Move(a: nat, s: nat, len: nat, end: nat, ghost place: Place) returns (r: nat)
      requires Valid() && a in lay.Live() && NODE - HEADER <= s == lay.Live()[a] <= len < WORD
      requires end < WORD
      requires (forall k :: 0 <= k < |lay.free| ==> lay.Known(k)) && place == MallocPlace(lay, len, end)
      modifies this`flp, this`brk, this`lay, mem
      ensures Valid() && r == Payload(place.chunk) && lay.Live() == Replaced(old(lay.Live()), a, place)
      ensures Kept(old(mem[..]), mem[..], old(lay.Live()) - {a})
      ensures r != 0 ==> Same(old(mem[..]), a + HEADER, mem[..], r, s)
      ensures r == 0 ==> Kept(old(mem[..]), mem[..], old(lay.Live()))
    {
      ghost var m, live := mem[..], lay.Live();
      FreshPlace(lay, len, end, place);
      r := Serve(len, end, place);
      ghost var m1, all := mem[..], lay.Live();
      KeptPart(m, m1, live, live - {a});
      if r != 0 {
        var c := r - HEADER;
        assert c == place.chunk;
        CopyAndFree(a, c, s);
        MovedBytes(m, m1, mem[..], live, all, a, c, s, place);
      }
    }

    /** The figures heap_stats prints. */
    method Stats(end: nat) returns (size: int, used: int, free: int)
      requires Valid()
      modifies this`brk
      ensures Valid() && lay == old(lay) && mem[..] == old(mem[..])
      ensures size == end - heapStart && used + free == size
      ensures forall a :: a in Walk(lay.chunks, heapStart, lay.brk) ==> a in lay.chunks
      ensures used == Occupied(lay.chunks, Walk(lay.chunks, heapStart, lay.brk))
    {
      SettleBreak();
      size := end - heapStart;
      free := end - brk;
      ViewOf(mem[..], flp, lay);
      var sum := SumFree(mem, flp, lay);
      free := free + sum;
      used := size - free;
      WalkVisitsAll(lay);
      StatsCountOnce(lay);
    }

    /** Growing by moving the break, when `largest` free bytes do not hold the request. */
    method AtTop(a: nat, s: nat, len: nat, end: nat, ghost place: Place, ghost wraps: bool) returns (r: nat)
      requires Valid() && brk == lay.brk && a in lay.Live() && s == lay.Live()[a] < len < WORD
      requires End(lay.chunks, a) == lay.brk && a <= NewEnd(a, len)
      requires place == TopPlace(a, len, end) && (wraps <==> Wraps(lay, a, len, end))
      modifies this`brk, this`lay, mem
      ensures r == Payload(place.chunk)
      ensures !wraps ==> Valid() && lay.Live() == Replaced(old(lay.Live()), a, place)
      ensures wraps ==> lay == Raised(old(lay), a, len) && brk == lay.brk && Word(mem[..], a) == len
      ensures Kept(old(mem[..]), mem[..], old(lay.Live()) - {a})
      ensures r != 0 ==> Same(old(mem[..]), a + HEADER, mem[..], r, s)
      ensures r == 0 ==> Kept(old(mem[..]), mem[..], old(lay.Live()))
    {
      var cp := NewEnd(a, len);
      if cp < end {
        assert place.chunk == a && place.size == len;
        assert wraps <==> len >= WORD - HEADER;
        ReplacedInPlace(lay.Live(), a, place);
        Raise(a, len, cp, wraps);
        return a + HEADER;
      }
      return 0;
    }

    /** Growing in place over the chunk above or by moving the break, or else moving the payload. */
    method Enlarge(a: nat, s: nat, len: nat, end: nat, ghost place: Place, ghost wraps: bool) returns (r: nat)
      requires Valid() && a in lay.Live() && NODE - HEADER <= s == lay.Live()[a] < len < WORD
      requires a <= NewEnd(a, len) && end < WORD
      requires forall k :: 0 <= k < |lay.free| ==> lay.Known(k)
      requires place == ReallocPlace(lay, a, len, end) && (wraps <==> Wraps(lay, a, len, end))
      modifies this`flp, this`brk, this`lay, mem
      ensures r == Payload(place.chunk)
      ensures !wraps ==> Valid() && lay.Live() == Replaced(old(lay.Live()), a, place)
      ensures wraps ==> lay == Raised(old(lay), a, len) && brk == lay.brk && Word(mem[..], a) == len
      ensures Kept(old(mem[..]), mem[..], old(lay.Live()) - {a})
      ensures r != 0 ==> Same(old(mem[..]), a + HEADER, mem[..], r, s)
      ensures r == 0 ==> Kept(old(mem[..]), mem[..], old(lay.Live()))
    {
      SettledBreak(lay, a);
      var target := a + HEADER + s;
      assert target == End(lay.chunks, a);
      ghost var k := Rank(lay.free, target);
      ViewOf(mem[..], flp, lay);
      var fp3, ofp3, largest := Seek(mem, flp, target, len - s, len, lay.free, Sizes(lay));
      Choice(lay, a, len, end, place, fp3 != 0, largest);
      r := Widen(a, s, len, end, target, fp3, ofp3, largest, k, place, wraps);
    }

    /** Growing a block, after the walk over the list. */
    method Widen(a: nat, s: nat, len: nat, end: nat, target: nat, fp3: nat, ofp3: nat, largest: nat,
                 ghost k: nat, ghost place: Place, ghost wraps: bool) returns (r: nat)
      requires Valid() && brk == lay.brk && a in lay.Live() && NODE - HEADER <= s == lay.Live()[a] < len < WORD
      requires a <= NewEnd(a, len) && end < WORD && target == End(lay.chunks, a)
      requires forall k :: 0 <= k < |lay.free| ==> lay.Known(k)
      requires fp3 != 0 ==>
                 && k < |lay.free| && fp3 == target == lay.free[k] && ofp3 == Before(lay.free, k)
                 && len <= lay.chunks[a].size + HEADER + lay.SizeAt(k)
                 && place == GrowPlace(lay.chunks[a].size, lay.SizeAt(k), a, len) && place.chunk == a && !wraps
      requires fp3 == 0 ==>
                 if target == brk && len > largest then place == TopPlace(a, len, end) && (wraps <==> Wraps(lay, a, len, end))
                 else place == MallocPlace(lay, len, end) && !wraps
      modifies this`flp, this`brk, this`lay, mem
      ensures r == Payload(place.chunk)
      ensures !wraps ==> Valid() && lay.Live() == Replaced(old(lay.Live()), a, place)
      ensures wraps ==> lay == Raised(old(lay), a, len) && brk == lay.brk && Word(mem[..], a) == len
      ensures Kept(old(mem[..]), mem[..], old(lay.Live()) - {a})
      ensures r != 0 ==> Same(old(mem[..]), a + HEADER, mem[..], r, s)
      ensures r == 0 ==> Kept(old(mem[..]), mem[..], old(lay.Live()))
    {
      if fp3 != 0 {
        GrowInto(a, fp3, ofp3, len, k, place);
        return a + HEADER;
      }
      if brk == target && len > largest {
        r := AtTop(a, s, len, end, place, wraps);
        return;
      }
      r := Move(a, s, len, end, place);
    }

    /** Resizes the block of chunk `a`, at `p`: in place when shrinking or when there is room above it, else
        by moving it; NULL, with everything as before, when there is no memory. */
    method Realloc(p: nat, len: nat, end: nat, ghost a: nat) returns (r: nat)
      requires Valid() && len < WORD && end < WORD
      requires p != 0 ==> p == a + HEADER && a in lay.Live() && lay.Live()[a] >= NODE - HEADER
      modifies this`flp, this`brk, this`lay, mem
      ensures forall k :: 0 <= k < |old(lay).free| ==> old(lay).Known(k)
      ensures p == 0 ==> Valid() && r == Payload(MallocPlace(old(lay), len, end).chunk)
      ensures p == 0 ==> lay == MallocLayout(old(lay), len, end) && Kept(old(mem[..]), mem[..], old(lay.Live()))
      ensures p != 0 ==> r == Payload(ReallocPlace(old(lay), a, len, end).chunk)
      ensures p != 0 && !Wraps(old(lay), a, len, end) ==> Reallotted(old(lay), lay, p, r, len)
      ensures p == 0 ==> Allotted(old(lay), lay, r, len, end)
      ensures p != 0 ==> lay == ReallocLayout(old(lay), a, len, end) && (Valid() <==> !Wraps(old(lay), a, len, end))
      ensures p != 0 ==> Kept(old(mem[..]), mem[..], old(lay.Live()) - {a})
      ensures p != 0 && r != 0 ==> Same(old(mem[..]), p, mem[..], r, Min(len, old(lay.Live())[a]))
      ensures p != 0 && r == 0 ==> Kept(old(mem[..]), mem[..], old(lay.Live()))
    {
      KnownAll(lay);
      if p == 0 {
        r := Malloc(len, end);
      } else {
        ghost var l, place, wraps := lay, ReallocPlace(lay, a, len, end), Wraps(lay, a, len, end);
        WrapsUnsound(l, a, len, end);
        var fp := p - HEADER;
        assert fp == a;
        r := Resize(p, fp, len, end, place, wraps);
        ReallocIs(l, lay, a, len, end);
        if !wraps {
          ReallocReallots(l, a, len, end);
        }
      }
    }

    /** The steps of realloc on a block, with `place` for where the request is served. */
    method Resize(p: nat, a: nat, len: nat, end: nat, ghost place: Place, ghost wraps: bool) returns (r: nat)
      requires Valid() && len < WORD && end < WORD
      requires p == a + HEADER && a in lay.Live() && lay.Live()[a] >= NODE - HEADER
      requires forall k :: 0 <= k < |lay.free| ==> lay.Known(k)
      requires place == ReallocPlace(lay, a, len, end) && (wraps <==> Wraps(lay, a, len, end))
      modifies this`flp, this`brk, this`lay, mem
      ensures r == Payload(place.chunk)
      ensures !wraps ==> Valid() && lay.Live() == Replaced(old(lay.Live()), a, place)
      ensures wraps ==> lay == Raised(old(lay), a, len) && brk == lay.brk && Word(mem[..], a) == len
      ensures Kept(old(mem[..]), mem[..], old(lay.Live()) - {a})
      ensures r != 0 ==> Same(old(mem[..]), p, mem[..], r, Min(len, old(lay.Live())[a]))
      ensures r == 0 ==> Kept(old(mem[..]), mem[..], old(lay.Live()))
    {
      var cp := NewEnd(a, len);
      FirstChoice(lay, a, len, end, place);
      if cp < a {
        return 0;
      }
      var s := Load(mem, a);
      ghost var n := Min(len, s);
      if len <= s {
        assert n == len;
        r := Reduce(p, a, len, place);
      } else {
        assert n == s;
        r := Enlarge(a, s, len, end, place, wraps);
      }
    }

    method Reduce(p: nat, a: nat, len: nat, ghost place: Place) returns (r: nat)
      requires Valid() && p == a + HEADER && a in lay.Live() && len <= lay.Live()[a]
      requires place == ShrinkPlace(lay.Live()[a], a, len)
      modifies this`flp, this`brk, this`lay, mem
      ensures Valid() && r == p && lay.Live() == Replaced(old(lay.Live()), a, place)
      ensures Kept(old(mem[..]), mem[..], old(lay.Live()) - {a})
      ensures Same(old(mem[..]), p, mem[..], r, len)
    {
      ghost var m := mem[..];
      Shrink(a, len, place);
      SameInPlace(m, mem[..], p, len);
      r := p;
    }
  }

  /** What realloc does before it looks at the free list. */
  lemma FirstChoice(l: Layout, a: nat, len: nat, end: nat, place: Place)
    requires WellPlaced(l) && a in l.Live() && len < WORD && forall k :: 0 <= k < |l.free| ==> l.Known(k)
    requires place == ReallocPlace(l, a, len, end)
    ensures a > 0 && l.Live()[a] == l.chunks[a].size
    ensures NewEnd(a, len) < a ==> place == Place(0, 0) && !Wraps(l, a, len, end)
    ensures NewEnd(a, len) >= a && len <= l.Live()[a] ==>
              place == ShrinkPlace(l.Live()[a], a, len) && place.chunk == a && !Wraps(l, a, len, end)
  {
    WrapsFar(l, a, len, end);
  }

  /** A request that wraps is larger than its chunk, and the wrapped end is not below it. */
  lemma WrapsFar(l: Layout, a: nat, len: nat, end: nat)
    requires WellPlaced(l) && a in l.Live() && len < WORD
    ensures len >= WORD - HEADER ==> a <= NewEnd(a, len) && l.chunks[a].size < len
  {
    NewEndIs(a, len);
  }

  /** Which way realloc grows a block, told from what the walk over the list found. */
  lemma Choice(l: Layout, a: nat, len: nat, end: nat, place: Place, found: bool, largest: nat)
    requires WellPlaced(l) && a in l.Live() && l.chunks[a].size < len < WORD && a <= NewEnd(a, len)
    requires forall k :: 0 <= k < |l.free| ==> l.Known(k)
    requires place == ReallocPlace(l, a, len, end)
    requires var k := Rank(l.free, End(l.chunks, a));
             found <==> k < |l.free| && l.free[k] == End(l.chunks, a) && Sizes(l)[k] + HEADER >= len - l.chunks[a].size
    requires !found ==> (len > largest <==> BestFit(Sizes(l), len) == |l.free|)
    ensures var k, t := Rank(l.free, End(l.chunks, a)), End(l.chunks, a) == l.brk && len > largest;
            && (found ==> k < |l.free| && place == GrowPlace(l.chunks[a].size, l.SizeAt(k), a, len) && place.chunk == a)
            && (found || !t ==> !Wraps(l, a, len, end))
            && (!found && t ==> place == TopPlace(a, len, end))
            && (!found && !t ==> place == MallocPlace(l, len, end))
  {
    if found {
      NotTopmost(l, a);
    } else if len >= WORD - HEADER {
      TooLarge(l, len);
    }
  }

  /** The chunk below a free one is not the topmost. */
  lemma NotTopmost(l: Layout, a: nat)
    requires l.Sound() && a in l.chunks && Above(l, a) < |l.free|
    ensures End(l.chunks, a) < l.brk
  {
    assert l.free[Above(l, a)] in l.free;
  }

  /** No free chunk can hold a request that would wrap. */
  lemma TooLarge(l: Layout, len: nat)
    requires InPlace(l) && len >= WORD - HEADER && forall k :: 0 <= k < |l.free| ==> l.Known(k)
    ensures BestFit(Sizes(l), len) == |l.free|
  {
  }

  /** Malloc's answer is a block that was not live before. */
  lemma FreshPlace(l: Layout, len: nat, end: nat, p: Place)
    requires WellPlaced(l) && forall k :: 0 <= k < |l.free| ==> l.Known(k)
    requires p == MallocPlace(l, len, end)
    ensures p.chunk != 0 ==> p.chunk !in l.Live() && len <= p.size
  {
    MallocSound(l, len, end);
  }

  /** The bytes after moving a block: `m1` after malloc, `m2` after copying and freeing. */
  lemma MovedBytes(m: seq<byte>, m1: seq<byte>, m2: seq<byte>, live: map<nat, nat>, all: map<nat, nat>,
                   a: nat, c: nat, s: nat, p: Place)
    requires a in live && c !in live && s == live[a] && 0 < p.chunk == c && all == Added(live, p)
    requires Kept(m, m1, live) && Kept(m1, m2, all - {a, c}) && Same(m1, a + HEADER, m2, c + HEADER, s)
    ensures all - {a} == Replaced(live, a, p)
    ensures Kept(m, m2, live - {a}) && Same(m, a + HEADER, m2, c + HEADER, s)
  {
    assert SameBytes(m, m1, a, a + HEADER + live[a]);
    KeptPart(m, m1, live, live - {a});
    KeptPart(m1, m2, all - {a, c}, live - {a});
    KeptTrans(m, m1, m2, live - {a});
  }

  /** The bytes after copying, `m1`, and freeing, `m2`. */
  lemma CopiedBytes(m: seq<byte>, m1: seq<byte>, m2: seq<byte>, live: map<nat, nat>, a: nat, c: nat, s: nat)
    requires a in live && c in live && a != c && s <= live[c]
    requires Kept(m, m1, live - {c}) && Same(m, a + HEADER, m1, c + HEADER, s) && Kept(m1, m2, live - {a})
    ensures Kept(m, m2, live - {a, c}) && Same(m, a + HEADER, m2, c + HEADER, s)
  {
    KeptPart(m, m1, live - {c}, live - {a, c});
    KeptPart(m1, m2, live - {a}, live - {a, c});
    KeptTrans(m, m1, m2, live - {a, c});
    assert SameBytes(m1, m2, c, c + HEADER + (live - {a})[c]);
  }

  /** Copying into the payload of the live chunk `c`. */
  lemma CopiedInside(m: seq<byte>, m': seq<byte>, flp: nat, l: Layout, c: nat, n: nat)
    requires InPlace(l) && Shows(m, flp, l, -1) && c in l.Live() && n <= l.Live()[c] && |m| == |m'|
    requires forall x :: 0 <= x < |m| && !(c + HEADER <= x < c + HEADER + n) ==> m'[x] == m[x]
    ensures Shows(m', flp, l, -1) && Kept(m, m', l.Live() - {c})
  {
    PayloadStore(l, m, m', c, l.Live() - {c});
    PayloadShows(m, m', flp, l, c);
  }

  /** A break moved below the end of the topmost chunk belongs to no sound layout. */
  lemma WrapsUnsound(l: Layout, a: nat, len: nat, end: nat)
    requires WellPlaced(l) && a in l.Live() && len < WORD
    ensures Wraps(l, a, len, end) ==> !Raised(l, a, len).Sound()
  {
  }

  lemma ReplacedInPlace(live: map<nat, nat>, a: nat, p: Place)
    requires a in live && p.chunk == a && (a == 0 ==> p.size == live[a])
    ensures Replaced(live, a, p) == live[a := p.size]
    ensures p.size == live[a] ==> Replaced(live, a, p) == live
  {
  }

  /** The bytes after a shrink: `m1` after the cut, `m2` after freeing the rest. */
  lemma ShrinkBytes(m: seq<byte>, m1: seq<byte>, m2: seq<byte>, live: map<nat, nat>, a: nat, len: nat)
    requires a in live && Kept(m, m1, live - {a}) && SameBytes(m, m1, a + HEADER, a + HEADER + len)
    requires Kept(m1, m2, live[a := len])
    ensures Kept(m, m2, live - {a}) && SameBytes(m, m2, a + HEADER, a + HEADER + len)
  {
    KeptPart(m1, m2, live[a := len], live - {a});
    KeptTrans(m, m1, m2, live - {a});
    assert SameBytes(m1, m2, a, a + HEADER + live[a := len][a]);
  }

  /** The loop of heap_stats over the free list. */
  method SumFree(mem: array<byte>, flp: nat, ghost l: Layout) returns (sum: nat)
    requires mem.Length == WORD && forall k :: 0 <= k < |l.free| ==> l.Known(k)
    requires ListView(mem[..], flp, l.free, Sizes(l))
    ensures sum == FreeBytes(l, 0)
  {
    var fp := flp;
    ghost var i := 0;
    sum := 0;
    while fp != 0
      invariant i <= |l.free| && fp == Entry(l.free, i) && sum + FreeBytes(l, i) == FreeBytes(l, 0)
      decreases |l.free| - i
    {
      assert LinkAt(mem[..], l.free, i) && Sizes(l)[i] == l.SizeAt(i);
      var sz := Load(mem, fp);
      sum := sum + sz;
      fp := Load(mem, fp + HEADER);
      i := i + 1;
    }
  }

  function Min(x: nat, y: nat): nat {
    if x < y then x else y
  }

  /** While a block is live the break is not NULL. */
  lemma SettledBreak(l: Layout, a: nat)
    requires Disjoint(l.chunks, l.start, l.brk) && a in l.Live()
    ensures l.start < l.brk
  {
  }

  /** `n` bytes at `x` in `m` are `n` bytes at `y` in `m'`. */
  ghost predicate Same(m: seq<byte>, x: nat, m': seq<byte>, y: nat, n: nat) {
    x + n <= |m| && y + n <= |m'| && m'[y..y + n] == m[x..x + n]
  }

  lemma SameInPlace(m: seq<byte>, m': seq<byte>, x: nat, n: nat)
    requires SameBytes(m, m', x, x + n) && x + n <= |m|
    ensures Same(m, x, m', x, n)
  {
  }

  /** memcpy of `n` bytes between two separate regions. */
  method CopyBytes(mem: array<byte>, dst: nat, src: nat, n: nat)
    requires dst + n <= mem.Length && src + n <= mem.Length && (dst + n <= src || src + n <= dst)
    modifies mem
    ensures mem[dst..dst + n] == old(mem[src..src + n])
    ensures forall x :: 0 <= x < mem.Length && !(dst <= x < dst + n) ==> mem[x] == old(mem[x])
  {
    var i := 0;
    while i < n
      invariant i <= n
      invariant mem[dst..dst + i] == old(mem[src..src + i])
      invariant forall x :: 0 <= x < mem.Length && !(dst <= x < dst + n) ==> mem[x] == old(mem[x])
    {
      mem[dst + i] := mem[src + i];
      i := i + 1;
    }
  }

  /** The memory after the topmost chunk has grown. */
  lemma RaiseKept(m: seq<byte>, m': seq<byte>, l: Layout, a: nat, len: nat)
    requires InPlace(l) && Stored(m, m', a, len) && a in l.Live() && len < WORD
    ensures WordsKept(m, m', l, a) && Kept(m, m', l.Live() - {a}) && SameBytes(m, m', a + HEADER, End(l.chunks, a))
  {
    InsideStore(l, m, m', a, a, len);
    KeptStore(l, l.Live() - {a}, m, m', a, a, len);
  }

  lemma RaiseShows(m: seq<byte>, m': seq<byte>, flp: nat, l: Layout, a: nat, len: nat) returns (l': Layout)
    requires WellPlaced(l) && Shows(m, flp, l, -1) && WordsKept(m, m', l, a) && Word(m', a) == len
    requires a in l.Live() && End(l.chunks, a) == l.brk && l.chunks[a].size < len < WORD - HEADER
    requires a <= NewEnd(a, len)
    ensures Becomes(l, l', l.Live()[a := len], m', flp) && l'.brk == NewEnd(a, len)
  {
    NewEndIs(a, len);
    StretchSound(l, a, len);
    StretchShows(m, m', flp, l, a, len);
    l' := Stretch(l, a, len);
  }

  /** The walk of realloc: the entry at `target` when growing by `incr` bytes over it is possible,
      else the size of the largest chunk. */
  method Seek(mem: array<byte>, flp: nat, target: nat, incr: nat, len: nat, ghost free: seq<nat>, ghost sizes: seq<nat>)
    returns (fp3: nat, ofp3: nat, s: nat)
    requires mem.Length == WORD && ListView(mem[..], flp, free, sizes) && Sorted(free) && 0 < target && 0 < len
    ensures var k := Rank(free, target);
            if k < |free| && free[k] == target && sizes[k] + HEADER >= incr then fp3 == target && ofp3 == Before(free, k)
            else fp3 == 0 && (len > s <==> BestFit(sizes, len) == |free|)
  {
    s, ofp3, fp3 := 0, 0, flp;
    ghost var i := 0;
    while fp3 != 0
      invariant i <= |free| && fp3 == Entry(free, i) && ofp3 == Before(free, i)
      invariant forall j :: 0 <= j < i ==> sizes[j] <= s && (free[j] == target ==> sizes[j] + HEADER < incr)
      invariant s == 0 || exists j :: 0 <= j < i && sizes[j] == s
      decreases |free| - i
    {
      assert LinkAt(mem[..], free, i);
      var sz := Load(mem, fp3);
      if fp3 == target && sz + HEADER >= incr {
        RankIs(free, target, i);
        return;
      }
      if sz > s {
        s := sz;
      }
      ofp3 := fp3;
      fp3 := Load(mem, fp3 + HEADER);
      i := i + 1;
    }
  }

  lemma FirstShows(m: seq<byte>, l: Layout, a: nat) returns (l': Layout)
    requires WellPlaced(l) && l.free == [] && Shows(m, 0, l, -1) && Word(m, a + HEADER) == 0
    requires a in l.Live() && l.Live()[a] >= NODE - HEADER
    ensures a + NODE <= WORD && Word(m, a) == l.chunks[a].size
    ensures WellPlaced(l') && l'.start == l.start && l'.Live() == l.Live() - {a}
    ensures if End(l.chunks, a) == l.brk then l'.brk == a && Shows(m, 0, l', -1)
            else l'.brk == l.brk && Shows(m, a, l', -1)
  {
    OpenShows(m, 0, l, a, 0);
    var l1 := Insert(l, a, 0);
    assert l1.free == [a];
    l' := ReleaseSteps(l, a);
  }
}
