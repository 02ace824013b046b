/** What the layouts mean: malloc and realloc as a whole, every run of the three operations, and the
    facts a caller can rely on in each reachable state. */
module HeapRuns {
  import opened Ascending
  import opened HeapLayout
  import opened Memory
  import opened Remainders
  import opened Sequences

  // ---------------------------------------------------------------- malloc

  /** The free chunk at `a` is the smallest that holds `n` bytes, and the lowest of that size. */
  ghost predicate Best(l: Layout, a: nat, n: nat) {
    && a in l.chunks && l.chunks[a].free && n <= l.chunks[a].size
    && forall b :: b in l.chunks && l.chunks[b].free && n <= l.chunks[b].size ==>
         l.chunks[a].size < l.chunks[b].size || (l.chunks[a].size == l.chunks[b].size && a <= b)
  }

  /** No free chunk holds `n` bytes. */
  ghost predicate NoneHolds(l: Layout, n: nat) {
    forall a :: a in l.chunks && l.chunks[a].free ==> l.chunks[a].size < n
  }

  /** The entry found in the list is the best of all free chunks, and none is found exactly when none
      is large enough. */
  lemma FitIsBest(l: Layout, n: nat)
    requires Listed(l.chunks, l.free)
    ensures forall k :: 0 <= k < |l.free| ==> l.Known(k)
    ensures var k := BestFit(Sizes(l), n); if k < |l.free| then Best(l, l.free[k], n) else NoneHolds(l, n)
  {
    KnownAll(l);
    var k := BestFit(Sizes(l), n);
    if k < |l.free| {
      var a := l.free[k];
      assert a in l.free && Sizes(l)[k] == l.chunks[a].size;
      forall b | b in l.chunks && l.chunks[b].free && n <= l.chunks[b].size
        ensures l.chunks[a].size < l.chunks[b].size || (l.chunks[a].size == l.chunks[b].size && a <= b)
      {
        var j :| 0 <= j < |l.free| && l.free[j] == b;
        assert Sizes(l)[j] == l.chunks[b].size;
      }
    } else {
      NoFit(l, n);
    }
  }

  /** Malloc serves a request, rounded up to the room for a link, from the upper end of the best free
      chunk, and from all of it when the rest could not be a chunk. The break moves only when no
      free chunk is large enough, and then by exactly the new chunk. */
  lemma MallocServes(l: Layout, len: nat, end: nat)
    requires l.Sound() && l.start > 0
    ensures forall k :: 0 <= k < |l.free| ==> l.Known(k)
    ensures len <= Request(len) && NODE - HEADER <= Request(len) && (Request(len) == len || Request(len) == NODE - HEADER)
    ensures var n, m, p := Request(len), MallocLayout(l, len, end), MallocPlace(l, len, end);
            if NoneHolds(l, n) then
              if l.brk + HEADER + n <= end then p == Place(l.brk, n) && m.brk == l.brk + HEADER + n
              else p == Place(0, 0) && m == l
            else
              && m.brk == l.brk
              && exists a :: Best(l, a, n) &&
                   p == if l.chunks[a].size < n + NODE then Place(a, l.chunks[a].size)
                        else Place(End(l.chunks, a) - HEADER - n, n)
  {
    FitIsBest(l, Request(len));
    var n := Request(len);
    var k := BestFit(Sizes(l), n);
    if k < |l.free| {
      assert Best(l, l.free[k], n);
    }
  }

  // ---------------------------------------------------------------- realloc

  /** The entry of the free list that follows chunk `a`, or the length of the list. */
  function Above(l: Layout, a: nat): (k: nat)
    requires a in l.chunks
    ensures k <= |l.free| && (k < |l.free| ==> l.free[k] == End(l.chunks, a))
  {
    var k := Rank(l.free, End(l.chunks, a));
    if k < |l.free| && l.free[k] == End(l.chunks, a) then k else |l.free|
  }

  /** The address after `len` bytes of payload, as the 16-bit pointer arithmetic sees it. */
  function NewEnd(a: nat, len: nat): nat {
    (a + HEADER + len) % WORD
  }

  lemma NewEndIs(a: nat, len: nat)
    requires a + HEADER <= WORD && len < WORD
    ensures NewEnd(a, len) == if a + HEADER + len < WORD then a + HEADER + len else a + HEADER + len - WORD
  {
    if a + HEADER + len < WORD {
      SmallMod(a + HEADER + len, WORD);
    } else {
      DivIs(a + HEADER + len, 1, a + HEADER + len - WORD, WORD);
    }
  }

  /** Giving up the part of the chunk above `len` bytes, when that part can carry a header and a link. */
  ghost function ShrinkLayout(l: Layout, a: nat, len: nat): Layout
    requires l.Sound() && a in l.Live()
  {
    var s := l.chunks[a].size;
    if s <= NODE || len > s - NODE then l
    else
      CutSound(l, a, len);
      Release(Cut(l, a, len), a + HEADER + len)
  }

  /** Growing over free chunk `k`, which follows `a`. */
  function GrowLayout(l: Layout, a: nat, k: nat, len: nat): Layout
    requires a in l.chunks && l.Known(k) && l.chunks[a].size <= len <= l.chunks[a].size + HEADER + l.SizeAt(k)
  {
    if l.SizeAt(k) + HEADER - (len - l.chunks[a].size) > NODE then Nibble(l, a, k, len) else Swallow(l, a, k)
  }

  /** Growing the topmost chunk by moving the break, in 16-bit arithmetic. */
  function TopLayout(l: Layout, a: nat, len: nat, end: nat): Layout {
    if NewEnd(a, len) < end then Raised(l, a, len) else l
  }

  function Raised(l: Layout, a: nat, len: nat): Layout {
    l.(brk := NewEnd(a, len), chunks := l.chunks[a := Chunk(len, false)])
  }

  /** Moving the payload to a chunk from malloc. */
  ghost function MoveLayout(l: Layout, a: nat, len: nat, end: nat): Layout
    requires l.Sound() && l.start > 0 && a in l.Live() && l.chunks[a].size >= NODE - HEADER
  {
    MallocSound(l, len, end);
    if MallocPlace(l, len, end).chunk == 0 then l else Release(MallocLayout(l, len, end), a)
  }

  /** The layout after realloc. */
  ghost function ReallocLayout(l: Layout, a: nat, len: nat, end: nat): Layout
    requires l.Sound() && l.start > 0 && a in l.Live() && l.chunks[a].size >= NODE - HEADER
  {
    var s := l.chunks[a].size;
    var k := Above(l, a);
    if NewEnd(a, len) < a then l
    else if len <= s then ShrinkLayout(l, a, len)
    else if k < |l.free| && l.Known(k) && l.SizeAt(k) + HEADER >= len - s then GrowLayout(l, a, k, len)
    else if End(l.chunks, a) == l.brk && BestFit(Sizes(l), len) == |l.free| then TopLayout(l, a, len, end)
    else MoveLayout(l, a, len, end)
  }

  function ShrinkPlace(s: nat, a: nat, len: nat): Place {
    Place(a, if s <= NODE || len > s - NODE then s else len)
  }

  /** `s` and `t` are the sizes of the chunk and of the free chunk above it. */
  function GrowPlace(s: nat, t: nat, a: nat, len: nat): Place {
    Place(a, if t + HEADER - (len - s) > NODE then len else s + HEADER + t)
  }

  function TopPlace(a: nat, len: nat, end: nat): Place {
    if NewEnd(a, len) < end then Place(a, len) else Place(0, 0)
  }

  /** Where realloc serves the request. */
  function ReallocPlace(l: Layout, a: nat, len: nat, end: nat): Place
    requires a in l.chunks && forall k :: 0 <= k < |l.free| ==> l.Known(k)
  {
    var s := l.chunks[a].size;
    var k := Above(l, a);
    if NewEnd(a, len) < a then Place(0, 0)
    else if len <= s then ShrinkPlace(s, a, len)
    else if k < |l.free| && l.SizeAt(k) + HEADER >= len - s then GrowPlace(s, l.SizeAt(k), a, len)
    else if End(l.chunks, a) == l.brk && BestFit(Sizes(l), len) == |l.free| then TopPlace(a, len, end)
    else MallocPlace(l, len, end)
  }

  /** A sound layout within 16-bit addresses. */
  ghost predicate WellPlaced(l: Layout) {
    l.Sound() && 0 < l.start && l.brk < WORD
  }

  /** Every live chunk has room for the link it will carry once it is free. */
  ghost predicate Freeable(l: Layout) {
    forall a :: a in l.Live() ==> l.Live()[a] >= NODE - HEADER
  }

  /** The shrink that leaves too little payload for a link. */
  predicate Starves(l: Layout, a: nat, len: nat)
    requires a in l.chunks
  {
    len < NODE - HEADER && l.chunks[a].size > NODE
  }

  /** The request that wraps past the top of the address space and is not refused. */
  predicate Wraps(l: Layout, a: nat, len: nat, end: nat)
    requires a in l.chunks
  {
    len >= WORD - HEADER && End(l.chunks, a) == l.brk && NewEnd(a, len) < end
  }

  /** `m` is `l` with the block `a` replaced by the one at `p`, which holds `len` bytes and is `a`
      itself or was not live before; after a failure nothing has changed. */
  ghost predicate Resized(l: Layout, m: Layout, a: nat, p: Place, len: nat, end: nat) {
    && m.Sound() && m.start == l.start && (m.brk <= l.brk || m.brk <= end)
    && m.Live() == Replaced(l.Live(), a, p)
    && (if p.chunk == 0 then m == l else len <= p.size && (p.chunk == a || p.chunk !in l.Live()))
  }

  lemma ShrinkSound(l: Layout, a: nat, len: nat, end: nat)
    requires l.Sound() && l.start > 0 && a in l.Live() && len <= l.chunks[a].size
    ensures Resized(l, ShrinkLayout(l, a, len), a, ShrinkPlace(l.chunks[a].size, a, len), len, end)
  {
    if len + NODE <= l.chunks[a].size && l.chunks[a].size > NODE {
      CutSound(l, a, len);
    }
  }

  lemma GrowSound(l: Layout, a: nat, k: nat, len: nat, end: nat)
    requires l.Sound() && l.start > 0 && a in l.Live() && k < |l.free| && l.free[k] == End(l.chunks, a)
    requires l.chunks[a].size < len <= l.chunks[a].size + HEADER + l.SizeAt(k)
    ensures Resized(l, GrowLayout(l, a, k, len), a, GrowPlace(l.chunks[a].size, l.SizeAt(k), a, len), len, end)
  {
    if l.SizeAt(k) + HEADER - (len - l.chunks[a].size) > NODE {
      NibbleSound(l, a, k, len);
    } else {
      SwallowSound(l, a, k);
    }
  }

  lemma TopSound(l: Layout, a: nat, len: nat, end: nat)
    requires WellPlaced(l) && a in l.Live()
    requires l.chunks[a].size < len < WORD && End(l.chunks, a) == l.brk && NewEnd(a, len) >= a
    ensures if Wraps(l, a, len, end) then !TopLayout(l, a, len, end).Sound()
            else Resized(l, TopLayout(l, a, len, end), a, TopPlace(a, len, end), len, end)
  {
    NewEndIs(a, len);
    if NewEnd(a, len) < end && a + HEADER + len < WORD {
      StretchSound(l, a, len);
      assert TopLayout(l, a, len, end) == Stretch(l, a, len);
    }
  }

  lemma MoveSound(l: Layout, a: nat, len: nat, end: nat)
    requires l.Sound() && l.start > 0 && a in l.Live() && l.chunks[a].size >= NODE - HEADER
    ensures Resized(l, MoveLayout(l, a, len, end), a, MallocPlace(l, len, end), len, end)
  {
    MallocSound(l, len, end);
    var p := MallocPlace(l, len, end);
    if p.chunk != 0 {
      Moved(l.Live(), a, p);
    }
  }

  lemma Moved(live: map<nat, nat>, a: nat, p: Place)
    requires p.chunk != 0 && p.chunk != a
    ensures Added(live, p) - {a} == Replaced(live, a, p)
  {
  }

  /** The tiling and the free list survive realloc exactly when the request does not wrap; then
      the old block is intact after a failure and no other live block is touched. */
  lemma ReallocSound(l: Layout, a: nat, len: nat, end: nat)
    requires WellPlaced(l) && len < WORD && a in l.Live() && l.chunks[a].size >= NODE - HEADER
    ensures forall k :: 0 <= k < |l.free| ==> l.Known(k)
    ensures ReallocLayout(l, a, len, end).Sound() <==> !Wraps(l, a, len, end)
    ensures !Wraps(l, a, len, end) ==>
              Resized(l, ReallocLayout(l, a, len, end), a, ReallocPlace(l, a, len, end), len, end)
  {
    KnownAll(l);
    var s, k := l.chunks[a].size, Above(l, a);
    if NewEnd(a, len) < a {
    } else if len <= s {
      ShrinkSound(l, a, len, end);
    } else if k < |l.free| && l.SizeAt(k) + HEADER >= len - s {
      GrowSound(l, a, k, len, end);
    } else if End(l.chunks, a) == l.brk && BestFit(Sizes(l), len) == |l.free| {
      TopSound(l, a, len, end);
    } else {
      MoveSound(l, a, len, end);
    }
  }

  /** Chunk `e` is free and together with the `s` bytes below it holds `len` bytes. */
  ghost predicate Room(l: Layout, e: nat, s: nat, len: nat) {
    e in l.chunks && l.chunks[e].free && len <= s + HEADER + l.chunks[e].size
  }

  /** The entry found above a chunk is the free chunk that touches it. */
  lemma AboveIs(l: Layout, a: nat)
    requires l.Sound() && a in l.chunks
    ensures var e, k := End(l.chunks, a), Above(l, a);
            if e in l.chunks && l.chunks[e].free then k < |l.free| && l.free[k] == e else k == |l.free|
  {
    var e := End(l.chunks, a);
    if e in l.chunks && l.chunks[e].free {
      var i := FreeRank(l, e);
    }
  }

  /** Where a block is resized. It stays where it is exactly when it does not grow, when the free chunk
      above it has the room, or when it is the topmost, no free chunk holds the request and the heap
      end is above the new end. A block that cannot stay is served like a request to malloc, except
      that the request fails when the block is the topmost and no free chunk holds it, and when
      its end would wrap. */
  lemma ReallocServes(l: Layout, a: nat, len: nat, end: nat)
    requires WellPlaced(l) && len < WORD && end < WORD && a in l.Live() && l.chunks[a].size >= NODE - HEADER
    requires !Wraps(l, a, len, end)
    ensures forall k :: 0 <= k < |l.free| ==> l.Known(k)
    ensures var s, e, p := l.chunks[a].size, End(l.chunks, a), ReallocPlace(l, a, len, end);
            var top, past := e == l.brk && NoneHolds(l, len), a + HEADER + len;
            && (p.chunk == a <==> len <= s || Room(l, e, s, len) || (top && past < end))
            && (p.chunk != a ==>
                  p == if top || (WORD <= past && len < WORD - HEADER) then Place(0, 0) else MallocPlace(l, len, end))
  {
    NewEndIs(a, len);
    FitIsBest(l, len);
    AboveIs(l, a);
    var s, e := l.chunks[a].size, End(l.chunks, a);
    if s < len && !Room(l, e, s, len) && !(e == l.brk && NoneHolds(l, len)) {
      MallocElsewhere(l, a, len, end);
    }
  }

  /** How much a block that stays where it is has afterwards: `len` bytes, except that it gives nothing
      back, or takes the whole chunk above it, when what is left could not be a chunk. */
  lemma ReallocSizes(l: Layout, a: nat, len: nat, end: nat)
    requires WellPlaced(l) && len < WORD && a in l.Live() && l.chunks[a].size >= NODE - HEADER
    ensures forall k :: 0 <= k < |l.free| ==> l.Known(k)
    ensures var s, e, p := l.chunks[a].size, End(l.chunks, a), ReallocPlace(l, a, len, end);
            p.chunk == a ==>
              p.size ==
              if len <= s then (if NODE < s && len + NODE <= s then len else s)
              else if Room(l, e, s, len) && s + HEADER + l.chunks[e].size <= len + NODE then s + HEADER + l.chunks[e].size
              else len
  {
    KnownAll(l);
    AboveIs(l, a);
    MallocElsewhere(l, a, len, end);
  }

  /** What malloc would return is not the live block `a`, and wastes less than a chunk. */
  lemma MallocElsewhere(l: Layout, a: nat, len: nat, end: nat)
    requires l.Sound() && l.start > 0 && a in l.Live()
    ensures forall k :: 0 <= k < |l.free| ==> l.Known(k)
    ensures var p := MallocPlace(l, len, end); p.chunk != a && (p.chunk != 0 ==> Request(len) <= p.size < Request(len) + NODE)
  {
    MallocSound(l, len, end);
  }

  /** A block returned by realloc holds the request, with at most a header and a link more. */
  lemma ReallocTight(l: Layout, a: nat, len: nat, end: nat)
    requires WellPlaced(l) && len < WORD && a in l.Live() && l.chunks[a].size >= NODE - HEADER
    ensures forall k :: 0 <= k < |l.free| ==> l.Known(k)
    ensures var p := ReallocPlace(l, a, len, end);
            p.chunk != 0 ==> len <= p.size <= len + NODE
  {
    MallocElsewhere(l, a, len, end);
    PlaceTight(l.chunks[a].size, if Above(l, a) < |l.free| then l.SizeAt(Above(l, a)) else 0, a, len, end);
  }

  /** The bounds where the block stays; `t` is the size of the free chunk above it. */
  lemma PlaceTight(s: nat, t: nat, a: nat, len: nat, end: nat)
    ensures len <= s ==> len <= ShrinkPlace(s, a, len).size <= len + NODE
    ensures s < len <= s + HEADER + t ==> len <= GrowPlace(s, t, a, len).size <= len + NODE
    ensures TopPlace(a, len, end).chunk != 0 ==> TopPlace(a, len, end).size == len
  {
  }

  /** From a sound heap whose blocks can all be freed, realloc leads to another such heap exactly
      when it neither wraps past the top of memory nor shrinks below the room for a link. */
  lemma ReallocKeeps(l: Layout, a: nat, len: nat, end: nat)
    requires WellPlaced(l) && len < WORD && a in l.Live() && Freeable(l)
    ensures var m := ReallocLayout(l, a, len, end);
            m.Sound() && Freeable(m) <==> !Wraps(l, a, len, end) && !Starves(l, a, len)
  {
    ReallocSound(l, a, len, end);
    var m, p := ReallocLayout(l, a, len, end), ReallocPlace(l, a, len, end);
    assert l.chunks[a].size == l.Live()[a] >= NODE - HEADER;
    if !Wraps(l, a, len, end) && p.chunk != 0 {
      assert m.Live()[p.chunk] == p.size;
    }
  }

  /** A block of two bytes at the top of the heap, resized to 0xFFFE bytes: the new end is below the
      heap end because it has wrapped. */
  lemma ReallocWraps(l: Layout)
    requires l == Layout(512, 516, map[512 := Chunk(2, false)], [])
    ensures WellPlaced(l) && Freeable(l) && Wraps(l, 512, 0xFFFE, 1024)
    ensures ReallocLayout(l, 512, 0xFFFE, 1024).brk == 512 && !ReallocLayout(l, 512, 0xFFFE, 1024).Sound()
  {
    NewEndIs(512, 0xFFFE);
    ReallocSound(l, 512, 0xFFFE, 1024);
  }

  /** A block of eight bytes resized to none: what remains cannot carry a link. */
  lemma ReallocStarves(l: Layout)
    requires l == Layout(512, 522, map[512 := Chunk(8, false)], [])
    ensures WellPlaced(l) && Freeable(l) && Starves(l, 512, 0)
    ensures ReallocLayout(l, 512, 0, 1024).Live() == map[512 := 0] && !Freeable(ReallocLayout(l, 512, 0, 1024))
  {
    NewEndIs(512, 0);
    ReallocSound(l, 512, 0, 1024);
    ReallocKeeps(l, 512, 0, 1024);
  }

  // ---------------------------------------------------------------- every run

  datatype Op =
    | Malloc(len: nat, end: nat)
    | Free(chunk: nat)
    | Realloc(chunk: nat, len: nat, end: nat)

  /** Callers free and resize only blocks they own, and the heap end is an address. */
  ghost predicate Legal(l: Layout, op: Op) {
    match op
    case Malloc(len, end) => len < WORD && end < WORD
    case Free(a) => a in l.Live()
    case Realloc(a, len, end) =>
      len < WORD && end < WORD && a in l.Live() && !Wraps(l, a, len, end) && !Starves(l, a, len)
  }

  ghost predicate Healthy(l: Layout) {
    WellPlaced(l) && Freeable(l)
  }

  ghost function Step(l: Layout, op: Op): Layout
    requires Healthy(l) && Legal(l, op)
  {
    match op
    case Malloc(len, end) => MallocLayout(l, len, end)
    case Free(a) => Release(l, a)
    case Realloc(a, len, end) => ReallocLayout(l, a, len, end)
  }

  lemma StepHealthy(l: Layout, op: Op)
    requires Healthy(l) && Legal(l, op)
    ensures Healthy(Step(l, op)) && Step(l, op).start == l.start
  {
    match op
    case Malloc(len, end) =>
      MallocSound(l, len, end);
    case Free(a) =>
    case Realloc(a, len, end) =>
      ReallocSound(l, a, len, end);
      ReallocKeeps(l, a, len, end);
  }

  /** What a step does to the live chunks: malloc adds one or none, free takes one away, and realloc replaces one
      or leaves everything as it is. */
  lemma StepLive(l: Layout, op: Op)
    requires Healthy(l) && Legal(l, op)
    ensures var m := Step(l, op);
            match op
            case Malloc(len, end) => m == l || exists p: Place :: Fresh(l, p, Request(len)) && m.Live() == l.Live()[p.chunk := p.size]
            case Free(a) => m.Live() == l.Live() - {a}
            case Realloc(a, len, end) => m == l || exists p: Place :: len <= p.size <= len + NODE && Moves(l, m, a, p)
  {
    match op
    case Malloc(len, end) =>
      MallocSound(l, len, end);
      assert MallocPlace(l, len, end).chunk != 0 ==> Fresh(l, MallocPlace(l, len, end), Request(len));
    case Free(a) =>
    case Realloc(a, len, end) =>
      ReallocSound(l, a, len, end);
      ReallocTight(l, a, len, end);
      ReallocMoves(l, ReallocLayout(l, a, len, end), a, ReallocPlace(l, a, len, end), len, end);
  }

  /** The live chunk `a` has become the one at `p`, in its place or in a new one. */
  ghost predicate Moves(l: Layout, m: Layout, a: nat, p: Place) {
    (p.chunk == a || p.chunk !in l.Live()) && m.Live() == (l.Live() - {a})[p.chunk := p.size]
  }

  lemma ReallocMoves(l: Layout, m: Layout, a: nat, p: Place, len: nat, end: nat)
    requires Resized(l, m, a, p, len, end)
    ensures p.chunk != 0 ==> Moves(l, m, a, p)
  {
  }

  ghost predicate Next(l: Layout, op: Op, l': Layout) {
    Legal(l, op) && (Healthy(l) ==> l' == Step(l, op))
  }

  /** `trace[0]`, `trace[1]`, ... are the layouts a run of `ops` goes through. */
  ghost predicate Run(trace: seq<Layout>, ops: seq<Op>) {
    && |trace| == |ops| + 1
    && Healthy(trace[0])
    && forall i :: 0 <= i < |ops| ==> Next(trace[i], ops[i], trace[i + 1])
  }

  lemma {:induction false} RunHealthy(trace: seq<Layout>, ops: seq<Op>, i: nat)
    requires Run(trace, ops) && i < |trace|
    ensures Healthy(trace[i]) && trace[i].start == trace[0].start
  {
    if i > 0 {
      RunHealthy(trace, ops, i - 1);
      assert Next(trace[i - 1], ops[i - 1], trace[(i - 1) + 1]);
      StepHealthy(trace[i - 1], ops[i - 1]);
    }
  }

  /** Two runs over the same heap that leave the same blocks allocated leave the same heap. */
  lemma HistoryIndependent(t: seq<Layout>, ops: seq<Op>, u: seq<Layout>, ops': seq<Op>)
    requires Run(t, ops) && Run(u, ops') && t[0].start == u[0].start
    requires t[|ops|].Live() == u[|ops'|].Live()
    ensures t[|ops|] == u[|ops'|]
  {
    RunHealthy(t, ops, |ops|);
    RunHealthy(u, ops', |ops'|);
    Canonical(t[|ops|], u[|ops'|]);
  }

  // ---------------------------------------------------------------- conservation

  /** The chunk addresses met when stepping over the headers from `x`. */
  function Walk(c: Chunks, x: nat, brk: nat): seq<nat>
    decreases brk - x
  {
    if x in c && End(c, x) <= brk then [x] + Walk(c, End(c, x), brk) else []
  }

  function Span(c: Chunks, w: seq<nat>): nat
    requires forall a :: a in w ==> a in c
  {
    if |w| == 0 then 0 else HEADER + c[w[0]].size + Span(c, w[1..])
  }

  lemma {:induction false} WalkFrom(c: Chunks, start: nat, brk: nat, x: nat)
    requires Tiled(c, start, brk) && Boundary(c, brk, x) && start <= x <= brk
    ensures forall a :: a in Walk(c, x, brk) <==> a in c && x <= a
    ensures Sorted(Walk(c, x, brk)) && Span(c, Walk(c, x, brk)) == brk - x
    decreases brk - x
  {
    if x in c {
      var e := End(c, x);
      assert Followed(c, brk, x);
      ClearOf(c, start, brk, x);
      WalkFrom(c, start, brk, e);
      var w := Walk(c, e, brk);
      assert Walk(c, x, brk) == [x] + w && ([x] + w)[1..] == w;
      HeadBelow(x, w);
      forall a ensures a in [x] + w <==> a in c && x <= a {
      }
    }
  }

  lemma HeadBelow(x: nat, w: seq<nat>)
    requires Sorted(w) && forall a :: a in w ==> x < a
    ensures Sorted([x] + w) && forall a :: a in [x] + w <==> a == x || a in w
  {
    forall i | 0 <= i < |w| ensures x < w[i] {
      assert w[i] in w;
    }
  }

  /** Walking the headers from the heap start meets every chunk once, in ascending order, and the
      bytes of all headers and payloads add up to the distance from the heap start to the break. */
  lemma WalkVisitsAll(l: Layout)
    requires l.Sound()
    ensures forall a :: a in Walk(l.chunks, l.start, l.brk) <==> a in l.chunks
    ensures Sorted(Walk(l.chunks, l.start, l.brk))
    ensures Span(l.chunks, Walk(l.chunks, l.start, l.brk)) == l.brk - l.start
  {
    WalkFrom(l.chunks, l.start, l.brk, l.start);
  }

  /** Payload bytes of the entries of the free list from entry `i` on. */
  function FreeBytes(l: Layout, i: nat): nat
    requires i <= |l.free| && forall k :: 0 <= k < |l.free| ==> l.Known(k)
    decreases |l.free| - i
  {
    if i == |l.free| then 0 else l.SizeAt(i) + FreeBytes(l, i + 1)
  }

  /** What callers and the allocator itself hold of the chunks in `w`: all headers and the payloads
      of live chunks. */
  function Occupied(c: Chunks, w: seq<nat>): nat
    requires forall a :: a in w ==> a in c
  {
    if |w| == 0 then 0
    else HEADER + (if c[w[0]].free then 0 else c[w[0]].size) + Occupied(c, w[1..])
  }

  lemma {:induction false} OccupiedFrom(l: Layout, x: nat, i: nat)
    requires l.Sound() && Boundary(l.chunks, l.brk, x) && l.start <= x <= l.brk && i == Rank(l.free, x)
    requires forall k :: 0 <= k < |l.free| ==> l.Known(k)
    requires forall a :: a in Walk(l.chunks, x, l.brk) ==> a in l.chunks
    ensures Occupied(l.chunks, Walk(l.chunks, x, l.brk)) + FreeBytes(l, i) == l.brk - x
    decreases l.brk - x
  {
    assert i < |l.free| ==> l.free[i] in l.free;
    if x in l.chunks {
      var e := End(l.chunks, x);
      assert Followed(l.chunks, l.brk, x);
      var w := Walk(l.chunks, e, l.brk);
      assert Walk(l.chunks, x, l.brk) == [x] + w && ([x] + w)[1..] == w;
      forall a | a in w ensures a in l.chunks {
        assert a in [x] + w;
      }
      NextRank(l, x, i);
      OccupiedFrom(l, e, if l.chunks[x].free then i + 1 else i);
    }
  }

  /** Every chunk above `x` lies behind its end. */
  lemma RankAbove(l: Layout, x: nat, i: nat)
    requires Disjoint(l.chunks, l.start, l.brk) && Listed(l.chunks, l.free) && x in l.chunks && i <= |l.free|
    requires (forall j :: 0 <= j < i ==> l.free[j] <= x) && (i < |l.free| ==> x < l.free[i])
    ensures Rank(l.free, End(l.chunks, x)) == i
  {
    if i < |l.free| {
      assert l.free[i] in l.free;
      assert Clear(l.chunks, x, l.free[i]);
    }
    RankIs(l.free, End(l.chunks, x), i);
  }

  lemma FreeRank(l: Layout, x: nat) returns (i: nat)
    requires Disjoint(l.chunks, l.start, l.brk) && Listed(l.chunks, l.free) && x in l.chunks && l.chunks[x].free
    ensures i < |l.free| && l.free[i] == x && i == Rank(l.free, x) && Rank(l.free, End(l.chunks, x)) == i + 1
  {
    i :| 0 <= i < |l.free| && l.free[i] == x;
    RankIs(l.free, x, i);
    RankAbove(l, x, i + 1);
  }

  lemma LiveRank(l: Layout, x: nat)
    requires Disjoint(l.chunks, l.start, l.brk) && Listed(l.chunks, l.free) && x in l.Live()
    ensures Rank(l.free, End(l.chunks, x)) == Rank(l.free, x)
  {
    var i := Rank(l.free, x);
    if i < |l.free| {
      assert l.free[i] in l.free && l.free[i] != x;
    }
    RankAbove(l, x, i);
  }

  /** Stepping over chunk `x` passes one entry of the free list if `x` is free, none otherwise. */
  lemma NextRank(l: Layout, x: nat, i: nat)
    requires Disjoint(l.chunks, l.start, l.brk) && Listed(l.chunks, l.free) && x in l.chunks && i == Rank(l.free, x)
    ensures l.chunks[x].free ==> i < |l.free| && l.free[i] == x
    ensures Rank(l.free, End(l.chunks, x)) == if l.chunks[x].free then i + 1 else i
  {
    if l.chunks[x].free {
      var j := FreeRank(l, x);
    } else {
      LiveRank(l, x);
    }
  }

  /** heap_stats counts every byte once: what it reports as free is the room above the break and the
      payloads of free chunks, so what it reports as used is exactly what is occupied. */
  lemma StatsCountOnce(l: Layout)
    requires l.Sound() && forall k :: 0 <= k < |l.free| ==> l.Known(k)
    requires forall a :: a in Walk(l.chunks, l.start, l.brk) ==> a in l.chunks
    ensures Occupied(l.chunks, Walk(l.chunks, l.start, l.brk)) + FreeBytes(l, 0) == l.brk - l.start
  {
    assert |l.free| > 0 ==> l.free[0] in l.free;
    RankIs(l.free, l.start, 0);
    OccupiedFrom(l, l.start, 0);
  }
}
