/** The circular index buffer: two free-running 16-bit counters and a mask turn into positions of a
    buffer whose size is a power of two. */
module CircularIndex {
  import opened Memory
  import opened Remainders
  import opened Windows

  // ---------------------------------------------------------------- masks

  /** x & y */
  function And(x: nat, y: nat): nat {
    if x == 0 || y == 0 then 0 else (if x % 2 == 1 && y % 2 == 1 then 1 else 0) + 2 * And(x / 2, y / 2)
  }

  function Pow2(k: nat): (p: nat)
    ensures p > 0
  {
    if k == 0 then 1 else 2 * Pow2(k - 1)
  }

  lemma HalfMod(x: nat, m: nat)
    requires m > 0
    ensures x % 2 + 2 * (x / 2 % m) == x % (2 * m)
  {
    var y := x / 2;
    var q, r := y / m, y % m;
    assert y == q * m + r;
    assert x == q * (2 * m) + (x % 2 + 2 * r);
    DivIs(x, q, x % 2 + 2 * r, 2 * m);
  }

  /** Masking with a power of two less one is taking the remainder. */
  lemma {:induction false} AndMask(x: nat, k: nat)
    ensures And(x, Pow2(k) - 1) == x % Pow2(k)
    decreases k
  {
    if k > 0 {
      AndMask(x / 2, k - 1);
      var m := Pow2(k) - 1;
      assert m % 2 == 1 && m / 2 == Pow2(k - 1) - 1;
      HalfMod(x, Pow2(k - 1));
    }
  }

  lemma {:induction false} AndSelf(x: nat)
    ensures And(x, x) == x
  {
    if x > 0 {
      AndSelf(x / 2);
    }
  }

  /** The test of cib_init: a number that shares no bit with its predecessor is a power of two. */
  lemma {:induction false} SharesNoBit(n: nat) returns (k: nat)
    requires n > 0 && And(n, n - 1) == 0
    ensures Pow2(k) == n
  {
    if n % 2 == 1 {
      if n > 1 {
        assert (n - 1) / 2 == n / 2 && (n - 1) % 2 == 0;
        AndSelf(n / 2);
        assert false;
      }
      k := 0;
    } else {
      assert (n - 1) / 2 == n / 2 - 1;
      k := SharesNoBit(n / 2);
      k := k + 1;
    }
  }

  // ---------------------------------------------------------------- counters

  /** Reading a word as a signed number. */
  function Signed(x: nat): int {
    if x < WORD / 2 then x else x - WORD
  }

  const MAX_SIZE := 0x4000

  lemma {:induction false} PowersDivide(k: nat, n: nat)
    requires k <= n
    ensures Pow2(n) == Pow2(n - k) * Pow2(k)
    decreases n
  {
    if k < n {
      PowersDivide(k, n - 1);
      assert Pow2(n) == 2 * (Pow2(n - 1 - k) * Pow2(k));
    }
  }

  lemma {:induction false} PowersGrow(k: nat, n: nat)
    requires k <= n
    ensures Pow2(k) <= Pow2(n)
  {
    if k < n {
      PowersGrow(k, n - 1);
    }
  }

  /** A wrapped counter stands for the same position. */
  lemma WrappedPosition(x: nat, k: nat)
    requires Pow2(k) <= MAX_SIZE
    ensures x % WORD % Pow2(k) == x % Pow2(k)
  {
    assert Pow2(15) == 0x8000;
    if k > 14 {
      PowersGrow(15, k);
    }
    PowersDivide(k, 16);
    assert Pow2(16) == WORD;
    ModMod(x, Pow2(16 - k), Pow2(k));
  }

  /** The position `n` places behind that of counter `x`. */
  lemma PositionPlus(x: nat, n: nat, k: nat)
    requires Pow2(k) <= MAX_SIZE && n < Pow2(k)
    ensures (x + n) % WORD % Pow2(k) == Wrap(x % Pow2(k) + n, Pow2(k))
  {
    WrappedPosition(x + n, k);
    NextTurn(x, n, Pow2(k));
  }

  lemma NextTurn(x: nat, n: nat, size: nat)
    requires n < size
    ensures (x + n) % size == Wrap(x % size + n, size)
  {
    var q, r := x / size, x % size;
    assert x == q * size + r && (q + 1) * size == q * size + size;
    if r + n < size {
      DivIs(x + n, q, r + n, size);
    } else {
      DivIs(x + n, q + 1, r + n - size, size);
    }
  }

  /** A counter, one further. */
  function Next(x: nat): (y: nat)
    ensures y < WORD
  {
    (x + 1) % WORD
  }

  /** How far the write counter is ahead of the read counter, whether or not they have wrapped. */
  function Ahead(w: nat, r: nat): (n: nat)
    ensures n < WORD
  {
    (w - r) % WORD
  }

  /** How the difference changes when one of the counters is advanced. */
  lemma Consumed(w: nat, r: nat)
    requires w < WORD && r < WORD && Ahead(w, r) > 0
    ensures Ahead(w, Next(r)) == Ahead(w, r) - 1
  {
  }

  lemma Produced(w: nat, r: nat)
    requires w < WORD && r < WORD && Ahead(w, r) < WORD - 1
    ensures Ahead(Next(w), r) == Ahead(w, r) + 1
  {
  }

  lemma WriteIs(w: nat, r: nat)
    requires w < WORD && r < WORD
    ensures (r + Ahead(w, r)) % WORD == w
  {
  }

  /** A counter's place in a buffer of `size` elements. */
  function Place(x: nat, size: nat): (i: nat)
    requires size > 0
    ensures i < size
  {
    x % size
  }

  /** The mask of a buffer of `size` elements. */
  function Mask(size: nat): (m: nat)
    ensures m < WORD
  {
    (size - 1) % WORD
  }

  /** The sizes cib_init admits. */
  ghost predicate Size(n: nat) {
    n <= MAX_SIZE && (n > 0 ==> And(n, n - 1) == 0)
  }

  /** Masking a counter gives its place in the buffer. */
  lemma Masked(x: nat, size: nat)
    requires Size(size) && size > 0
    ensures And(x, Mask(size)) == Place(x, size)
  {
    SmallMod(size - 1, WORD);
    var k := SharesNoBit(size);
    AndMask(x, k);
  }

  lemma PlaceBehind(x: nat, n: nat, size: nat)
    requires Size(size) && n < size
    ensures (x + n) % WORD % size == Wrap(Place(x, size) + n, size)
  {
    var k := SharesNoBit(size);
    PositionPlus(x, n, k);
  }

  lemma PlaceNext(x: nat, size: nat)
    requires Size(size) && size > 0
    ensures Place(Next(x), size) == Wrap(Place(x, size) + 1, size)
  {
    if size > 1 {
      PlaceBehind(x, 1, size);
    }
  }

  lemma PlaceWrite(w: nat, r: nat, size: nat)
    requires Size(size) && w < WORD && r < WORD && Ahead(w, r) < size
    ensures Place(w, size) == Wrap(Place(r, size) + Ahead(w, r), size)
  {
    WriteIs(w, r);
    PlaceBehind(r, Ahead(w, r), size);
  }

  lemma FullWhen(n: nat, size: nat)
    requires n <= size <= MAX_SIZE
    ensures Signed(n) > Signed(Mask(size)) <==> n == size
  {
  }

  /** cib_t for a buffer of `size` elements */
  class Cib {
    var readCount: nat
    var writeCount: nat
    var mask: nat
    ghost const size: nat

    ghost predicate Valid()
      reads this
    {
      readCount < WORD && writeCount < WORD && Size(size) && mask == Mask(size) && Avail() <= size
    }

    /** The position of the oldest element. */
    ghost function First(): (i: nat)
      reads this
      requires size > 0
      ensures i < size
    {
      Place(readCount, size)
    }

    /** cib_init; `n` has to pass the test for powers of two */
    constructor (n: nat)
      requires Size(n)
      ensures Valid() && size == n && Avail() == 0 && (n > 0 ==> First() == 0)
    {
      readCount, writeCount, mask := 0, 0, Mask(n);
      size := n;
    }

    /** cib_avail: the difference of the counters */
    function Avail(): (n: nat)
      reads this
      ensures n < WORD
    {
      Ahead(writeCount, readCount)
    }

    /** cib_full, by a signed comparison */
    predicate Full()
      reads this
    {
      Signed(Avail()) > Signed(mask)
    }

    lemma FullMeans()
      requires Valid()
      ensures Full() <==> Avail() == size
    {
      FullWhen(Avail(), size);
    }

    /** cib_get: the position of the oldest element, which is given up; -1 when there is none */
    method Get() returns (i: int)
      requires Valid()
      modifies this`readCount
      ensures Valid()
      ensures old(Avail()) == 0 ==> i == -1 && readCount == old(readCount)
      ensures old(Avail()) > 0 ==> i == old(First()) && Avail() == old(Avail()) - 1 && First() == Wrap(old(First()) + 1, size)
    {
      if Avail() > 0 {
        i := GetUnsafe();
      } else {
        i := -1;
      }
    }

    /** cib_get_unsafe */
    method GetUnsafe() returns (i: int)
      requires Valid() && Avail() > 0
      modifies this`readCount
      ensures Valid() && Avail() == old(Avail()) - 1
      ensures i == old(First()) && First() == Wrap(old(First()) + 1, size)
    {
      Masked(readCount, size);
      PlaceNext(readCount, size);
      Consumed(writeCount, readCount);
      i := And(readCount, mask);
      readCount := Next(readCount);
    }

    /** cib_put: the first free position, which is taken; -1 when there is none */
    method PutIndex() returns (i: int)
      requires Valid()
      modifies this`writeCount
      ensures Valid()
      ensures old(Avail()) == size ==> i == -1 && writeCount == old(writeCount)
      ensures old(Avail()) < size ==>
                i == Wrap(First() + old(Avail()), size) && Avail() == old(Avail()) + 1 && First() == old(First())
    {
      FullMeans();
      if Signed(Avail()) <= Signed(mask) {
        i := PutUnsafe();
      } else {
        i := -1;
      }
    }

    /** cib_put_unsafe */
    method PutUnsafe() returns (i: int)
      requires Valid() && Avail() < size
      modifies this`writeCount
      ensures Valid() && Avail() == old(Avail()) + 1 && First() == old(First())
      ensures i == Wrap(First() + old(Avail()), size)
    {
      Masked(writeCount, size);
      PlaceWrite(writeCount, readCount, size);
      Produced(writeCount, readCount);
      i := And(writeCount, mask);
      writeCount := Next(writeCount);
    }
  }
}
