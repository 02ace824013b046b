/** The byte ring buffer: a bounded queue of bytes in a circular array. */
module RingBuffer {
  import opened Memory
  import opened Windows

  /** One single read after the other, at most `n`, from a queue `s`: what is read and what remains. */
  function SingleGets(s: seq<byte>, n: nat): (seq<byte>, seq<byte>)
    decreases n
  {
    if n == 0 || s == [] then ([], s)
    else
      var (out, rest) := SingleGets(s[1..], n - 1);
      ([s[0]] + out, rest)
  }

  lemma {:induction false} SingleGetsTake(s: seq<byte>, n: nat)
    ensures var k := if n < |s| then n else |s|;
            SingleGets(s, n) == (s[..k], s[k..])
    decreases n
  {
    if n > 0 && s != [] {
      SingleGetsTake(s[1..], n - 1);
      var k := if n < |s| then n else |s|;
      assert s[..k] == [s[0]] + s[1..][..k - 1] && s[k..] == s[1..][k - 1..];
    }
  }

  /** memcpy */
  method Copy(dst: array<byte>, to: nat, src: array<byte>, from: nat, n: nat)
    requires to + n <= dst.Length && from + n <= src.Length && dst != src
    modifies dst
    ensures dst[to..to + n] == src[from..from + n]
    ensures dst[..to] == old(dst[..to]) && dst[to + n..] == old(dst[to + n..])
  {
    var i := 0;
    while i < n
      invariant i <= n && dst[to..to + i] == src[from..from + i]
      invariant dst[..to] == old(dst[..to]) && dst[to + n..] == old(dst[to + n..])
    {
      dst[to + i] := src[from + i];
      i := i + 1;
      assert dst[to..to + i] == dst[to..to + i - 1] + [dst[to + i - 1]];
      assert src[from..from + i] == src[from..from + i - 1] + [src[from + i - 1]];
    }
  }

  /** ringbuffer_t */
  class Buffer {
    const buf: array<byte>
    var start: nat
    var avail: nat

    /** Up to half the word size, so that `start + avail` does not wrap; `start` may be one past the array. */
    ghost predicate Valid()
      reads this, buf
    {
      0 < buf.Length <= WORD / 2 && start <= buf.Length && avail <= buf.Length
    }

    /** `start` is a place of the array, so that a single byte can be read. */
    predicate InPlace()
      reads this
    {
      start < buf.Length
    }

    /** One past the array counts as its beginning. */
    ghost function Contents(): (s: seq<byte>)
      reads this, buf
      requires Valid()
      ensures |s| == avail
    {
      Window(buf[..], Wrap(start, buf.Length), avail)
    }

    constructor (buffer: array<byte>)
      requires 0 < buffer.Length <= WORD / 2
      ensures Valid() && InPlace() && buf == buffer && start == 0 && Contents() == []
    {
      buf, start, avail := buffer, 0, 0;
    }

    predicate Empty()
      reads this
    {
      avail == 0
    }

    predicate Full()
      reads this
    {
      avail == buf.Length
    }

    method AddTail(c: byte)
      requires Valid() && !Full()
      modifies this`avail, buf
      ensures Valid() && Contents() == old(Contents()) + [c]
    {
      ghost var b, first := buf[..], Wrap(start, buf.Length);
      var pos := (start + avail) % WORD;
      avail := avail + 1;
      if pos >= buf.Length {
        pos := pos - buf.Length;
      }
      WindowPush(b, first, avail - 1, c);
      assert pos == Wrap(first + avail - 1, buf.Length);
      buf[pos] := c;
      assert buf[..] == b[pos := c];
    }

    /** A read at `start`, which has to be in the array. */
    method GetHead() returns (result: byte)
      requires Valid() && InPlace() && !Empty()
      modifies this`start, this`avail
      ensures Valid() && InPlace() && result == old(Contents())[0] && Contents() == old(Contents())[1..]
    {
      result := buf[start];
      WindowPop(buf[..], start, avail, 1);
      avail := avail - 1;
      if avail == 0 {
        start := 0;
      } else {
        start := start + 1;
        if start == buf.Length {
          start := 0;
        }
      }
    }

    /** ringbuffer_add: the longest prefix that fits is stored, nothing is overwritten */
    method Add(src: array<byte>, n: nat) returns (i: nat)
      requires Valid() && n <= src.Length && src != buf
      modifies this`avail, buf
      ensures i == if n <= buf.Length - old(avail) then n else buf.Length - old(avail)
      ensures Valid() && Contents() == old(Contents()) + src[..i]
    {
      i := 0;
      while i < n
        invariant i <= n && Valid() && Contents() == old(Contents()) + src[..i] && avail == old(avail) + i
      {
        if Full() {
          break;
        }
        AddTail(src[i]);
        i := i + 1;
        assert src[..i] == src[..i - 1] + [src[i - 1]];
      }
    }

    /** ringbuffer_add_one: when the buffer is full exactly the oldest byte goes */
    method AddOne(c: byte) returns (result: int)
      requires Valid() && (InPlace() || !Full())
      modifies this`start, this`avail, buf
      ensures Valid() && (InPlace() <==> old(InPlace()))
      ensures if old(avail) == buf.Length then result == old(Contents())[0] && Contents() == old(Contents())[1..] + [c]
              else result == -1 && Contents() == old(Contents()) + [c]
    {
      result := -1;
      if Full() {
        result := GetHead();
      }
      AddTail(c);
    }

    method GetOne() returns (result: int)
      requires Valid() && (InPlace() || Empty())
      modifies this`start, this`avail
      ensures Valid() && (InPlace() <==> old(InPlace()))
      ensures if old(avail) == 0 then result == -1 && Contents() == [] && start == old(start)
              else result == old(Contents())[0] && Contents() == old(Contents())[1..]
    {
      if !Empty() {
        result := GetHead();
      } else {
        result := -1;
      }
    }

    /** ringbuffer_get: one bulk read takes what `n` single reads take, in one piece or two. It also puts a
        `start` past the array right, unless it takes nothing or a whole array of bytes. */
    method Get(dst: array<byte>, n0: nat) returns (n: nat)
      requires Valid() && dst != buf && (n0 <= dst.Length || avail <= dst.Length)
      modifies this`start, this`avail, dst
      ensures Valid() && n == (if n0 > old(avail) then old(avail) else n0) && n <= dst.Length
      ensures (dst[..n], Contents()) == SingleGets(old(Contents()), n0)
      ensures dst[n..] == old(dst[n..])
      ensures InPlace() <==> old(InPlace()) || 0 < n < buf.Length
    {
      ghost var s, first := Contents(), Wrap(start, buf.Length);
      n := n0;
      if n > avail {
        n := avail;
      }
      SingleGetsTake(s, n0);
      CopyOut(dst, n);
      WindowPop(buf[..], first, avail, n);
      if n > 0 {
        var bytesTillEnd := buf.Length - start;
        if bytesTillEnd >= n {
          if bytesTillEnd == n {
            start := 0;
          } else {
            start := start + n;
          }
        } else {
          start := n - bytesTillEnd;
        }
        avail := avail - n;
      }
      assert Wrap(start, buf.Length) == Wrap(first + n, buf.Length);
    }

    /** The copying of ringbuffer_get: up to the end of the array, then from its beginning. */
    method CopyOut(dst: array<byte>, n: nat)
      requires Valid() && dst != buf && n <= avail && n <= dst.Length
      modifies dst
      ensures dst[..n] == Contents()[..n] && dst[n..] == old(dst[n..])
    {
      ghost var b, s := buf[..], Contents();
      WindowPieces(b, start, n);
      assert s[..n] == Window(b, Wrap(start, buf.Length), n);
      var bytesTillEnd := buf.Length - start;
      if bytesTillEnd >= n {
        Copy(dst, 0, buf, start, n);
        assert dst[..n] == dst[0..n] && dst[0 + n..] == dst[n..];
      } else {
        Copy(dst, 0, buf, start, bytesTillEnd);
        assert dst[..bytesTillEnd] == b[start..] && dst[n..] == old(dst[n..]) by {
          assert dst[..bytesTillEnd] == dst[0..bytesTillEnd];
          assert dst[n..] == dst[0 + bytesTillEnd..][n - bytesTillEnd..];
        }
        Copy(dst, bytesTillEnd, buf, 0, n - bytesTillEnd);
        assert dst[..n] == dst[..bytesTillEnd] + dst[bytesTillEnd..n];
      }
      assert buf[..] == b;
    }

    /** ringbuffer_remove. `start` is left one past the array exactly when the bytes removed end at the end
        of the array. */
    method Remove(n0: nat) returns (n: nat)
      requires Valid()
      modifies this`start, this`avail
      ensures Valid() && n == (if n0 > old(avail) then old(avail) else n0) && Contents() == old(Contents())[n..]
      ensures InPlace() <==> n0 > old(avail) || (old(start) + n0 != buf.Length && old(start) + n0 != 2 * buf.Length)
    {
      ghost var first := Wrap(start, buf.Length);
      n := n0;
      WindowPop(buf[..], first, avail, if n0 > avail then avail else n0);
      if n > avail {
        n := avail;
        start, avail := 0, 0;
      } else {
        start := start + n;
        avail := avail - n;
        if start > buf.Length {
          start := start - buf.Length;
        }
        assert Wrap(start, buf.Length) == Wrap(first + n, buf.Length);
      }
    }

    /** ringbuffer_peek_one, which reads from a copy of the record */
    method PeekOne() returns (result: int)
      requires Valid() && (InPlace() || Empty())
      ensures result == if avail == 0 then -1 else Contents()[0]
    {
      var rb := new Buffer(buf);
      rb.start, rb.avail := start, avail;
      result := rb.GetOne();
    }
  }

  /** Both bytes of a full buffer of two are removed and a byte is added: it is there, but the next single
      read would be past the array. */
  method RemoveFails(buffer: array<byte>) returns (rb: Buffer, n: nat)
    requires buffer.Length == 2
    modifies buffer
    ensures rb.buf == buffer && rb.Valid() && rb.Contents() == [7] && rb.start == 2 && !rb.InPlace()
  {
    rb := new Buffer(buffer);
    rb.AddTail(0);
    rb.AddTail(0);
    n := rb.Remove(2);
    rb.AddTail(7);
  }
}
