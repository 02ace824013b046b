/** Queues laid out in a circular array: `n` elements from position `start` on, going round at the end. */
module Windows {

  /** The position `x`, less one turn if it is past the end. */
  function Wrap(x: nat, size: nat): nat {
    if x >= size then x - size else x
  }

  function Window<T>(b: seq<T>, start: nat, n: nat): (w: seq<T>)
    requires start < |b| && n <= |b|
    ensures |w| == n && forall i :: 0 <= i < n ==> w[i] == b[Wrap(start + i, |b|)]
  {
    seq(n, i requires 0 <= i < n => b[Wrap(start + i, |b|)])
  }

  lemma WindowPush<T>(b: seq<T>, start: nat, n: nat, x: T)
    requires start < |b| && n < |b|
    ensures Window(b[Wrap(start + n, |b|) := x], start, n + 1) == Window(b, start, n) + [x]
  {
  }

  lemma WindowPop<T>(b: seq<T>, start: nat, n: nat, k: nat)
    requires start < |b| && k <= n <= |b| && Wrap(start + k, |b|) < |b|
    ensures Window(b, Wrap(start + k, |b|), n - k) == Window(b, start, n)[k..]
  {
  }

  /** A queue that does not go round is one piece, one that does is two; the end counts as the beginning. */
  lemma WindowPieces<T>(b: seq<T>, start: nat, n: nat)
    requires start <= |b| && 0 < |b| && n <= |b|
    ensures start + n <= |b| ==> Window(b, Wrap(start, |b|), n) == b[start..start + n]
    ensures start + n > |b| ==> Window(b, Wrap(start, |b|), n) == b[start..] + b[..start + n - |b|]
  {
  }
}
