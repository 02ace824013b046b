/** Sequences as lists: taking out and putting in one element, distinct elements, rotation. */
module Sequences {

  function Without<T>(s: seq<T>, k: nat): (r: seq<T>)
    requires k < |s|
    ensures |r| == |s| - 1
    ensures forall i :: 0 <= i < |r| ==> r[i] == s[if i < k then i else i + 1]
  {
    s[..k] + s[k + 1..]
  }

  function With<T>(s: seq<T>, k: nat, a: T): (r: seq<T>)
    requires k <= |s|
    ensures |r| == |s| + 1
    ensures forall i :: 0 <= i < |r| ==> r[i] == if i < k then s[i] else if i == k then a else s[i - 1]
  {
    s[..k] + [a] + s[k..]
  }

  ghost predicate Distinct<T>(s: seq<T>) {
    forall i, j :: 0 <= i < j < |s| ==> s[i] != s[j]
  }

  lemma WithDistinct<T>(l: seq<T>, k: nat, p: T)
    requires Distinct(l) && k <= |l| && forall i :: 0 <= i < |l| ==> l[i] != p
    ensures Distinct(With(l, k, p))
  {
  }

  lemma InWith(l: seq<nat>, k: nat, p: nat)
    requires k <= |l|
    ensures forall x :: x in With(l, k, p) <==> x in l || x == p
  {
    assert With(l, k, p)[k] == p;
    forall i | 0 <= i < |l| ensures l[i] in With(l, k, p) {
      assert With(l, k, p)[if i < k then i else i + 1] == l[i];
    }
  }

  lemma InWithout(l: seq<nat>, k: nat)
    requires Distinct(l) && k < |l|
    ensures forall x :: x in Without(l, k) <==> x in l && x != l[k]
  {
    forall i | 0 <= i < |l| && i != k ensures l[i] in Without(l, k) {
      assert Without(l, k)[if i < k then i else i - 1] == l[i];
    }
  }

  lemma InLast(l: seq<nat>)
    requires l != []
    ensures forall x :: x in l <==> x in l[..|l| - 1] || x == l[|l| - 1]
  {
    assert l == l[..|l| - 1] + [l[|l| - 1]];
  }

  /** The list after `k` steps of advancing. */
  function Rotated<T>(s: seq<T>, k: nat): (r: seq<T>)
    requires k <= |s|
    ensures |r| == |s| && (k < |s| ==> r[0] == s[k])
  {
    s[k..] + s[..k]
  }

  lemma RotateOnce<T>(s: seq<T>, k: nat)
    requires k < |s|
    ensures Rotated(s, k)[1..] + [Rotated(s, k)[0]] == Rotated(s, k + 1)
    ensures Rotated(s, k + 1)[0] == s[if k + 1 < |s| then k + 1 else 0]
  {
  }

  lemma RotateAll<T>(s: seq<T>)
    ensures Rotated(s, 0) == Rotated(s, |s|) == s
  {
  }
}
