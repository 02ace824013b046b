/** Strictly ascending address lists: what removing and inserting one entry does to them. */
module Ascending {
  import opened Sequences

  ghost predicate Sorted(s: seq<nat>) {
    forall i, j :: 0 <= i < j < |s| ==> s[i] < s[j]
  }

  lemma WithoutMembers(s: seq<nat>, k: nat)
    requires Sorted(s) && k < |s|
    ensures Sorted(Without(s, k))
    ensures forall x :: x in Without(s, k) <==> x in s && x != s[k]
  {
  }

  lemma ReplacedMembers(s: seq<nat>, k: nat, a: nat)
    requires Sorted(s) && k < |s| && s[k] <= a && (k + 1 < |s| ==> a < s[k + 1])
    ensures Sorted(s[k := a])
    ensures forall x :: x in s[k := a] <==> (x in s && x != s[k]) || x == a
  {
    var r := s[k := a];
    assert r[k] == a;
    forall x | x in s && x != s[k] ensures x in r {
      var i :| 0 <= i < |s| && s[i] == x;
      assert r[i] == x;
    }
  }

  /** A strictly ascending list is determined by its members. */
  lemma {:induction false} SameMembers(s: seq<nat>, t: seq<nat>)
    requires Sorted(s) && Sorted(t) && forall x :: x in s <==> x in t
    ensures s == t
  {
    assert |s| > 0 ==> s[0] in s;
    assert |t| > 0 ==> t[0] in t;
    if |s| > 0 && |t| > 0 {
      assert s[0] in t && t[0] in s;
      assert s[0] == t[0];
      forall x ensures x in s[1..] <==> x in t[1..] {
        assert x in s[1..] <==> x in s && x != s[0];
        assert x in t[1..] <==> x in t && x != t[0];
      }
      SameMembers(s[1..], t[1..]);
    }
  }

  /** The position of `a` in the ascending list `s`. */
  function Rank(s: seq<nat>, a: nat): (k: nat)
    ensures k <= |s|
    ensures forall i :: 0 <= i < k ==> s[i] < a
    ensures k < |s| ==> a <= s[k]
  {
    if |s| == 0 || a <= s[0] then 0 else 1 + Rank(s[1..], a)
  }

  lemma {:induction false} RankIs(s: seq<nat>, a: nat, i: nat)
    requires Sorted(s) && i <= |s|
    requires forall j :: 0 <= j < i ==> s[j] < a
    requires i < |s| ==> a <= s[i]
    ensures Rank(s, a) == i
  {
  }
}
