/** Stable merge sorting on sequences: what one merge, one pass and the whole bottom-up sort
    compute, and why the result is the stable sorting of the input. */
module MergeSpec {

  /** The comparison is a total preorder on the elements of `s`. */
  ghost predicate TotalPreorder<T>(cmp: (T, T) -> int, s: seq<T>) {
    && (forall i, j :: 0 <= i < |s| && 0 <= j < |s| ==> cmp(s[i], s[j]) <= 0 || cmp(s[j], s[i]) <= 0)
    && (forall i, j, k {:trigger cmp(s[i], s[j]), cmp(s[j], s[k])} :: 0 <= i < |s| && 0 <= j < |s| && 0 <= k < |s| ==>
          cmp(s[i], s[j]) <= 0 && cmp(s[j], s[k]) <= 0 ==> cmp(s[i], s[k]) <= 0)
  }

  /** Merging two runs; on a tie the element of the first run comes first. */
  function Merge<T>(cmp: (T, T) -> int, a: seq<T>, b: seq<T>): (r: seq<T>)
    ensures |r| == |a| + |b|
  {
    if |a| == 0 then b
    else if |b| == 0 then a
    else if cmp(a[0], b[0]) <= 0 then [a[0]] + Merge(cmp, a[1..], b)
    else [b[0]] + Merge(cmp, a, b[1..])
  }

  function Min(x: nat, y: nat): nat {
    if x < y then x else y
  }

  /** One pass: neighbouring runs of `w` elements are merged in pairs. */
  function Pass<T>(cmp: (T, T) -> int, s: seq<T>, w: nat): (r: seq<T>)
    requires w > 0
    ensures |r| == |s|
  {
    if |s| == 0 then []
    else
      var m, e := Min(w, |s|), Min(2 * w, |s|);
      Merge(cmp, s[..m], s[m..e]) + Pass(cmp, s[e..], w)
  }

  /** Passes with runs of `w`, `2w`, `4w`, ... elements until one merge covers everything. */
  function SortFrom<T>(cmp: (T, T) -> int, s: seq<T>, w: nat): (r: seq<T>)
    requires w > 0
    ensures |r| == |s|
    decreases |s| - w
  {
    var p := Pass(cmp, s, w);
    if |s| <= 2 * w then p else SortFrom(cmp, p, 2 * w)
  }

  // ---------------------------------------------------------------- the stable order

  /** `a` belongs before `b`: it is smaller, or equal and `pos`, its original place, is smaller. */
  ghost predicate Before<T>(cmp: (T, T) -> int, pos: T -> int, a: T, b: T) {
    cmp(a, b) <= 0 && (cmp(b, a) <= 0 ==> pos(a) < pos(b))
  }

  ghost predicate Ordered<T>(cmp: (T, T) -> int, pos: T -> int, s: seq<T>) {
    forall i, j :: 0 <= i < j < |s| ==> Before(cmp, pos, s[i], s[j])
  }

  /** All of `a` stood before all of `b` originally. */
  ghost predicate Earlier<T>(pos: T -> int, a: seq<T>, b: seq<T>) {
    forall i, j :: 0 <= i < |a| && 0 <= j < |b| ==> pos(a[i]) < pos(b[j])
  }

  /** Runs of `w` elements are ordered, and a run holds earlier elements than the runs after it. */
  ghost predicate Runs<T>(cmp: (T, T) -> int, pos: T -> int, s: seq<T>, w: nat)
    requires w > 0
  {
    if |s| <= w then Ordered(cmp, pos, s)
    else Ordered(cmp, pos, s[..w]) && Earlier(pos, s[..w], s[w..]) && Runs(cmp, pos, s[w..], w)
  }

  lemma HeadMember<T>(x: T, s: seq<T>)
    ensures multiset([x] + s) == multiset{x} + multiset(s)
  {
  }

  lemma {:induction false} MergeMembers<T>(cmp: (T, T) -> int, a: seq<T>, b: seq<T>)
    ensures multiset(Merge(cmp, a, b)) == multiset(a) + multiset(b)
  {
    if |a| > 0 && |b| > 0 {
      if cmp(a[0], b[0]) <= 0 {
        MergeMembers(cmp, a[1..], b);
        HeadMember(a[0], a[1..]);
        HeadMember(a[0], Merge(cmp, a[1..], b));
        assert a == [a[0]] + a[1..];
      } else {
        MergeMembers(cmp, a, b[1..]);
        HeadMember(b[0], b[1..]);
        HeadMember(b[0], Merge(cmp, a, b[1..]));
        assert b == [b[0]] + b[1..];
      }
    }
  }

  lemma MergeElements<T>(cmp: (T, T) -> int, a: seq<T>, b: seq<T>, r: seq<T>)
    requires r == Merge(cmp, a, b)
    ensures forall i :: 0 <= i < |r| ==> r[i] in a + b
  {
    MergeMembers(cmp, a, b);
    SameElements(r, a + b);
  }

  lemma HeadFirst<T>(cmp: (T, T) -> int, pos: T -> int, x: T, s: seq<T>)
    requires Ordered(cmp, pos, s) && forall i :: 0 <= i < |s| ==> Before(cmp, pos, x, s[i])
    ensures Ordered(cmp, pos, [x] + s)
  {
  }

  lemma Trans<T>(cmp: (T, T) -> int, s: seq<T>, x: T, y: T, z: T)
    requires TotalPreorder(cmp, s) && x in s && y in s && z in s
    ensures cmp(x, y) <= 0 || cmp(y, x) <= 0
    ensures cmp(x, y) <= 0 && cmp(y, z) <= 0 ==> cmp(x, z) <= 0
  {
  }

  /** The smaller head, the first run's on a tie, belongs before everything else. */
  lemma HeadOfA<T>(cmp: (T, T) -> int, pos: T -> int, a: seq<T>, b: seq<T>, y: T)
    requires TotalPreorder(cmp, a + b) && |a| > 0 && |b| > 0 && cmp(a[0], b[0]) <= 0
    requires Ordered(cmp, pos, a) && Ordered(cmp, pos, b) && Earlier(pos, a, b)
    requires y in a[1..] || y in b
    ensures Before(cmp, pos, a[0], y)
  {
    if y in a[1..] {
      var k :| 0 < k < |a| && a[k] == y;
    } else {
      var k :| 0 <= k < |b| && b[k] == y;
      assert k > 0 ==> Before(cmp, pos, b[0], b[k]);
      Trans(cmp, a + b, a[0], b[0], y);
    }
  }

  lemma HeadOfB<T>(cmp: (T, T) -> int, pos: T -> int, a: seq<T>, b: seq<T>, y: T)
    requires TotalPreorder(cmp, a + b) && |a| > 0 && |b| > 0 && cmp(a[0], b[0]) > 0
    requires Ordered(cmp, pos, a) && Ordered(cmp, pos, b)
    requires y in a || y in b[1..]
    ensures Before(cmp, pos, b[0], y)
  {
    if y in b[1..] {
      var k :| 0 < k < |b| && b[k] == y;
    } else {
      var k :| 0 <= k < |a| && a[k] == y;
      assert k > 0 ==> Before(cmp, pos, a[0], a[k]);
      Trans(cmp, a + b, b[0], a[0], y);
      Trans(cmp, a + b, a[0], y, b[0]);
    }
  }

  lemma {:induction false} MergeOrdered<T>(cmp: (T, T) -> int, pos: T -> int, a: seq<T>, b: seq<T>)
    requires TotalPreorder(cmp, a + b)
    requires Ordered(cmp, pos, a) && Ordered(cmp, pos, b) && Earlier(pos, a, b)
    ensures Ordered(cmp, pos, Merge(cmp, a, b))
  {
    if |a| > 0 && |b| > 0 {
      if cmp(a[0], b[0]) <= 0 {
        var r := Merge(cmp, a[1..], b);
        MergeElements(cmp, a[1..], b, r);
        forall i | 0 <= i < |r| ensures Before(cmp, pos, a[0], r[i]) {
          assert r[i] in a[1..] + b;
          HeadOfA(cmp, pos, a, b, r[i]);
        }
        PartPreorder(cmp, a + b, a[1..] + b);
        MergeOrdered(cmp, pos, a[1..], b);
        HeadFirst(cmp, pos, a[0], r);
      } else {
        var r := Merge(cmp, a, b[1..]);
        MergeElements(cmp, a, b[1..], r);
        forall i | 0 <= i < |r| ensures Before(cmp, pos, b[0], r[i]) {
          assert r[i] in a + b[1..];
          HeadOfB(cmp, pos, a, b, r[i]);
        }
        PartPreorder(cmp, a + b, a + b[1..]);
        MergeOrdered(cmp, pos, a, b[1..]);
        HeadFirst(cmp, pos, b[0], r);
      }
    }
  }

  lemma SameElements<T>(s: seq<T>, t: seq<T>)
    requires multiset(s) == multiset(t)
    ensures |s| == |t|
    ensures forall i :: 0 <= i < |s| ==> s[i] in t
    ensures forall i :: 0 <= i < |t| ==> t[i] in s
  {
    assert |multiset(s)| == |s| && |multiset(t)| == |t|;
    forall i | 0 <= i < |s| ensures s[i] in t {
      assert s[i] in multiset(s);
    }
    forall i | 0 <= i < |t| ensures t[i] in s {
      assert t[i] in multiset(t);
    }
  }

  lemma SplitMultiset<T>(s: seq<T>, m: nat, e: nat)
    requires m <= e <= |s|
    ensures multiset(s) == multiset(s[..m]) + multiset(s[m..e]) + multiset(s[e..])
  {
    assert s[..e] == s[..m] + s[m..e];
    assert s == s[..e] + s[e..];
  }

  lemma {:induction false} PassMembers<T>(cmp: (T, T) -> int, s: seq<T>, w: nat)
    requires w > 0
    ensures multiset(Pass(cmp, s, w)) == multiset(s)
  {
    if |s| > 0 {
      var m, e := Min(w, |s|), Min(2 * w, |s|);
      MergeMembers(cmp, s[..m], s[m..e]);
      PassMembers(cmp, s[e..], w);
      SplitMultiset(s, m, e);
      var first, last := Merge(cmp, s[..m], s[m..e]), Pass(cmp, s[e..], w);
      assert Pass(cmp, s, w) == first + last;
    }
  }

  lemma PartPreorder<T>(cmp: (T, T) -> int, s: seq<T>, t: seq<T>)
    requires TotalPreorder(cmp, s) && forall i :: 0 <= i < |t| ==> t[i] in s
    ensures TotalPreorder(cmp, t)
  {
  }

  lemma EarlierParts<T>(pos: T -> int, a: seq<T>, b: seq<T>, c: seq<T>)
    requires Earlier(pos, a, b + c) && Earlier(pos, b, c)
    ensures Earlier(pos, a, b) && Earlier(pos, a + b, c)
  {
    forall i, j | 0 <= i < |a| && 0 <= j < |b| ensures pos(a[i]) < pos(b[j]) {
      assert (b + c)[j] == b[j];
    }
    forall i, j | 0 <= i < |a + b| && 0 <= j < |c| ensures pos((a + b)[i]) < pos(c[j]) {
      assert (b + c)[|b| + j] == c[j];
    }
  }

  lemma Slices<T>(s: seq<T>, c: nat, m: nat, e: nat)
    requires c <= m <= e <= |s|
    ensures s[c..][..m - c] == s[c..m] && s[c..][m - c..e - c] == s[m..e] && s[c..][e - c..] == s[e..]
  {
  }

  lemma TwoRuns<T>(s: seq<T>, w: nat, e: nat)
    requires w <= e <= |s|
    ensures s[w..] == s[w..e] + s[e..] && s[..e] == s[..w] + s[w..e]
  {
  }

  /** The first two runs of `s`, each ordered and the first earlier than the second. */
  lemma FirstTwo<T>(cmp: (T, T) -> int, pos: T -> int, s: seq<T>, w: nat)
    requires w > 0 && |s| > w && Runs(cmp, pos, s, w)
    ensures var e := Min(2 * w, |s|);
            && Ordered(cmp, pos, s[..w]) && Ordered(cmp, pos, s[w..e]) && Earlier(pos, s[..w], s[w..e])
            && Earlier(pos, s[..e], s[e..]) && Runs(cmp, pos, s[e..], w)
  {
    var e := Min(2 * w, |s|);
    SecondRun(cmp, pos, s[w..], w, e - w);
    Slices(s, w, e, e);
    TwoRuns(s, w, e);
    EarlierParts(pos, s[..w], s[w..e], s[e..]);
  }

  lemma SecondRun<T>(cmp: (T, T) -> int, pos: T -> int, t: seq<T>, w: nat, e: nat)
    requires w > 0 && Runs(cmp, pos, t, w) && e == Min(w, |t|)
    ensures Ordered(cmp, pos, t[..e]) && Earlier(pos, t[..e], t[e..]) && Runs(cmp, pos, t[e..], w)
  {
  }

  /** A pass turns ordered runs of `w` into ordered runs of `2w`. */
  lemma {:induction false} PassRuns<T>(cmp: (T, T) -> int, pos: T -> int, s: seq<T>, w: nat)
    requires w > 0 && TotalPreorder(cmp, s) && Runs(cmp, pos, s, w)
    ensures Runs(cmp, pos, Pass(cmp, s, w), 2 * w)
  {
    if |s| > w {
      var e := Min(2 * w, |s|);
      var a, b, rest := s[..w], s[w..e], s[e..];
      FirstTwo(cmp, pos, s, w);
      PartPreorder(cmp, s, a + b);
      MergeOrdered(cmp, pos, a, b);
      PartPreorder(cmp, s, rest);
      PassRuns(cmp, pos, rest, w);
      JoinRuns(cmp, pos, s, a, b, rest, w);
    } else if |s| > 0 {
      assert s[..|s|] == s && s[|s|..] == [];
      assert Pass(cmp, s, w) == s;
    }
  }

  lemma JoinRuns<T>(cmp: (T, T) -> int, pos: T -> int, s: seq<T>, a: seq<T>, b: seq<T>, rest: seq<T>, w: nat)
    requires 0 < w < |s| && a == s[..w] && b == s[w..Min(2 * w, |s|)] && rest == s[Min(2 * w, |s|)..]
    requires Ordered(cmp, pos, Merge(cmp, a, b)) && Runs(cmp, pos, Pass(cmp, rest, w), 2 * w)
    requires Earlier(pos, s[..Min(2 * w, |s|)], rest)
    ensures Runs(cmp, pos, Pass(cmp, s, w), 2 * w)
  {
    var first, last := Merge(cmp, a, b), Pass(cmp, rest, w);
    assert Pass(cmp, s, w) == first + last;
    TwoRuns(s, w, Min(2 * w, |s|));
    EarlierStays(cmp, pos, a, b, rest, first, last, w);
    Prepend(cmp, pos, first, last, 2 * w);
  }

  lemma Prepend<T>(cmp: (T, T) -> int, pos: T -> int, first: seq<T>, last: seq<T>, w: nat)
    requires w > 0 && Ordered(cmp, pos, first) && Earlier(pos, first, last) && Runs(cmp, pos, last, w)
    requires |first| == w || (|first| < w && last == [])
    ensures Runs(cmp, pos, first + last, w)
  {
  }

  lemma EarlierStays<T>(cmp: (T, T) -> int, pos: T -> int, a: seq<T>, b: seq<T>, rest: seq<T>,
                        first: seq<T>, last: seq<T>, w: nat)
    requires w > 0 && Earlier(pos, a + b, rest) && first == Merge(cmp, a, b) && last == Pass(cmp, rest, w)
    ensures Earlier(pos, first, last)
  {
    MergeElements(cmp, a, b, first);
    PassMembers(cmp, rest, w);
    SameElements(last, rest);
  }

  /** `t` is the stable sorting of `s`: the same elements, ascending, and equal ones in the order of `s`. */
  ghost predicate StableSorting<T>(cmp: (T, T) -> int, pos: T -> int, s: seq<T>, t: seq<T>) {
    multiset(t) == multiset(s) && Ordered(cmp, pos, t)
  }

  lemma {:induction false} SortFromStable<T>(cmp: (T, T) -> int, pos: T -> int, s: seq<T>, w: nat)
    requires w > 0 && TotalPreorder(cmp, s) && Runs(cmp, pos, s, w)
    ensures StableSorting(cmp, pos, s, SortFrom(cmp, s, w))
    decreases |s| - w
  {
    var p := Pass(cmp, s, w);
    PassRuns(cmp, pos, s, w);
    PassMembers(cmp, s, w);
    if |s| > 2 * w {
      SameElements(p, s);
      PartPreorder(cmp, s, p);
      SortFromStable(cmp, pos, p, 2 * w);
    }
  }

  lemma {:induction false} SinglesRun<T>(cmp: (T, T) -> int, pos: T -> int, s: seq<T>)
    requires forall i, j :: 0 <= i < j < |s| ==> pos(s[i]) < pos(s[j])
    ensures Runs(cmp, pos, s, 1)
  {
    if |s| > 1 {
      SinglesRun(cmp, pos, s[1..]);
    }
  }

  /** Starting with runs of one element, the sort is stable for every total preorder. */
  lemma SortIsStable<T>(cmp: (T, T) -> int, pos: T -> int, s: seq<T>)
    requires TotalPreorder(cmp, s) && forall i :: 0 <= i < |s| ==> pos(s[i]) == i
    ensures StableSorting(cmp, pos, s, SortFrom(cmp, s, 1))
  {
    SinglesRun(cmp, pos, s);
    SortFromStable(cmp, pos, s, 1);
  }

  lemma HeadBefore<T>(cmp: (T, T) -> int, pos: T -> int, s: seq<T>, x: T)
    requires x in s && Ordered(cmp, pos, s)
    ensures x == s[0] || Before(cmp, pos, s[0], x)
  {
  }

  lemma SameHead<T>(cmp: (T, T) -> int, pos: T -> int, s: seq<T>, t: seq<T>)
    requires |s| > 0 && multiset(s) == multiset(t) && Ordered(cmp, pos, s) && Ordered(cmp, pos, t)
    ensures |t| > 0 && s[0] == t[0]
  {
    SameElements(s, t);
    assert s[0] in t && t[0] in s;
    HeadBefore(cmp, pos, s, t[0]);
    HeadBefore(cmp, pos, t, s[0]);
  }

  lemma SameTails<T>(s: seq<T>, t: seq<T>)
    requires |s| > 0 && |t| > 0 && s[0] == t[0] && multiset(s) == multiset(t)
    ensures multiset(s[1..]) == multiset(t[1..])
  {
    HeadMember(s[0], s[1..]);
    HeadMember(t[0], t[1..]);
    assert s == [s[0]] + s[1..] && t == [t[0]] + t[1..];
    assert multiset(s[1..]) == multiset(s) - multiset{s[0]};
  }

  /** There is only one stable sorting, so `StableSorting` says exactly what the sort returns. */
  lemma {:induction false} StableUnique<T>(cmp: (T, T) -> int, pos: T -> int, s: seq<T>, t: seq<T>)
    requires multiset(s) == multiset(t) && Ordered(cmp, pos, s) && Ordered(cmp, pos, t)
    ensures s == t
  {
    SameElements(s, t);
    if |s| > 0 {
      SameHead(cmp, pos, s, t);
      SameTails(s, t);
      StableUnique(cmp, pos, s[1..], t[1..]);
    }
  }
}
