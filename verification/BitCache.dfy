/** The bit per run queue that says whether it is empty, and the search for the lowest one. */
module BitCache {

  /** Bit `i` of `v`. */
  predicate Bit(v: nat, i: nat)
    decreases i
  {
    if i == 0 then v % 2 == 1 else Bit(v / 2, i - 1)
  }

  /** v | 1 << i */
  function SetBit(v: nat, i: nat): nat
    decreases i
  {
    if i == 0 then v - v % 2 + 1 else v % 2 + 2 * SetBit(v / 2, i - 1)
  }

  /** v & ~(1 << i) */
  function ClearBit(v: nat, i: nat): nat
    decreases i
  {
    if i == 0 then v - v % 2 else v % 2 + 2 * ClearBit(v / 2, i - 1)
  }

  lemma {:induction false} SetBits(v: nat, i: nat, j: nat)
    ensures Bit(SetBit(v, i), j) <==> i == j || Bit(v, j)
    decreases i
  {
    if i == 0 {
      assert SetBit(v, 0) / 2 == v / 2;
    } else {
      var rest := SetBit(v / 2, i - 1);
      assert SetBit(v, i) / 2 == rest && SetBit(v, i) % 2 == v % 2;
      if j > 0 {
        SetBits(v / 2, i - 1, j - 1);
      }
    }
  }

  lemma {:induction false} ClearBits(v: nat, i: nat, j: nat)
    ensures Bit(ClearBit(v, i), j) <==> i != j && Bit(v, j)
    decreases i
  {
    if i == 0 {
      assert ClearBit(v, 0) / 2 == v / 2;
    } else {
      var rest := ClearBit(v / 2, i - 1);
      assert ClearBit(v, i) / 2 == rest && ClearBit(v, i) % 2 == v % 2;
      if j > 0 {
        ClearBits(v / 2, i - 1, j - 1);
      }
    }
  }

  lemma {:induction false} NoBits(i: nat)
    ensures !Bit(0, i)
  {
    if i > 0 {
      NoBits(i - 1);
    }
  }

  /** `v` is `v0` shifted right by `r`. */
  ghost predicate Shifted(v: nat, v0: nat, r: nat) {
    forall j: nat :: Bit(v, j) <==> Bit(v0, r + j)
  }

  lemma ShiftOnce(v: nat, v0: nat, r: nat)
    requires Shifted(v, v0, r)
    ensures Shifted(v / 2, v0, r + 1)
  {
    forall j: nat ensures Bit(v / 2, j) <==> Bit(v0, r + 1 + j) {
      assert Bit(v, j + 1) <==> Bit(v0, r + (j + 1));
    }
  }

  lemma LowBit(v: nat, v0: nat, r: nat)
    requires Shifted(v, v0, r)
    ensures v % 2 == 1 <==> Bit(v0, r)
  {
    assert Bit(v, 0) <==> Bit(v0, r + 0);
  }

  /** bitarithm_lsb_sm_timer: it ends because some bit, `k`, is set. */
  method LowestBit(v0: nat, ghost k: nat) returns (r: nat)
    requires Bit(v0, k)
    ensures r <= k && Bit(v0, r) && forall j :: 0 <= j < r ==> !Bit(v0, j)
  {
    r := 0;
    var v := v0;
    LowBit(v, v0, r);
    while v % 2 == 0
      invariant r <= k && Shifted(v, v0, r) && (v % 2 == 1 <==> Bit(v0, r))
      invariant forall j :: 0 <= j < r ==> !Bit(v0, j)
      decreases k - r
    {
      ShiftOnce(v, v0, r);
      v, r := v / 2, r + 1;
      LowBit(v, v0, r);
    }
  }
}
