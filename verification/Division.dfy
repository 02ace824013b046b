/** Division by multiplication with a reciprocal, on 32- and 64-bit words. */
module Division {
  import opened Remainders

  const W16 := 0x1_0000
  const W32 := 0x1_0000_0000
  const W64 := 0x1_0000_0000_0000_0000

  // ---------------------------------------------------------------- reciprocals

  /** What multiplying by a reciprocal `m` of `d`, too large by e/d, computes. */
  lemma Reciprocal(n: nat, d: nat, m: nat, p: nat, e: nat)
    requires d > 0 && m * d == p + e
    ensures n * m == (n / d) * p + ((n / d) * e + (n % d) * m)
  {
  }

  /** What is left over against `p`, the width of a step. */
  lemma Leftover(q: nat, r: nat, d: nat, m: nat, p: nat, e: nat)
    requires r < d && p > 0 && m * d == p + e && (q + 1) * e <= p
    ensures q * e + r * m == p + (q + 1) * e - (d - r) * m < 2 * p
  {
    assert (q + 1) * e == q * e + e && (d - r) * m == m * d - r * m;
    Grows(1, d - r, m);
  }

  /** The quotient computed is the true one or one too large, and the true one exactly when the error of
      the reciprocal has not added up to a whole step. */
  lemma ReciprocalQuotient(n: nat, d: nat, m: nat, p: nat, e: nat)
    requires d > 0 && p > 0 && m * d == p + e && (n / d + 1) * e <= p
    ensures n * m / p == n / d || n * m / p == n / d + 1
    ensures n * m / p == n / d <==> (n / d + 1) * e < (d - n % d) * m
  {
    var q, r := n / d, n % d;
    var x := q * e + r * m;
    Reciprocal(n, d, m, p, e);
    Leftover(q, r, d, m, p, e);
    if x < p {
      DivIs(n * m, q, x, p);
    } else {
      Further(n * m, q, x, p);
    }
  }

  lemma Further(n: nat, q: nat, x: nat, p: nat)
    requires n == q * p + x && p <= x < 2 * p
    ensures n / p == q + 1
  {
    assert (q + 1) * p == q * p + p;
    DivIs(n, q + 1, x - p, p);
  }

  lemma ScaledRest(n: nat, d: nat, m: nat, p: nat, e: nat, q: nat, r: nat)
    requires m * d == p + e && n == q * d + r
    ensures d * (q * e + r * m) == n * e + r * p
  {
  }

  lemma SmallerFactor(d: nat, x: nat, p: nat)
    requires d * x < d * p
    ensures x < p
  {
  }

  /** A dividend small enough for the error not to matter. */
  lemma ReciprocalExact(n: nat, d: nat, m: nat, p: nat, e: nat)
    requires d > 0 && p > 0 && m * d == p + e && n * e < p
    ensures n * m / p == n / d
  {
    var q, r := n / d, n % d;
    var x := q * e + r * m;
    Reciprocal(n, d, m, p, e);
    ScaledRest(n, d, m, p, e, q, r);
    Grows(r + 1, d, p);
    assert (r + 1) * p == r * p + p;
    SmallerFactor(d, x, p);
    DivIs(n * m, q, x, p);
  }

  // ---------------------------------------------------------------- the high half of a product

  /** The upper half put together from the four partial products: the high one, the two in the middle and
      the low one, with the carry out of the lower half. */
  function Combine(hi: nat, mid1: nat, mid2: nat, lo: nat): nat {
    var carry := ((mid1 % W32 + mid2 % W32 + lo / W32) % W64 / W32) % W32;
    (hi + mid1 / W32 + mid2 / W32 + carry) % W64
  }

  /** _div_mulhi64, with every product, sum and cast in the width the code gives it */
  function MulHi(a: nat, b: nat): nat
    requires a < W64 && b < W64
  {
    var aLo, aHi, bLo, bHi := a % W32, a / W32, b % W32, b / W32;
    Combine(aHi * bHi % W64, aHi * bLo % W64, bHi * aLo % W64, aLo * bLo % W64)
  }

  lemma ProductFits(x: nat, y: nat)
    requires x < W32 && y < W32
    ensures x * y <= (W32 - 1) * (W32 - 1) < W64
  {
    Grows(x, W32 - 1, y);
    Grows(y, W32 - 1, W32 - 1);
  }

  /** A product from the products of the halves. */
  lemma Halves(aHi: nat, aLo: nat, bHi: nat, bLo: nat)
    ensures (aHi * W32 + aLo) * (bHi * W32 + bLo) == aHi * bHi * W64 + (aHi * bLo + bHi * aLo) * W32 + aLo * bLo
  {
  }

  lemma HighHalf(hi: nat, mid1: nat, mid2: nat, lo: nat)
    ensures (hi * W64 + (mid1 + mid2) * W32 + lo) / W64
            == hi + mid1 / W32 + mid2 / W32 + (mid1 % W32 + mid2 % W32 + lo / W32) / W32
  {
  }

  lemma CombineRight(hi: nat, mid1: nat, mid2: nat, lo: nat)
    requires lo < W64 && (hi * W64 + (mid1 + mid2) * W32 + lo) / W64 < W64
    ensures Combine(hi, mid1, mid2, lo) == (hi * W64 + (mid1 + mid2) * W32 + lo) / W64
  {
    HighHalf(hi, mid1, mid2, lo);
    var low := mid1 % W32 + mid2 % W32 + lo / W32;
    assert low < 3 * W32;
    assert low % W64 == low && low / W32 < 3;
  }

  lemma Assemble(product: nat, hi: nat, mid1: nat, mid2: nat, lo: nat)
    requires hi < W64 && mid1 < W64 && mid2 < W64 && lo < W64
    requires product == hi * W64 + (mid1 + mid2) * W32 + lo && product / W64 < W64
    ensures Combine(hi % W64, mid1 % W64, mid2 % W64, lo % W64) == product / W64
  {
    SmallMod(hi, W64);
    SmallMod(mid1, W64);
    SmallMod(mid2, W64);
    SmallMod(lo, W64);
    CombineRight(hi, mid1, mid2, lo);
  }

  /** The upper half of the 128-bit product; nothing is lost on the way. */
  lemma MulHiExact(a: nat, b: nat)
    requires a < W64 && b < W64
    ensures MulHi(a, b) == a * b / W64
  {
    var product := a * b;
    UpperFits(a, b);
    var hi, mid1, mid2, lo := Partial(a, b);
    Assemble(product, hi, mid1, mid2, lo);
  }

  /** The four partial products: they fit in 64 bits and make up the product. */
  lemma Partial(a: nat, b: nat) returns (hi: nat, mid1: nat, mid2: nat, lo: nat)
    requires a < W64 && b < W64
    ensures hi < W64 && mid1 < W64 && mid2 < W64 && lo < W64
    ensures a * b == hi * W64 + (mid1 + mid2) * W32 + lo
    ensures MulHi(a, b) == Combine(hi % W64, mid1 % W64, mid2 % W64, lo % W64)
  {
    var aLo, aHi, bLo, bHi := a % W32, a / W32, b % W32, b / W32;
    hi, mid1, mid2, lo := aHi * bHi, aHi * bLo, bHi * aLo, aLo * bLo;
    ProductFits(aHi, bLo);
    ProductFits(bHi, aLo);
    ProductFits(aLo, bLo);
    ProductFits(aHi, bHi);
    Halves(aHi, aLo, bHi, bLo);
    assert a == aHi * W32 + aLo && b == bHi * W32 + bLo;
  }

  lemma UpperFits(a: nat, b: nat)
    requires a < W64 && b < W64
    ensures a * b / W64 < W64
  {
    Grows(a, W64 - 1, b);
    assert (W64 - 1) * b <= (W64 - 1) * (W64 - 1);
  }

  // ---------------------------------------------------------------- by 15625

  const INV32 := 0x431bde83
  const INV64 := 0x431b_de82_d7b6_34db
  const P44 := 0x1000_0000_0000
  const P76 := 0x1000_0000_0000_0000_0000
  const LIMIT := 16383999997

  /** div_u64_by_15625 */
  function By15625(v: nat): nat
    requires v < W64
  {
    if v > LIMIT then MulHi(INV64, v) / 0x1000 else v * INV32 % W64 / P44
  }

  lemma Shifts(x: nat)
    ensures x / W64 / 0x1000 == x / P76
  {
  }

  /** Above the limit the 64-bit reciprocal is exact for every 64-bit dividend. */
  lemma By15625High(v: nat)
    requires LIMIT < v < W64
    ensures By15625(v) == v / 15625
  {
    MulHiExact(INV64, v);
    Shifts(INV64 * v);
    ReciprocalExact(v, 15625, INV64, P76, 2739);
  }

  /** The quotient is the true one or one too large. It is the true one exactly when the dividend is not
      one of the last before a multiple of 15625 past the point where the error of the reciprocal adds
      up to one, or two, units. */
  lemma By15625Low(v: nat)
    requires v <= LIMIT
    ensures By15625(v) == v / 15625 || By15625(v) == v / 15625 + 1
    ensures By15625(v) == v / 15625
            <==> !(v % 15625 == 15624 && v / 15625 >= 457869) && !(v % 15625 == 15623 && v / 15625 >= 915738)
  {
  }

  /** Exact up to 7154218748, and the next number is the first that fails. */
  lemma By15625First(v: nat)
    requires v < W64
    ensures v <= 7154218748 || v > LIMIT ==> By15625(v) == v / 15625
    ensures By15625(7154218749) == 7154218749 / 15625 + 1
  {
    By15625Low(7154218749);
    if v > LIMIT {
      By15625High(v);
    } else if v <= 7154218748 {
      By15625Low(v);
    }
  }

  /** div_u64_by_1000000 */
  function By1000000(v: nat): nat
    requires v < W64
  {
    By15625(v) / 64
  }

  /** An error of the division by 15625 shows when its quotient is the last below a multiple of 64, that is
      for the last two dividends below a multiple of 1000000. */
  lemma By1000000Right(v: nat)
    requires v < W64
    ensures By1000000(v) == v / 1000000
            <==> !((v <= LIMIT && v % 1000000 == 999999 && v / 15625 >= 457869)
                   || (v <= LIMIT && v % 1000000 == 999998 && v / 15625 >= 915738))
  {
    var q, r := v / 15625, v % 15625;
    DivIs(v, q / 64, (q % 64) * 15625 + r, 1000000);
    if v > LIMIT {
      By15625High(v);
    } else {
      By15625Low(v);
    }
  }

  /** Exact below 7154999999, which is the first dividend that fails. */
  lemma By1000000First(v: nat)
    requires v < 7154999999 || LIMIT < v < W64
    ensures By1000000(v) == v / 1000000
  {
    By1000000Right(v);
  }

  lemma By1000000Fails()
    ensures By1000000(7154999999) == 7154999999 / 1000000 + 1
  {
    By15625Low(7154999999);
  }

  // ---------------------------------------------------------------- by 125

  /** The two 16-bit steps, on the upper part `r` and the last 16 bits. */
  function Steps125(r: nat, low: nat): nat {
    (r / 125 * W16 % W32 + (r % 125 * W16 % W32 + low) % W32 / 125) % W32
  }

  /** div_u64_by_125 */
  function By125(v: nat): nat
    requires v <= 536870911999
  {
    var hi, lo := v / W32 % W32, v % W32;
    Steps125((lo / W16 + hi * W16 % W32) % W32, lo % W16)
  }

  lemma Steps125Right(r: nat, low: nat)
    requires r < 125 * W16 && low < W16
    ensures Steps125(r, low) == r / 125 * W16 + (r % 125 * W16 + low) / 125
  {
    var low' := r % 125 * W16 + low;
    assert r / 125 < W16 && low' < 125 * W16;
    SmallMod(r / 125 * W16, W32);
    SmallMod(r % 125 * W16, W32);
    SmallMod(low', W32);
    SmallMod(r / 125 * W16 + low' / 125, W32);
  }

  lemma UpperPart(v: nat)
    ensures v / W16 == v % W32 / W16 + v / W32 * W16 && v % W32 % W16 == v % W16
  {
  }

  lemma TwoSteps(v: nat)
    ensures v / 125 == v / W16 / 125 * W16 + (v / W16 % 125 * W16 + v % W16) / 125
  {
  }

  lemma UpperSmall(v: nat)
    requires v <= 536870911999
    ensures v / W32 < 125 && v / W16 < 125 * W16
  {
  }

  /** Dividing in two 16-bit steps is exact and no high bits are lost. */
  lemma By125Exact(v: nat)
    requires v <= 536870911999
    ensures By125(v) == v / 125
  {
    UpperSmall(v);
    SmallMod(v / W32, W32);
    SmallMod(v / W32 * W16, W32);
    UpperPart(v);
    SmallMod(v / W16, W32);
    Steps125Right(v / W16, v % W16);
    TwoSteps(v);
  }

  // ---------------------------------------------------------------- by 15625/512 and 44488

  const P35 := 0x8_0000_0000
  const P47 := 0x8000_0000_0000
  const INV44488 := 0xBC8F1391

  /** div_u32_by_15625div512 */
  function By15625Div512(v: nat): nat
    requires v < W32
  {
    v * INV32 % W64 / P35 % W32
  }

  /** div_u64_by_15625div512 */
  function By15625Div512Long(v: nat): nat
    requires v < W64
  {
    if v > LIMIT then MulHi(INV64, v) / 8 else v * INV32 % W64 / P35
  }

  lemma Scaled(x: nat)
    ensures x * 512 / P44 == x / P35 && x / W64 / 8 == x * 512 / P76
  {
  }

  lemma Div512Low(v: nat, n: nat)
    requires v <= LIMIT && n == 512 * v
    ensures By15625Div512Long(v) == n * INV32 / P44
  {
    var x := v * INV32;
    assert x < W64;
    Scaled(x);
  }

  lemma Div512High(v: nat, n: nat)
    requires LIMIT < v < W64 && n == 512 * v
    ensures By15625Div512Long(v) == n * INV64 / P76
  {
    var x := INV64 * v;
    MulHiExact(INV64, v);
    Scaled(x);
  }

  /** On 32 bits nothing is cut off. */
  lemma Div512Same(v: nat)
    requires v < W32
    ensures By15625Div512(v) == By15625Div512Long(v)
  {
    assert v * INV32 < W64 && v * INV32 / P35 < W32;
  }

  /** When the error of the reciprocal used has not added up to a whole step. */
  predicate Div512Right(v: nat) {
    var q, left := 512 * v / 15625, 15625 - 512 * v % 15625;
    if v > LIMIT then (q + 1) * 2739 < left * INV64 else (q + 1) * 2459 < left * INV32
  }

  /** For every 64-bit value: the quotient of 512 v by 15625, or one more, and the quotient exactly under
      the condition. */
  lemma By15625Div512Exact(v: nat)
    requires v < W64
    ensures By15625Div512Long(v) == 512 * v / 15625 || By15625Div512Long(v) == 512 * v / 15625 + 1
    ensures By15625Div512Long(v) == 512 * v / 15625 <==> Div512Right(v)
  {
    var n := 512 * v;
    if v > LIMIT {
      Div512High(v, n);
      ReciprocalQuotient(n, 15625, INV64, P76, 2739);
    } else {
      Div512Low(v, n);
      ReciprocalQuotient(n, 15625, INV32, P44, 2459);
    }
  }

  /** The same for 32-bit values; no more while the error stays below one unit. */
  lemma By15625Div512Near(v: nat)
    requires v < W32
    ensures By15625Div512(v) == 512 * v / 15625 || By15625Div512(v) == 512 * v / 15625 + 1
    ensures 2459 * v < P35 ==> By15625Div512(v) == 512 * v / 15625
    ensures By15625Div512(v) == 512 * v / 15625 <==>
            (512 * v / 15625 + 1) * 2459 < (15625 - 512 * v % 15625) * INV32
  {
    Div512Same(v);
    By15625Div512Exact(v);
    if 2459 * v < P35 {
      Div512Low(v, 512 * v);
      ReciprocalExact(512 * v, 15625, INV32, P44, 2459);
    }
  }

  /** 512 and 15625 have no common factor: 313 * 15625 - 9552 * 512 is one. */
  lemma Coprime(a: int, b: int)
    requires 512 * a == 15625 * b && -15625 < a < 15625
    ensures a == 0
  {
    var t := 313 * a - 9552 * b;
    assert a == 15625 * t;
  }

  /** Only one value in 15625 leaves the largest remainder. */
  lemma LastRemainder(v: nat)
    requires 512 * v % 15625 == 15624
    ensures v % 15625 == 9552
  {
    var j, r, q := v / 15625, v % 15625, 512 * v / 15625;
    assert v == 15625 * j + r && 512 * v == 15625 * q + 15624;
    Coprime(r - 9552, q - 512 * j - 312);
  }

  /** The error of the reciprocal shows first with the largest remainder. */
  lemma Div512Early(v: nat)
    requires v < 13978302 || LIMIT < v < 53878770569447052
    ensures Div512Right(v)
  {
    var n := 512 * v;
    var q, r := n / 15625, n % 15625;
    assert n == 15625 * q + r;
    if r == 15624 {
      LastRemainder(v);
      NextMultiple(v);
    }
  }

  lemma NextMultiple(v: nat)
    requires v % 15625 == 9552 && (v < 13978302 || LIMIT < v < 53878770569447052)
    ensures v <= if v > LIMIT then 53878770569431427 else 13962677
  {
    var j := v / 15625;
    assert v == 15625 * j + 9552;
  }

  /** 13978302 is the first value that fails, on 32 bits as on 64, and 53878770569447052 the first one above
      the limit of the 32-bit reciprocal. */
  lemma By15625Div512First(v: nat)
    requires v < 13978302 || LIMIT < v < 53878770569447052
    ensures By15625Div512Long(v) == 512 * v / 15625 && (v < W32 ==> By15625Div512(v) == 512 * v / 15625)
  {
    By15625Div512Exact(v);
    Div512Early(v);
    if v < W32 {
      Div512Same(v);
    }
  }

  lemma By15625Div512Fails()
    ensures By15625Div512(13978302) == By15625Div512Long(13978302) == 512 * 13978302 / 15625 + 1
  {
    assert !Div512Right(13978302);
    By15625Div512Exact(13978302);
    Div512Same(13978302);
  }

  lemma By15625Div512FailsLong()
    ensures By15625Div512Long(53878770569447052) == 512 * 53878770569447052 / 15625 + 1
  {
    assert !Div512Right(53878770569447052);
    By15625Div512Exact(53878770569447052);
  }

  /** div_u32_by_44488 */
  function By44488(v: nat): nat
    requires v < W32
  {
    v * INV44488 % W64 / P47 % W32
  }

  lemma By44488Exact(v: nat)
    requires v < W32
    ensures By44488(v) == v / 44488
  {
  }
}
