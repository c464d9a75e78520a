/**
 `calc_delta_mine`: `delta * weight / lw->weight` without a division, by a multiplication
 with a cached fixed-point inverse, on a machine with a 32-bit `unsigned long`.
 */
module CalcDelta {
  import opened Words

  const WMULT_CONST := ULONG_RANGE - 1   // ~0UL
  const LONG_MAX := 0x7FFF_FFFF

  class LoadWeight {
    var weight: nat
    var invWeight: nat

    predicate Fits()
      reads this
    {
      weight < ULONG_RANGE && invWeight < ULONG_RANGE
    }
  }

  /** The inverse computed on first use; a weight of 2^32 - 1 would divide by zero. */
  function LazyInverse(weight: nat): nat
    requires weight < WMULT_CONST
  {
    Wrap32(1 + Quotient(WMULT_CONST - weight / 2, weight + 1))
  }

  /** `SRR(x, 16)` and `SRR(x, 32)` on a `u64`: shift right and round. */
  function Srr16(x: nat): nat {
    Wrap64(x + 0x8000) / 0x1_0000
  }

  function Srr32(x: nat): nat {
    Wrap64(x + 0x8000_0000) / 0x1_0000_0000
  }

  /** The scaled product before the clamp, in 64-bit arithmetic. */
  function Scaled(delta: nat, weight: nat, inv: nat): nat {
    var tmp := Wrap64(delta * weight);
    if tmp > WMULT_CONST then Srr16(Wrap64(Srr16(tmp) * inv)) else Srr32(Wrap64(tmp * inv))
  }

  method CalcDeltaMine(delta_exec: nat, weight: nat, lw: LoadWeight) returns (r: nat)
    requires delta_exec < ULONG_RANGE && weight < ULONG_RANGE && lw.Fits()
    requires lw.invWeight == 0 ==> lw.weight != WMULT_CONST
    modifies lw`invWeight
    ensures lw.Fits()
    ensures lw.invWeight == if old(lw.invWeight) == 0 then LazyInverse(lw.weight) else old(lw.invWeight)
    ensures r == Min(Scaled(delta_exec, weight, lw.invWeight), LONG_MAX)
  {
    hide Srr16, Srr32, Quotient;
    if lw.invWeight == 0 {
      lw.invWeight := Wrap32(1 + Quotient(WMULT_CONST - lw.weight / 2, lw.weight + 1));
    }
    var tmp := Wrap64(delta_exec * weight);
    if tmp > WMULT_CONST {
      tmp := Srr16(Wrap64(Srr16(tmp) * lw.invWeight));
    } else {
      tmp := Srr32(Wrap64(tmp * lw.invWeight));
    }
    r := if tmp <= LONG_MAX then tmp else LONG_MAX;
  }

  /** Twice the distance to 2^32 is at most the divisor: `inv` is a nearest integer to `2^32 / (weight + 1)`. */
  predicate NearestInverse(weight: nat, inv: nat) {
    -(weight + 1) <= 2 * (inv * (weight + 1) - ULONG_RANGE) <= weight + 1
  }

  /** The lazily computed inverse is `floor((2^32 + ceil(w / 2)) / (w + 1))`, the rounded inverse of `w + 1`. */
  lemma LazyInverseIsRounded(weight: nat)
    requires 0 < weight < WMULT_CONST
    ensures LazyInverse(weight) == Quotient(ULONG_RANGE + (weight + 1) / 2, weight + 1)
    ensures 0 < LazyInverse(weight)
    ensures NearestInverse(weight, LazyInverse(weight))
  {
    var w1 := weight + 1;
    var q := Quotient(WMULT_CONST - weight / 2, w1);
    assert (q + 1) * w1 == q * w1 + w1;
    QuotientIs(ULONG_RANGE + (weight + 1) / 2, w1, q + 1);
    if q + 1 >= ULONG_RANGE { MulLe(ULONG_RANGE, q + 1, w1); }
    assert q + 1 == LazyInverse(weight);
  }

  /** A zero weight gives an inverse of zero again: the inverse of such a weight is never cached. */
  lemma ZeroWeightIsNeverCached()
    ensures LazyInverse(0) == 0
  {
    QuotientIs(WMULT_CONST, 1, WMULT_CONST);
  }

  /** The result with exact, unbounded products. */
  function ExactSrr(x: nat, half: nat): (q: nat)
    requires half > 0
    ensures x - half < q * (2 * half) <= x + half
  {
    Quotient(x + half, 2 * half)
  }

  function Exact(delta: nat, weight: nat, inv: nat): nat {
    if delta * weight > WMULT_CONST
    then ExactSrr(ExactSrr(delta * weight, 0x8000) * inv, 0x8000)
    else ExactSrr(delta * weight * inv, 0x8000_0000)
  }

  /** `weight * inv` below this bound keeps every 64-bit product from wrapping. */
  const PRODUCT_BOUND := 0x8000_0000_0000

  lemma Srr16Exact(x: nat)
    requires x + 0x8000 < U64_RANGE
    ensures Srr16(x) == ExactSrr(x, 0x8000)
  {
    QuotientIs(x + 0x8000, 0x1_0000, (x + 0x8000) / 0x1_0000);
  }

  lemma Srr32Exact(x: nat)
    requires x + 0x8000_0000 < U64_RANGE
    ensures Srr32(x) == ExactSrr(x, 0x8000_0000)
  {
    QuotientIs(x + 0x8000_0000, 0x1_0000_0000, (x + 0x8000_0000) / 0x1_0000_0000);
  }

  lemma MulBound(a: nat, b: nat, m: nat, n: nat)
    requires a <= m && b <= n
    ensures a * b <= m * n
  {
    MulLe(a, m, b);
    MulLe(b, n, m);
    assert b * m == m * b && n * m == m * n;
  }

  /** In the large branch the rounded-down product times the inverse still fits 64 bits. */
  lemma LargeProductFits(delta: nat, weight: nat, inv: nat, q: nat)
    requires delta < ULONG_RANGE && weight < ULONG_RANGE && inv < ULONG_RANGE
    requires weight * inv <= PRODUCT_BOUND
    requires q * 0x1_0000 <= delta * weight + 0x8000
    ensures q * inv + 0x8000 < U64_RANGE
  {
    MulLe(q * 0x1_0000, delta * weight + 0x8000, inv);
    MulBound(delta, weight * inv, WMULT_CONST, PRODUCT_BOUND);
    Reassociate(delta, weight, inv, q);
  }

  lemma Reassociate(delta: int, weight: int, inv: int, q: int)
    ensures q * 0x1_0000 * inv == 0x1_0000 * (q * inv)
    ensures (delta * weight + 0x8000) * inv == delta * (weight * inv) + 0x8000 * inv
  {
    assert delta * weight * inv == delta * (weight * inv);
  }

  /** No 64-bit operation wraps on the function's domain, so the result is the exact fixed-point one. */
  lemma NoProductWraps(delta: nat, weight: nat, inv: nat)
    requires delta < ULONG_RANGE && weight < ULONG_RANGE && inv < ULONG_RANGE
    requires weight * inv <= PRODUCT_BOUND
    ensures Scaled(delta, weight, inv) == Exact(delta, weight, inv)
  {
    hide Srr16, Srr32, ExactSrr;
    MulBound(delta, weight, WMULT_CONST, WMULT_CONST);
    var tmp := delta * weight;
    assert Wrap64(tmp) == tmp;
    if tmp > WMULT_CONST {
      Srr16Exact(tmp);
      LargeProductFits(delta, weight, inv, Srr16(tmp));
      Srr16Exact(Srr16(tmp) * inv);
    } else {
      MulBound(tmp, inv, WMULT_CONST, WMULT_CONST);
      Srr32Exact(tmp * inv);
    }
  }

  /** The domain: a weight not above the divisor, with the inverse this function caches. */
  lemma LazyInverseIsInDomain(weight: nat, divisor: nat)
    requires weight <= divisor && 0 < divisor < WMULT_CONST
    ensures weight * LazyInverse(divisor) <= PRODUCT_BOUND
  {
    LazyInverseIsRounded(divisor);
    var inv := LazyInverse(divisor);
    assert inv * (divisor + 1) <= 2 * ULONG_RANGE;
    MulLe(weight, divisor + 1, inv);
    assert (divisor + 1) * inv == inv * (divisor + 1);
  }

  /**
   Fixed-point accuracy before the clamp: the error of `result * 2^32` against
   `delta * weight * inv` is at most 2^31, plus `2^15 * inv` when the product is
   rounded to 16 fewer bits first.
   */
  lemma FixedPointError(delta: nat, weight: nat, inv: nat)
    requires delta < ULONG_RANGE && weight < ULONG_RANGE && inv < ULONG_RANGE
    requires weight * inv <= PRODUCT_BOUND
    ensures
      var e := Scaled(delta, weight, inv) * ULONG_RANGE - delta * weight * inv;
      var bound := 0x8000_0000 + (if delta * weight > WMULT_CONST then 0x8000 * inv else 0);
      -bound <= e <= bound
  {
    hide Scaled, ExactSrr;
    NoProductWraps(delta, weight, inv);
    if delta * weight > WMULT_CONST {
      LargeExact(delta * weight, inv);
    } else {
      SmallExact(delta * weight, inv);
    }
  }

  lemma SmallExact(tmp: nat, inv: nat)
    ensures -0x8000_0000 <= ExactSrr(tmp * inv, 0x8000_0000) * ULONG_RANGE - tmp * inv <= 0x8000_0000
  {
    var x := tmp * inv;
    var q := ExactSrr(x, 0x8000_0000);
    hide ExactSrr;
    assert q * (2 * 0x8000_0000) == q * ULONG_RANGE;
  }

  lemma LargeExact(tmp: nat, inv: nat)
    ensures var e := ExactSrr(ExactSrr(tmp, 0x8000) * inv, 0x8000) * ULONG_RANGE - tmp * inv;
            -(0x8000_0000 + 0x8000 * inv) <= e <= 0x8000_0000 + 0x8000 * inv
  {
    var q := ExactSrr(tmp, 0x8000);
    var r := ExactSrr(q * inv, 0x8000);
    hide ExactSrr;
    LargeBranchError(tmp, inv, q, r);
  }

  lemma LargeBranchError(tmp: int, inv: nat, q: int, r: int)
    requires tmp - 0x8000 <= q * 0x1_0000 <= tmp + 0x8000
    requires q * inv - 0x8000 <= r * 0x1_0000 <= q * inv + 0x8000
    ensures tmp * inv - 0x8000 * inv - 0x8000_0000 <= r * ULONG_RANGE <= tmp * inv + 0x8000 * inv + 0x8000_0000
  {
    MulLe(tmp - 0x8000, q * 0x1_0000, inv);
    MulLe(q * 0x1_0000, tmp + 0x8000, inv);
    Distribute(tmp, 0x8000, q, inv);
  }

  lemma Distribute(t: int, h: int, q: int, inv: int)
    ensures (t - h) * inv == t * inv - h * inv
    ensures (t + h) * inv == t * inv + h * inv
    ensures q * 0x1_0000 * inv == 0x1_0000 * (q * inv)
  {
  }

  /**
   End to end, against the division the inverse stands for: with the lazily computed
   inverse, `result` differs from `delta * weight / (divisor + 1)` by at most half a unit,
   plus a relative error of 2^-33, plus `inv / 2^17` in the large branch. While
   `delta * weight` fits 32 bits the result is within one of that quotient.
   */
  lemma QuotientError(delta: nat, weight: nat, divisor: nat)
    requires delta < ULONG_RANGE && weight <= divisor && 0 < divisor < WMULT_CONST
    ensures
      var inv := LazyInverse(divisor);
      var tmp, r := delta * weight, Scaled(delta, weight, inv);
      var bound := ULONG_RANGE + (if tmp > WMULT_CONST then 0x1_0000 * inv else 0) + tmp;
      -((divisor + 1) * bound) <= 2 * ULONG_RANGE * (r * (divisor + 1) - tmp) <= (divisor + 1) * bound
      && (tmp <= WMULT_CONST ==> (r - 1) * (divisor + 1) < tmp < (r + 1) * (divisor + 1))
  {
    var inv := LazyInverse(divisor);
    var tmp, r, w1 := delta * weight, Scaled(delta, weight, inv), divisor + 1;
    LazyInverseIsRounded(divisor);
    LazyInverseIsInDomain(weight, divisor);
    FixedPointError(delta, weight, inv);
    var bound := ULONG_RANGE + (if tmp > WMULT_CONST then 0x1_0000 * inv else 0);
    hide Scaled, LazyInverse;
    CombineErrors(tmp, r, inv, w1, bound);
  }

  lemma CombineErrors(tmp: int, r: int, inv: int, w1: int, bound: int)
    requires w1 > 0 && tmp >= 0 && bound >= 0
    requires -bound <= 2 * (r * ULONG_RANGE - tmp * inv) <= bound
    requires -w1 <= 2 * (inv * w1 - ULONG_RANGE) <= w1
    ensures -(w1 * (bound + tmp)) <= 2 * ULONG_RANGE * (r * w1 - tmp) <= w1 * (bound + tmp)
    ensures bound <= ULONG_RANGE && tmp < ULONG_RANGE ==> (r - 1) * w1 < tmp < (r + 1) * w1
  {
    var x, y := 2 * (r * ULONG_RANGE - tmp * inv), 2 * (inv * w1 - ULONG_RANGE);
    MulLe(x, bound, w1);
    MulLe(-bound, x, w1);
    MulLe(y, w1, tmp);
    MulLe(-w1, y, tmp);
    SumOfErrors(tmp, r, inv, w1);
    Negate(bound, w1);
    Negate(w1, tmp);
    assert w1 * (bound + tmp) == bound * w1 + w1 * tmp;
    if bound <= ULONG_RANGE && tmp < ULONG_RANGE {
      MulLe(bound + tmp, 2 * ULONG_RANGE - 1, w1);
      assert (bound + tmp) * w1 == bound * w1 + w1 * tmp;
      assert (r - 1) * w1 == r * w1 - w1 && (r + 1) * w1 == r * w1 + w1;
    }
  }

  lemma SumOfErrors(tmp: int, r: int, inv: int, w1: int)
    ensures 2 * (r * ULONG_RANGE - tmp * inv) * w1 + 2 * (inv * w1 - ULONG_RANGE) * tmp
         == 2 * ULONG_RANGE * (r * w1 - tmp)
  {
    assert (r * ULONG_RANGE - tmp * inv) * w1 == ULONG_RANGE * (r * w1) - tmp * inv * w1;
    assert (inv * w1 - ULONG_RANGE) * tmp == tmp * inv * w1 - ULONG_RANGE * tmp;
  }

  lemma Negate(a: int, b: int)
    ensures -a * b == -(a * b)
  {
  }

  /** A `load_weight` as `set_load_weight` fills it for nice levels -20 to 19, from its two tables. */
  function NiceLevel(k: nat): (nat, nat)
    requires k < 40
  {
    match k
    case 0 => (88761, 48388)
    case 1 => (71755, 59856)
    case 2 => (56483, 76040)
    case 3 => (46273, 92818)
    case 4 => (36291, 118348)
    case 5 => (29154, 147320)
    case 6 => (23254, 184698)
    case 7 => (18705, 229616)
    case 8 => (14949, 287308)
    case 9 => (11916, 360437)
    case 10 => (9548, 449829)
    case 11 => (7620, 563644)
    case 12 => (6100, 704093)
    case 13 => (4904, 875809)
    case 14 => (3906, 1099582)
    case 15 => (3121, 1376151)
    case 16 => (2501, 1717300)
    case 17 => (1991, 2157191)
    case 18 => (1586, 2708050)
    case 19 => (1277, 3363326)
    case 20 => (1024, 4194304)
    case 21 => (820, 5237765)
    case 22 => (655, 6557202)
    case 23 => (526, 8165337)
    case 24 => (423, 10153587)
    case 25 => (335, 12820798)
    case 26 => (272, 15790321)
    case 27 => (215, 19976592)
    case 28 => (172, 24970740)
    case 29 => (137, 31350126)
    case 30 => (110, 39045157)
    case 31 => (87, 49367440)
    case 32 => (70, 61356676)
    case 33 => (56, 76695844)
    case 34 => (45, 95443717)
    case 35 => (36, 119304647)
    case 36 => (29, 148102320)
    case 37 => (23, 186737708)
    case 38 => (18, 238609294)
    case _ => (15, 286331153)
  }

  /**
   Every tabulated inverse is within one of `2^32 / weight`, and both uses of it (with the
   task's own weight and with the nice-0 weight 1024) stay in the domain of the error bounds.
   */
  lemma TableInversesAreAccurate(k: nat)
    requires k < 40
    ensures
      var (w, m) := NiceLevel(k);
      (m - 1) * w < ULONG_RANGE < (m + 1) * w && w * m <= PRODUCT_BOUND && 1024 * m <= PRODUCT_BOUND
  {
  }
}
