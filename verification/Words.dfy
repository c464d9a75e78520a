/** The machine words of the target: a 32-bit `unsigned long` and a 64-bit `u64`. */
module Words {

  /** One more than the largest `unsigned long`. */
  const ULONG_RANGE := 0x1_0000_0000

  /** One more than the largest `u64`. */
  const U64_RANGE := 0x1_0000_0000_0000_0000

  /** The value an `unsigned long` holds after an operation whose exact result is `x`. */
  function Wrap32(x: int): nat {
    x % ULONG_RANGE
  }

  /** The value a `u64` holds after an operation whose exact result is `x`. */
  function Wrap64(x: int): nat {
    x % U64_RANGE
  }

  /** An `unsigned long` reread as a `long`. */
  function Signed32(x: int): int {
    var u := Wrap32(x);
    if u < 0x8000_0000 then u else u - ULONG_RANGE
  }

  function Min(a: int, b: int): int {
    if a <= b then a else b
  }

  lemma MulLe(x: int, y: int, b: int)
    requires x <= y && 0 <= b
    ensures x * b <= y * b
  {
  }

  lemma DivBounds(a: int, b: int)
    requires b > 0
    ensures a / b * b <= a < a / b * b + b
  {
    assert a == b * (a / b) + a % b;
  }

  /** Unsigned division, with the bracket that characterises it. */
  function Quotient(v: nat, s: nat): (q: nat)
    requires s > 0
    ensures q * s <= v < q * s + s
  {
    DivBounds(v, s);
    v / s
  }

  /** The bracket determines the quotient. */
  lemma QuotientIs(v: nat, s: nat, q: nat)
    requires s > 0
    requires q * s <= v < q * s + s
    ensures Quotient(v, s) == q
  {
    var k := Quotient(v, s);
    assert (k + 1) * s == k * s + s;
    assert (q + 1) * s == q * s + s;
    if k < q {
      MulLe(k + 1, q, s);
    } else if k > q {
      MulLe(q + 1, k, s);
    }
  }

  lemma QuotientBelow(v: nat, s: nat)
    requires s > 0
    ensures Quotient(v, s) <= v
  {
    MulLe(1, s, Quotient(v, s));
  }

  lemma QuotientMonotone(v: nat, w: nat, s: nat)
    requires s > 0 && v <= w
    ensures Quotient(v, s) <= Quotient(w, s)
  {
    var p, q := Quotient(v, s), Quotient(w, s);
    assert (q + 1) * s == q * s + s;
    if q < p {
      MulLe(q + 1, p, s);
    }
  }

  lemma QuotientAtMost(v: nat, s: nat, k: nat)
    requires 0 < s && v < k * s + s
    ensures Quotient(v, s) <= k
  {
    var q := Quotient(v, s);
    assert (k + 1) * s == k * s + s;
    if k < q {
      MulLe(k + 1, q, s);
    }
  }

  lemma QuotientAtLeast(v: nat, s: nat, k: nat)
    requires 0 < s && k * s <= v
    ensures k <= Quotient(v, s)
  {
    var q := Quotient(v, s);
    assert (q + 1) * s == q * s + s;
    if q < k {
      MulLe(q + 1, k, s);
    }
  }
}
