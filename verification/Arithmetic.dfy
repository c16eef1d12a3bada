/** Division with remainder, and powers. */
module Arithmetic {
  lemma {:induction false} Split(x: nat, m: nat) returns (q: nat, r: nat)
    requires m > 0
    ensures x == q * m + r && r < m && r == x % m
  {
    q, r := x / m, x % m;
  }

  lemma {:induction false} RemainderUnchanged(k: nat, modulus: nat, x: nat)
    requires modulus > 0
    ensures (k * modulus + x) % modulus == x % modulus
  {
    var q, r := x / modulus, x % modulus;
    assert k * modulus + x == (k + q) * modulus + r;
    RemainderIs(k * modulus + x, modulus, k + q, r);
  }

  lemma {:induction false} RemainderIs(x: nat, modulus: nat, q: nat, r: nat)
    requires modulus > 0 && x == q * modulus + r && r < modulus
    ensures x % modulus == r
  {
    QuotientUnique(x / modulus, x % modulus, q, r, modulus);
  }

  lemma {:induction false} QuotientUnique(p: int, r: int, q: int, t: int, m: int)
    requires p * m + r == q * m + t && 0 <= r < m && 0 <= t < m
    ensures p == q && r == t
  {
    NotGreater(p, r, q, t, m);
    NotGreater(q, t, p, r, m);
  }

  lemma {:induction false} NotGreater(p: int, r: int, q: int, t: int, m: int)
    requires p * m + r == q * m + t && 0 <= r < m && 0 <= t < m
    ensures p <= q
  {
    var d := p - q;
    assert d * m == p * m - q * m;
    if d > 0 {
      AtLeast(d, m);
    }
  }

  lemma {:induction false} AtLeast(d: int, m: int)
    requires d > 0 && m > 0
    ensures d * m >= m
  {
  }

  lemma {:induction false} SmallRemainder(x: nat, modulus: nat)
    requires x < modulus
    ensures x % modulus == x
  {
  }

  function Power(base: nat, e: nat): nat {
    if e == 0 then 1 else base * Power(base, e - 1)
  }

  lemma {:induction false} PowerIsPositive(base: nat, e: nat)
    requires base > 0
    ensures Power(base, e) > 0
  {
    if e > 0 {
      PowerIsPositive(base, e - 1);
    }
  }
}
