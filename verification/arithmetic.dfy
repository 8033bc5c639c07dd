/** Facts about products, quotients and remainders that the solver does not find unaided. */
module Arithmetic {

  lemma MulMonotone(a: nat, b: nat, c: nat)
    requires a <= b
    ensures a * c <= b * c
  {}

  /** A digit and a rest below the weight: the larger digit wins whatever the rests are. */
  lemma DigitDominates(x: nat, y: nat, p: nat, r: nat)
    requires x < y && r < p
    ensures x * p + r < y * p
  {
    MulMonotone(x + 1, y, p);
    assert (x + 1) * p == x * p + p;
  }

  lemma HornerStep(d: nat, base: nat, p: nat, v: nat, c: nat)
    ensures d * (base * p) + (v * base + c) == (d * p + v) * base + c
  {
    assert d * (base * p) == (d * p) * base;
  }

  lemma DivModUnique(q: nat, r: nat, m: nat)
    requires r < m
    ensures (q * m + r) / m == q && (q * m + r) % m == r
  {
    var v := q * m + r;
    var k := v / m;
    assert v == k * m + v % m;
    if k < q {
      DigitDominates(k, q, m, v % m);
    } else if q < k {
      DigitDominates(q, k, m, r);
    }
  }

  /** The remainder modulo base*p, one digit at a time. */
  lemma ModStep(v: nat, base: nat, p: nat)
    requires base > 0 && p > 0
    ensures base * p > 0
    ensures v % (base * p) == ((v / base) % p) * base + v % base
  {
    var q, d := v / base, v % base;
    var k, m := q / p, q % p;
    assert v == q * base + d;
    assert q == k * p + m;
    Regroup(k, p, m, base, d);
    DigitDominates(m, p, base, d);
    assert p * base == base * p;
    DivModUnique(k, m * base + d, base * p);
  }

  lemma Regroup(k: nat, p: nat, m: nat, base: nat, d: nat)
    ensures (k * p + m) * base + d == k * (base * p) + (m * base + d)
  {
    assert (k * p + m) * base == (k * p) * base + m * base;
    assert (k * p) * base == k * (base * p);
  }

  lemma QuotientSmaller(v: nat, base: nat)
    requires 2 <= base <= v
    ensures 0 <= v / base < v
    ensures (v / base) * base + v % base == v
  {
    var q := v / base;
    assert v == q * base + v % base;
    if q >= v {
      MulMonotone(v, q, base);
      DigitDominates(1, base, v, 0);
    }
  }
}
