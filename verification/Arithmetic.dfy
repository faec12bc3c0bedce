/** Division with a variable divisor, which the verifier needs spelled out. */
module Arithmetic {
  lemma Distribute(i: int, p: int)
    ensures (i + 1) * p == i * p + p
  {
  }

  lemma SmallDiv(x: nat, p: nat)
    requires x < p
    ensures x / p == 0
  {
  }

  lemma DivStep(x: nat, p: nat)
    requires 0 < p <= x
    ensures x / p == 1 + (x - p) / p
  {
    var q := (x - p) / p;
    assert x - p == q * p + (x - p) % p;
    assert x == (q + 1) * p + (x - p) % p by { Distribute(q, p); }
    QuotientUnique(x, p, q + 1, (x - p) % p);
  }

  lemma MulMonotone(a: int, b: int, p: nat)
    requires a < b
    ensures a * p + p <= b * p
    decreases b - a
  {
    Distribute(b - 1, p);
    if a < b - 1 { MulMonotone(a, b - 1, p); }
  }

  lemma QuotientUnique(x: nat, p: nat, q: nat, r: nat)
    requires 0 < p && x == q * p + r && r < p
    ensures x / p == q && x % p == r
  {
    var d := x / p;
    assert x == d * p + x % p && 0 <= x % p < p;
    if d < q {
      MulMonotone(d, q, p);
    } else if d > q {
      MulMonotone(q, d, p);
    }
  }

  /** Moving on by at most l positions around a ring of l. */
  lemma ModStep(i: nat, n: nat, l: nat)
    requires n <= l && 0 < l
    ensures (i + n) % l == if i % l + n >= l then i % l + n - l else i % l + n
  {
    var q, r := i / l, i % l;
    assert i == q * l + r;
    if r + n >= l {
      Distribute(q, l);
      QuotientUnique(i + n, l, q + 1, r + n - l);
    } else {
      QuotientUnique(i + n, l, q, r + n);
    }
  }
}
