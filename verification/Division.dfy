/** Facts of division that proofs about digits, packets and chunks share. */
module Division {
  lemma MulMono(a: nat, b: nat, m: nat)
    requires a <= b
    ensures a * m <= b * m && m * a <= m * b
  {
  }

  lemma MulLess(q: int, m: nat)
    requires q >= 1
    ensures q * m >= m
  {
  }

  lemma DivUnique(x: nat, m: nat, q: nat, r: nat)
    requires 0 < m && r < m && x == q * m + r
    ensures x / m == q && x % m == r
  {
    SmallMultiple(x / m - q, m, r - x % m);
  }

  lemma SmallMultiple(d: int, m: nat, e: int)
    requires 0 < e + m && e < m && d * m == e
    ensures d == 0
  {
    if d >= 1 {
      MulLess(d, m);
    } else if d <= -1 {
      MulLess(-d, m);
    }
  }

  lemma DivAtLeast(x: nat, d: nat, q: nat)
    requires 0 < d && q * d <= x
    ensures q <= x / d
  {
    var p := x / d;
    assert x < (p + 1) * d;
    if p < q {
      MulMono(p + 1, q, d);
    }
  }

  lemma DivShift(x: nat, m: nat)
    requires 0 < m
    ensures (x + m) / m == x / m + 1
  {
    assert x + m == (x / m + 1) * m + x % m;
    DivUnique(x + m, m, x / m + 1, x % m);
  }

  lemma Quotient(x: nat, b: nat)
    requires 2 <= b
    ensures x == b * (x / b) + x % b
    ensures x < b <==> x / b == 0
    ensures x != 0 ==> x / b < x
  {
    QuotientOf(x, b, x / b, x % b);
  }

  lemma QuotientOf(x: nat, b: nat, q: nat, r: nat)
    requires 2 <= b && x == b * q + r && r < b
    ensures x < b <==> q == 0
    ensures x != 0 ==> q < x
  {
    if q > 0 {
      MulMono(1, q, b);
      MulMono(2, b, q);
    }
  }
}
