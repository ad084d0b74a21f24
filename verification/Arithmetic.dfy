/** Facts about multiplication, quotients and remainders. */
module Arithmetic {

  lemma MulMonotone(a: nat, b: nat, k: nat)
    ensures a <= b ==> k * a <= k * b
  {
  }

  lemma QuotientUnique(q: nat, r: nat, q2: nat, r2: nat, m: nat)
    requires r < m && r2 < m && q * m + r == q2 * m + r2
    ensures q == q2 && r == r2
  {
    MulMonotone(q + 1, q2, m);
    MulMonotone(q2 + 1, q, m);
  }

  lemma DivModUnique(q: nat, r: nat, m: nat)
    requires r < m
    ensures (q * m + r) / m == q && (q * m + r) % m == r
  {
    var a := q * m + r;
    QuotientUnique(q, r, a / m, a % m, m);
  }

  lemma RemainderShift(k: nat, r: nat, m: nat)
    requires 0 < m
    ensures (k * m + r) % m == r % m
  {
    var q := k + r / m;
    assert k * m + r == q * m + r % m;
    DivModUnique(q, r % m, m);
  }

  lemma RemainderOfRemainder(x: nat, k: nat, m: nat)
    requires 0 < m && 0 < k
    ensures 0 < k * m && x % (k * m) % m == x % m
  {
    MulMonotone(1, k, m);
    var r, q := x % (k * m), x / (k * m);
    assert x == q * (k * m) + r;
    assert q * (k * m) == (q * k) * m;
    RemainderShift(q * k, r, m);
  }

  /** What fits behind x in its block of m fits in the larger block of k * m. */
  lemma NestedRoom(x: nat, k: nat, m: nat, c: nat)
    requires 0 < m && 0 < k && x % m + c <= m
    ensures 0 < k * m && x % (k * m) + c <= k * m
  {
    RemainderOfRemainder(x, k, m);
    var r := x % (k * m);
    var q := r / m;
    assert r == m * q + r % m;
    if k <= q {
      MulMonotone(k, q, m);
      assert false;
    }
    MulMonotone(q + 1, k, m);
  }

  /** Moving on inside a block of m keeps the quotient. */
  lemma AddInside(x: nat, k: nat, m: nat)
    requires 0 < m && x % m + k < m
    ensures (x + k) / m == x / m && (x + k) % m == x % m + k
  {
    var q, r := x / m, x % m;
    assert x == q * m + r;
    DivModUnique(q, r + k, m);
  }

  lemma MultiplesApart(a: nat, b: nat, m: nat)
    ensures a * m < b * m ==> a * m + m <= b * m
  {
    MulMonotone(b, a, m);
    MulMonotone(a + 1, b, m);
  }

  lemma SumOfMultiples(a: nat, b: nat, m: nat)
    requires 0 < m
    ensures (a * m + b * m) % m == 0
  {
    DivModUnique(a + b, 0, m);
  }

  lemma Multiple(x: nat, m: nat)
    requires 0 < m && x % m == 0
    ensures x == x / m * m
  {
  }

  lemma AddMultiples(x: nat, y: nat, m: nat)
    requires 0 < m && x % m == 0 && y % m == 0
    ensures (x + y) % m == 0 && (x < y ==> x + m <= y)
  {
    var a, b := x / m, y / m;
    Multiple(x, m);
    Multiple(y, m);
    SumOfMultiples(a, b, m);
    MultiplesApart(a, b, m);
  }

  lemma MultipleOfMultiple(x: nat, k: nat, m: nat)
    requires 0 < m && 0 < k && k * m > 0 && x % (k * m) == 0
    ensures x % m == 0
  {
    RemainderOfRemainder(x, k, m);
  }

  lemma SubtractMultiples(x: nat, y: nat, m: nat)
    requires 0 < m && x % m == 0 && (x + y) % m == 0
    ensures y % m == 0
  {
    RemainderShift(x / m, y, m);
    assert x == x / m * m;
  }

  /** Taking one u off x takes one off the number of pieces of u that cover it. */
  lemma CeilNext(x: nat, u: nat)
    requires 0 < u <= x
    ensures (x + u - 1) / u == (x - u + u - 1) / u + 1
  {
    var q, r := (x - 1) / u, (x - 1) % u;
    assert x - 1 == q * u + r;
    DivModUnique(q + 1, r, u);
    assert (q + 1) * u + r == x + u - 1;
  }

  lemma CeilOne(x: nat, u: nat)
    requires 0 < x <= u
    ensures (x + u - 1) / u == 1
  {
    DivModUnique(1, x - 1, u);
  }
}
