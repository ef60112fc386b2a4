/** Facts about division and remainder of natural numbers by a variable divisor. */
module Division {

  lemma MulGap(r: nat, a: nat, b: nat)
    requires a < b
    ensures r * a + r <= r * b
  {
    var k := b - a - 1;
    assert b == a + 1 + k;
    assert r * (a + 1 + k) == r * a + r + r * k;
  }

  lemma DivUnique(x: nat, r: nat, q: nat, m: nat)
    requires r > 0 && x == r * q + m && m < r
    ensures x / r == q && x % r == m
  {
    var d, e := x / r, x % r;
    assert x == r * d + e && e < r;
    if d < q {
      MulGap(r, d, q);
    } else if d > q {
      MulGap(r, q, d);
    }
  }

  /** Adding y to x carries the remainder of x. */
  lemma DivCarries(x: nat, y: nat, r: nat)
    requires r > 0
    ensures (x + y) / r == x / r + (y + x % r) / r
    ensures (x + y) % r == (y + x % r) % r
  {
    var z := y + x % r;
    var q, m := x / r + z / r, z % r;
    assert x == r * (x / r) + x % r;
    assert z == r * (z / r) + m;
    assert r * q == r * (x / r) + r * (z / r);
    DivUnique(x + y, r, q, m);
  }

  lemma DivMonotone(x: nat, y: nat, r: nat)
    requires r > 0 && x <= y
    ensures x / r <= y / r
  {
    DivCarries(x, y - x, r);
  }
}
