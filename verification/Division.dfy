/** Quotients and remainders by a variable divisor. */
module Division {
  lemma SmallMod(a: nat, n: nat)
    requires a < n
    ensures a % n == a
  {
  }

  lemma ModAdd(a: nat, n: nat)
    requires n > 0
    ensures (a + n) % n == a % n
  {
    var q, r := a / n, a % n;
    assert a + n == (q + 1) * n + r;
    DivModUnique(a + n, n, q + 1, r);
  }

  lemma DivModUnique(a: int, n: nat, q: int, r: int)
    requires n > 0 && a == q * n + r && 0 <= r < n
    ensures a / n == q && a % n == r
  {
    var q', r' := a / n, a % n;
    assert a == q' * n + r';
    assert (q - q') * n == r' - r;
    if q > q' {
      MulAtLeast(q - q', n);
    } else if q < q' {
      MulAtLeast(q' - q, n);
    }
  }

  lemma MulAtLeast(k: int, n: nat)
    requires k >= 1
    ensures k * n >= n
  {
    assert (k - 1) * n >= 0;
  }

  lemma SameRemainder(a: nat, b: nat, d: nat, n: nat)
    requires n > 0
    ensures (d + a) % n == (d + b) % n <==> (a - b) % n == 0
  {
    var x, y := d + a, d + b;
    var k := x / n - y / n;
    assert x == (x / n) * n + x % n && y == (y / n) * n + y % n;
    assert a - b == k * n + (x % n - y % n);
    if x % n == y % n {
      DivModUnique(a - b, n, k, 0);
    } else if x % n > y % n {
      DivModUnique(a - b, n, k, x % n - y % n);
    } else {
      assert a - b == (k - 1) * n + (n + x % n - y % n);
      DivModUnique(a - b, n, k - 1, n + x % n - y % n);
    }
  }
}
