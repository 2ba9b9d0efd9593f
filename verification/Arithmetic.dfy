/** Products, quotients and remainders of unknowns, one step at a time. */
module Arithmetic {

  lemma MulAtLeast(k: int, m: nat)
    requires k >= 1
    ensures k * m >= m
  {
    assert k * m == m + (k - 1) * m;
  }

  lemma ModUnique(n: nat, q: int, r: nat, m: nat)
    requires r < m && n == q * m + r
    ensures n % m == r
  {
    var x, y := n / m, n % m;
    assert n == x * m + y;
    assert (x - q) * m == r - y && (q - x) * m == y - r;
    if x > q {
      MulAtLeast(x - q, m);
    } else if x < q {
      MulAtLeast(q - x, m);
    }
  }

  lemma ModPeriod(n: nat, m: nat)
    requires m > 0
    ensures (n + m) % m == n % m
  {
    ModUnique(n + m, n / m + 1, n % m, m);
  }

  lemma ModSmall(n: nat, m: nat)
    requires n < m
    ensures n % m == n
  {
  }

  lemma MulBound(a: nat, b: nat, x: nat, y: nat)
    requires a <= x && b <= y
    ensures a * b <= x * y
  {
    assert a * b <= x * b <= x * y;
  }

  lemma DivLess(n: nat, y: nat, a: nat)
    requires y > 0 && n < y * a
    ensures n / y < a
  {
    if n / y >= a {
      MulBound(y, a, y, n / y);
    }
  }

  lemma DivAtLeast(n: nat, y: nat, a: nat)
    requires y > 0 && n >= y * a
    ensures n / y >= a
  {
    if n / y < a {
      MulBound(y, n / y + 1, y, a);
    }
  }

  function Pow2(n: nat): nat { if n == 0 then 1 else 2 * Pow2(n - 1) }

  lemma DivModUnique(n: nat, q: nat, r: nat, m: nat)
    requires r < m && n == q * m + r
    ensures n / m == q && n % m == r
  {
    var x := n / m;
    ModUnique(n, q, r, m);
    assert n == x * m + r;
    assert (x - q) * m == 0 && (q - x) * m == 0;
    if x > q {
      MulAtLeast(x - q, m);
    } else if x < q {
      MulAtLeast(q - x, m);
    }
  }

  lemma MulAdds(p: nat, q: nat, m: nat)
    ensures (p + q) * m == p * m + q * m
  {
  }

  lemma DivAdd(y: nat, p: nat, m: nat, product: nat)
    requires m > 0 && product == p * m
    ensures (product + y) / m == p + y / m
  {
    var q, r := y / m, y % m;
    assert y == q * m + r;
    MulAdds(p, q, m);
    DivModUnique(product + y, p + q, r, m);
  }

  lemma DivShift(x: nat, p: nat, m: nat)
    requires m > 0 && p * m <= x
    ensures x / m == p + (x - p * m) / m
  {
    DivAdd(x - p * m, p, m, p * m);
  }
}
