/** Products, quotients and remainders, where the solver needs a hand. */
module Arithmetic {
  function Pow2(k: nat): (r: nat)
    ensures r > 0
  {
    if k == 0 then 1 else 2 * Pow2(k - 1)
  }

  lemma AtLeast(x: int, s: nat)
    requires x >= 1
    ensures x * s >= s
  {
    assert (x - 1) * s >= 0;
  }

  lemma Multiple(n: nat, q: nat, r: nat, s: nat)
    requires s > 0 && n == q * s + r && r < s && n % s == 0
    ensures r == 0
  {
    Exact(n / s, q, r, s);
  }

  lemma Exact(k: int, q: int, r: int, s: nat)
    requires k * s == q * s + r && 0 <= r < s
    ensures r == 0
  {
    Sub(k, q, s);
    Sub(q, k, s);
    if k > q {
      AtLeast(k - q, s);
    } else if k < q {
      AtLeast(q - k, s);
    }
  }

  lemma Sub(x: int, y: int, s: int)
    ensures (x - y) * s == x * s - y * s
  {
  }

  /** A remainder is what it is. */
  lemma ModIs(n: nat, q: nat, r: nat, s: nat)
    requires s > 0 && n == q * s + r && r < s
    ensures n % s == r
  {
    var k: int, m: int, p: int := n / s, n % s, q;
    assert n == k * s + m;
    Sub(p, k, s);
    Sub(k, p, s);
    if p > k {
      AtLeast(p - k, s);
    } else if p < k {
      AtLeast(k - p, s);
    }
  }

  lemma SumMultiple(a: int, b: int, n: int)
    requires n > 0 && a % n == 0 && b % n == 0
    ensures (a + b) % n == 0 && (a - b) % n == 0
  {
    var i, j := a / n, b / n;
    assert a + b == n * (i + j) && a - b == n * (i - j);
    NoRemainder(i + j, n);
    NoRemainder(i - j, n);
  }

  lemma NoRemainder(i: int, n: int)
    requires n > 0
    ensures (n * i) % n == 0
  {
    var d := i - (n * i) / n;
    assert n * d == (n * i) % n;
    SignOfProduct(n, d);
  }

  lemma SignOfProduct(n: int, d: int)
    requires n > 0
    ensures (d >= 1 ==> n * d >= n) && (d <= -1 ==> n * d <= -n) && (d == 0 ==> n * d == 0)
  {
  }

  lemma GapMultiple(x: nat, y: nat, s: nat)
    requires s > 0 && x % s == 0 && y % s == 0 && x < y
    ensures x + s <= y
  {
    var a: int, b: int := x / s, y / s;
    assert x == a * s && y == b * s;
    Sub(b, a, s);
    Sub(a, b, s);
    if b > a { AtLeast(b - a, s); } else if b < a { AtLeast(a - b, s); }
  }
}
