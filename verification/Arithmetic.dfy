/** Division facts the solver needs spelled out. */
module Arithmetic {

  lemma Multiple(x: int, d: int)
    requires d > 0
    ensures (x >= 1 ==> x * d >= d) && (x <= -1 ==> x * d <= -d)
  {
  }

  /** Quotient and remainder are unique. */
  lemma Divided(n: int, d: int, q: int, r: int)
    requires n == q * d + r && 0 <= r < d
    ensures n / d == q && n % d == r
  {
    var x := n / d - q;
    assert x * d == r - n % d;
    Multiple(x, d);
  }

  /** The four base-64 digits of a number below 64 to the fourth. */
  lemma Digits64(n: int, d3: int, d2: int, d1: int, d0: int)
    requires 0 <= d3 < 64 && 0 <= d2 < 64 && 0 <= d1 < 64 && 0 <= d0 < 64
    requires n == ((d3 * 64 + d2) * 64 + d1) * 64 + d0
    ensures n / 262144 == d3 && n / 4096 % 64 == d2 && n / 64 % 64 == d1 && n % 64 == d0
    ensures n / 4096 == d3 * 64 + d2 && n / 64 == (d3 * 64 + d2) * 64 + d1
  {
    Divided(n, 64, (d3 * 64 + d2) * 64 + d1, d0);
    Divided(n, 4096, d3 * 64 + d2, d1 * 64 + d0);
    Divided(n, 262144, d3, (d2 * 64 + d1) * 64 + d0);
    Divided((d3 * 64 + d2) * 64 + d1, 64, d3 * 64 + d2, d1);
    Divided(d3 * 64 + d2, 64, d3, d2);
  }

  lemma Digits64Exist(n: int)
    requires 0 <= n < 64 * 64 * 64 * 64
    ensures n == ((n / 262144 * 64 + n / 4096 % 64) * 64 + n / 64 % 64) * 64 + n % 64
    ensures 0 <= n / 262144 < 64
  {
    var a, b, c := n / 64, n / 64 / 64, n / 64 / 64 / 64;
    Digits64(n, c, b % 64, a % 64, n % 64);
  }
}
