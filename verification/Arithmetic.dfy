/** Division facts the other modules need, kept apart so that their proofs stay small. */
module Arithmetic {
  lemma MulAtLeast(t: int, k: int)
    requires t > 0 && k >= 1
    ensures t * k >= t
  {
  }

  lemma DivUnique(x: int, t: int, q: int, m: int)
    requires t > 0 && 0 <= m < t && x == t * q + m
    ensures x / t == q && x % t == m
  {
    var p := x / t;
    assert x == t * p + x % t;
    assert t * (q - p) == t * q - t * p && t * (p - q) == t * p - t * q;
    if q > p { MulAtLeast(t, q - p); }
    if q < p { MulAtLeast(t, p - q); }
  }

  /** How quotient and remainder move when the dividend grows by one. */
  lemma DivStep(n: nat, t: int)
    requires t >= 2
    ensures (n + 1) % t == (if n % t == t - 1 then 0 else n % t + 1)
    ensures (n + 1) / t == n / t + (if n % t == t - 1 then 1 else 0)
  {
    var q, m := n / t, n % t;
    assert n == t * q + m;
    if m == t - 1 {
      assert t * (q + 1) == t * q + t;
      DivUnique(n + 1, t, q + 1, 0);
    } else {
      DivUnique(n + 1, t, q, m + 1);
    }
  }

  lemma DivSmall(n: nat, t: int)
    requires n < t
    ensures n % t == n && n / t == 0
  {
    DivUnique(n, t, 0, n);
  }

  lemma ModSmaller(x: nat, t: int)
    requires t > 0
    ensures 0 <= x % t <= x
  {
    if x < t { DivSmall(x, t); }
  }

  lemma Distribute(c: int, q: int)
    ensures c * (q + 1) == c * q + c
  {
  }

  lemma MulSign(b: int, q: int)
    requires b > 0
    ensures q <= 0 ==> b * q <= 0
    ensures q >= 1 ==> b * q >= b
    ensures q >= 0 ==> b * q >= q
  {
  }

  /** Quotient and remainder of natural numbers, with the bounds used everywhere. */
  lemma DivBounds(x: nat, b: int)
    requires b > 0
    ensures x == b * (x / b) + x % b
    ensures 0 <= x % b < b && 0 <= x / b <= x
    ensures x >= b <==> x / b >= 1
  {
    MulSign(b, x / b);
  }

  lemma Remainder(x: int, b: int)
    requires b > 0
    ensures x - (x / b) * b == x % b && 0 <= x % b < b
  {
  }

  lemma DivAtLeastTwo(x: nat, b: int)
    requires b > 0
    ensures x / b >= 2 <==> x >= 2 * b
  {
    DivBounds(x, b);
    MulSign(b, x / b - 1);
    MulSign(b, 2 - x / b);
    assert b * (x / b - 1) == b * (x / b) - b && b * (2 - x / b) == 2 * b - b * (x / b);
  }

  /** Dividing by at least two makes a positive number smaller. */
  lemma DivSmaller(x: nat, b: int)
    requires b >= 2 && x > 0
    ensures 0 <= x / b < x && 0 <= x % b < b
  {
    DivBounds(x, b);
    MulAtLeastTwice(b, x / b);
  }

  lemma MulAtLeastTwice(b: int, q: nat)
    requires b >= 2
    ensures b * q >= 2 * q
  {
    MulSign(b - 1, q);
    assert b * q == (b - 1) * q + q;
  }

  lemma DivBelow(x: nat, a: int, b: int)
    requires a > 0
    ensures x < a * b <==> x / a < b
    ensures 0 <= x / a && 0 <= x % a < a
  {
    DivBounds(x, a);
    MulSign(a, x / a - b);
    MulSign(a, b - x / a);
    assert a * (x / a - b) == a * (x / a) - a * b;
    assert a * (b - x / a) == a * b - a * (x / a);
  }

  lemma DivAtLeast(x: nat, b: int, k: int)
    requires b > 0 && k * b <= x
    ensures k <= x / b
  {
    DivBelow(x, b, k);
  }

  /** The digits of b * (p * u + v) + m, regrouped. */
  lemma Regroup(b: int, p: int, u: int, v: int, m: int)
    requires b > 0 && p > 0 && 0 <= v < p && 0 <= m < b
    ensures p * b > 0 && 0 <= b * v + m < p * b
    ensures b * (p * u + v) + m == (p * b) * u + (b * v + m)
  {
    MulSign(p, b);
    MulSign(b, v);
    MulSign(b, p - 1 - v);
    assert b * (p - 1 - v) == p * b - b - b * v;
    assert b * (p * u + v) == b * (p * u) + b * v;
    assert b * (p * u) == (p * b) * u;
  }

  /** Dividing by b and then by p is dividing by their product; the remainders nest the same way. */
  lemma Nested(x: nat, b: int, p: int)
    requires b > 0 && p > 0
    ensures p * b > 0
    ensures (x / b) / p == x / (p * b)
    ensures (x % (p * b)) / b == (x / b) % p && (x % (p * b)) % b == x % b
  {
    var q, m := x / b, x % b;
    DivBounds(x, b);
    var u, v := q / p, q % p;
    DivBounds(q, p);
    NestedParts(x, b, p, u, v, m);
  }

  lemma NestedParts(x: nat, b: int, p: int, u: int, v: int, m: int)
    requires b > 0 && p > 0 && 0 <= v < p && 0 <= m < b
    requires x == b * (p * u + v) + m
    ensures p * b > 0
    ensures u == x / (p * b) && (x % (p * b)) / b == v && (x % (p * b)) % b == m
  {
    Regroup(b, p, u, v, m);
    DivUnique(x, p * b, u, b * v + m);
    DivUnique(b * v + m, b, v, m);
  }

  lemma MultipleOfProduct(x: nat, a: int, b: int)
    requires a > 0 && b > 0 && a * b > 0 && x % (a * b) == 0
    ensures x % a == 0
  {
    DivBounds(x, a * b);
    Associate(a, b, x / (a * b));
    DivUnique(x, a, b * (x / (a * b)), 0);
  }

  lemma Associate(a: int, b: int, c: int)
    ensures (a * b) * c == a * (b * c)
  {
  }

  lemma SubMultiple(x: nat, p: int, k: int)
    requires p > 0 && x % p == 0
    ensures (x - k * p) % p == 0
  {
    DivBounds(x, p);
    assert p * (x / p - k) == p * (x / p) - k * p;
    DivUnique(x - k * p, p, x / p - k, 0);
  }

  lemma ModDouble(x: nat, p: int)
    requires p > 0
    ensures x % (2 * p) == 2 * ((x / 2) % p) + x % 2
  {
    var h := x / 2;
    DivBounds(h, p);
    assert (2 * p) * (h / p) == 2 * (p * (h / p));
    DivUnique(x, 2 * p, h / p, 2 * (h % p) + x % 2);
  }
}
