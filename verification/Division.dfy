/** Floor division by positive divisors, as Python's `//` has it. */
module Division {

  lemma ProductNonNegative(c: int, d: int)
    requires c >= 0 && d > 0
    ensures c * d >= 0
  {
  }

  lemma ScaleStep(a: int, b: int, d: int)
    requires d > 0
    ensures a >= b + 1 ==> a * d >= b * d + d
    ensures a <= b ==> a * d <= b * d
  {
    if a >= b + 1 {
      ProductNonNegative(a - b - 1, d);
      assert (a - b - 1) * d == a * d - b * d - d;
    } else {
      ProductNonNegative(b - a, d);
      assert (b - a) * d == b * d - a * d;
    }
  }

  lemma Divide(n: int, d: int)
    requires d > 0
    ensures n == (n / d) * d + n % d && 0 <= n % d < d
  {
  }

  lemma QuotientUnique(n: int, d: int, q: int, r: int)
    requires d > 0 && n == q * d + r && 0 <= r < d
    ensures n / d == q
  {
    var e, f := n / d, n % d;
    Divide(n, d);
    ScaleStep(e, q, d);
    ScaleStep(q, e, d);
  }

  lemma QuotientMonotone(x: int, y: int, d: int)
    requires d > 0 && x <= y
    ensures x / d <= y / d
  {
    Divide(x, d);
    Divide(y, d);
    ScaleStep(x / d, y / d, d);
  }

  lemma Regroup(p: int, k: int, m: int, fine: int)
    ensures (p * k + m) * fine == p * (k * fine) + m * fine
  {
    Associate(p, k, fine);
  }

  lemma Associate(p: int, k: int, fine: int)
    ensures (p * k) * fine == p * (k * fine)
  {
  }

  /** Dividing by a product is dividing twice. */
  lemma Tower(ts: int, fine: int, k: int)
    requires fine > 0 && k > 0
    ensures k * fine > 0 && ts / (k * fine) == (ts / fine) / k
  {
    var q, r := ts / fine, ts % fine;
    var p, m := q / k, q % k;
    Divide(ts, fine);
    Divide(q, k);
    Regroup(p, k, m, fine);
    ScaleStep(k, m, fine);
    ScaleStep(0, m, fine);
    QuotientUnique(ts, k * fine, p, m * fine + r);
  }

  lemma MultipleOver(q: int, fine: int)
    requires fine > 0
    ensures (q * fine) / fine == q
  {
    QuotientUnique(q * fine, fine, q, 0);
  }
}
