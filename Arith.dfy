/** Multiplication facts for the flattened indices `q + n * p` and
    `x + n * y + n * n * z`, which the solver does not find unaided. */
module Arith {

  /** `n * k` is at least `n` away from zero unless `k` is. */
  lemma MulAway(n: int, k: int)
    requires n > 0
    decreases if k > 0 then k else -k
    ensures k > 0 ==> n * k >= n
    ensures k < 0 ==> n * k <= -n
  {
    if k > 1 {
      MulAway(n, k - 1);
      assert n * k == n * (k - 1) + n;
    } else if k < -1 {
      MulAway(n, k + 1);
      assert n * k == n * (k + 1) - n;
    }
  }

  lemma MulMono(n: int, a: int, b: int)
    requires n >= 0
    ensures a <= b ==> n * a <= n * b
  {
    assert n * b == n * a + n * (b - a);
    if a <= b {
      assert n * (b - a) >= 0;
    }
  }

  lemma DivMod(n: int, p: int, q: int)
    requires n > 0 && 0 <= q < n
    ensures (q + n * p) / n == p && (q + n * p) % n == q
  {
    var a := q + n * p;
    var k := a / n - p;
    assert a == n * (a / n) + a % n;
    assert n * (a / n) == n * p + n * k;
    MulAway(n, k);
  }

  lemma DivLess(n: int, a: int, k: int)
    requires n > 0 && 0 <= a < n * k
    ensures 0 <= a / n < k
  {
    assert n * (a / n) + a % n == a;
    MulMono(n, k, a / n);
  }

  lemma FlatIndex(n: int, p: int, q: int)
    requires 0 <= p < n && 0 <= q < n
    ensures 0 <= q + n * p < n * n
    ensures (q + n * p) / n == p && (q + n * p) % n == q
  {
    MulMono(n, p, n - 1);
    MulMono(n, 0, p);
    assert n * (n - 1) == n * n - n;
    DivMod(n, p, q);
  }

  /** Euclidean division: `a` is its remainder plus `n` times its quotient. */
  lemma Split(n: int, a: int)
    requires n > 0
    ensures a == a % n + n * (a / n) && 0 <= a % n < n
  {
  }

  lemma Assoc(n: int)
    ensures n * (n * n) == n * n * n
  {
  }

  /** `n * (a + n * b) == n * a + n * n * b`. */
  lemma Expand(n: int, a: int, b: int)
    ensures n * (a + n * b) == n * a + n * n * b
  {
  }
}
