/** Facts about multiplication and Euclidean division used by the proofs. */
module Arith {

  function Min(a: int, b: int): int { if a <= b then a else b }

  lemma MulMono(a: nat, b: nat, n: nat)
    requires a <= b
    ensures a * n <= b * n
  {
    assert b * n == a * n + (b - a) * n;
  }

  lemma MulStrict(a: nat, b: nat, n: nat)
    requires a < b
    ensures a * n + n <= b * n
  {
    MulMono(a + 1, b, n);
    assert (a + 1) * n == a * n + n;
  }

  lemma DivUnique(a: nat, n: nat, q: nat, r: nat)
    requires n > 0 && a == q * n + r && r < n
    ensures a / n == q
  {
    var q' := a / n;
    assert a == q' * n + a % n;
    if q' < q {
      MulStrict(q', q, n);
    } else if q' > q {
      MulStrict(q, q', n);
    }
  }

  lemma ModUnique(a: nat, n: nat, q: nat, r: nat)
    requires n > 0 && a == q * n + r && r < n
    ensures a % n == r
  {
    DivUnique(a, n, q, r);
    assert a == (a / n) * n + a % n;
  }

  /** A multiple of a multiple of `a` is a multiple of `a`. */
  lemma MultipleOfMultiple(a: nat, n: nat, k: nat)
    requires a > 0 && n % a == 0
    ensures (k * n) % a == 0
  {
    var p := n / a;
    assert n == p * a;
    assert k * n == (k * p) * a;
    ModUnique(k * n, a, k * p, 0);
  }

  /** The difference of two multiples of `a` is a multiple of `a`. */
  lemma DiffOfMultiples(a: nat, x: nat, y: nat)
    requires a > 0 && y <= x && x % a == 0 && y % a == 0
    ensures (x - y) % a == 0
  {
    var p, q := x / a, y / a;
    assert x == p * a && y == q * a;
    if p < q {
      MulStrict(p, q, a);
    }
    assert x - y == (p - q) * a;
    ModUnique(x - y, a, p - q, 0);
  }
  /**
   * The ceiling quotient `c = (a + n - 1) / n` is the least count of
   * `n`-sized blocks that covers `a`: `a <= c * n < a + n`, and it is 0
   * exactly for `a == 0`.
   */
  lemma CeilBounds(a: nat, n: nat)
    requires n > 0
    ensures var c := (a + n - 1) / n;
            a <= c * n < a + n && (c == 0 <==> a == 0)
  {
    var c := (a + n - 1) / n;
    assert a + n - 1 == c * n + (a + n - 1) % n;
    if c > 0 {
      MulMono(1, c, n);
    }
  }
}
