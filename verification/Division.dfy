/** Facts about division and products of natural numbers, stated one step at a time. */
module Division {
  lemma DivBelow(a: nat, d: nat, n: nat)
    requires d > 0
    ensures a / d < n <==> a < n * d
  {
    var q := a / d;
    assert a == q * d + a % d;
    if q < n {
      assert (q + 1) * d <= n * d by { MulMonotone(q + 1, n, d); }
    } else {
      assert n * d <= q * d by { MulMonotone(n, q, d); }
    }
  }

  lemma DivAbove(a: nat, d: nat, n: nat)
    requires d > 0
    ensures a / d >= n <==> a >= n * d
  {
    DivBelow(a, d, n);
  }

  lemma MulMonotone(a: int, b: int, d: nat)
    requires a <= b
    ensures a * d <= b * d
  {}

  /** A number `q*L + r` with `r` strictly between -L and L is a multiple of `L` only if `r` is 0. */
  lemma MultipleOf(t: int, L: nat, q: int, r: int)
    requires L > 0 && t == q * L + r && -(L as int) < r < L
    ensures t % L == 0 <==> r == 0
    ensures r == 0 ==> t / L == q && (t >= 0 <==> q >= 0)
  {
    if r >= 0 {
      DivUnique(t, L, q, r);
    } else {
      DivUnique(t, L, q - 1, r + L);
    }
  }

  lemma DivUnique(t: int, L: nat, q: int, r: int)
    requires L > 0 && 0 <= r < L && t == q * L + r
    ensures t / L == q && t % L == r
  {
    var q', r' := t / L, t % L;
    if q > q' {
      Distribute(q', L);
      MulMonotone(q' + 1, q, L);
    } else if q < q' {
      Distribute(q, L);
      MulMonotone(q + 1, q', L);
    }
  }

  lemma Distribute(a: int, d: nat)
    ensures (a + 1) * d == a * d + d
  {}

  lemma SameFactor(a: nat, b: nat, c: nat)
    requires b == c
    ensures a * b == a * c
  {}

  lemma Associate(a: nat, b: nat, c: nat)
    ensures a * (b * c) == (a * b) * c
  {}

  lemma Distribute2(a: nat, b: nat, d: nat)
    ensures (a + b) * d == a * d + b * d
  {}

  lemma ModDistinct(a: nat, b: nat, n: nat)
    requires n > 0 && 0 < b - a < n
    ensures a % n != b % n
  {
    if a % n == b % n {
      var q := a / n;
      assert b == q * n + (a % n + (b - a));
      if a % n + (b - a) < n {
        DivUnique(b, n, q, a % n + (b - a));
      } else {
        Distribute(q, n);
        DivUnique(b, n, q + 1, a % n + (b - a) - n);
      }
    }
  }
}
