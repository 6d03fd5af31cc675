/** Natural-number arithmetic with products and truncating quotients. */
module Arithmetic {

  function Min(x: nat, y: nat): nat {
    if y < x then y else x
  }

  lemma DivBounds(a: nat, b: nat)
    requires b > 0
    ensures (a / b) * b <= a < (a / b) * b + b
  {
  }

  lemma MulMono(a: nat, b: nat, c: nat)
    requires a <= b
    ensures a * c <= b * c
  {
  }

  lemma DivMono(a: nat, b: nat, d: nat)
    requires a <= b && d > 0
    ensures a / d <= b / d
  {
    DivBounds(a, d);
    DivBounds(b, d);
    if a / d > b / d {
      MulMono(b / d + 1, a / d, d);
    }
  }

  lemma DivAtMost(a: nat, b: nat, q: nat)
    requires b > 0 && a <= q * b
    ensures a / b <= q
  {
    DivBounds(a, b);
    if a / b > q {
      MulMono(q + 1, a / b, b);
    }
  }

  lemma DivAtLeast(a: nat, b: nat, q: nat)
    requires b > 0 && q * b <= a
    ensures q <= a / b
  {
    DivBounds(a, b);
    if q > a / b {
      MulMono(a / b + 1, q, b);
    }
  }

  lemma Cancel(a: nat, b: nat, c: nat)
    requires c > 0 && a * c <= b * c
    ensures a <= b
  {
    if a > b {
      MulMono(b + 1, a, c);
    }
  }

  lemma CancelLess(a: nat, b: nat, c: nat)
    requires a * c < b * c
    ensures a < b
  {
    if a >= b {
      MulMono(b, a, c);
    }
  }

  lemma SwapFactors(a: nat, b: nat, c: nat)
    ensures (a * b) * c == (a * c) * b
  {
  }

  lemma CrossMultiply(p: nat, e: nat, x: nat, n: nat, d: nat, q: nat)
    requires e > 0 && p * e <= x * n && x * d <= q * e
    ensures p * d <= q * n
  {
    MulMono(p * e, x * n, d);
    SwapFactors(p, e, d);
    SwapFactors(x, n, d);
    MulMono(x * d, q * e, n);
    SwapFactors(q, e, n);
    Cancel(p * d, q * n, e);
  }

  lemma ProductNat(a: nat, b: nat)
    ensures 0 <= a * b
  {
  }

  lemma ModWithin(a: nat, m: nat)
    requires m > 0
    ensures a % m <= a && (a < m ==> a % m == a)
  {
  }

  lemma ModIs(x: nat, n: nat, q: nat, r: nat)
    requires r < n && x == q * n + r
    ensures x % n == r
  {
    DivBounds(x, n);
    if q > x / n {
      MulMono(x / n + 1, q, n);
    } else if q < x / n {
      MulMono(q + 1, x / n, n);
    }
  }

  lemma DivMod(a: nat, n: nat)
    requires n > 0
    ensures a == (a / n) * n + a % n
  {
  }

  lemma ModAddTo(x: nat, n: nat, q: nat, r: nat)
    requires 0 < n && r < n + n && x == q * n + r
    ensures x % n == if r < n then r else r - n
  {
    if r < n {
      ModIs(x, n, q, r);
    } else {
      assert (q + 1) * n == q * n + n;
      ModIs(x, n, q + 1, r - n);
    }
  }

  lemma ModAdd(a: nat, d: nat, n: nat)
    requires d < n
    ensures (a + d) % n == if a % n + d < n then a % n + d else a % n + d - n
  {
    DivMod(a, n);
    ModAddTo(a + d, n, a / n, a % n + d);
  }
}
