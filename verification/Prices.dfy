/** Fixed-point prices: multiplying an amount by a price in either direction, truncating; and the
    interest formulas of a cover. Amounts are unbounded integers. */
module Prices {
  import opened Arithmetic

  const MAX_SHARES: nat := 1_000_000_000_000_000
  const PRECISION: nat := MAX_SHARES * 1000
  const SECONDS_PER_YEAR: nat := 365 * 24 * 60 * 60

  type Positive = r: nat | r > 0 witness 1

  datatype Price = Price(ratio: nat, quote: int, base: int)
  {
    /** Prices order by pair first, then by ratio. */
    predicate Less(p: Price) {
      if quote != p.quote then quote < p.quote
      else if base != p.base then base < p.base
      else ratio < p.ratio
    }
  }

  // ---------- amounts at a price ----------

  /** A base amount at ratio r, in quote units. */
  function ToQuote(x: nat, r: nat): nat {
    x * r / PRECISION
  }

  /** A quote amount at ratio r, in base units. */
  function ToBase(y: nat, r: nat): nat
    requires r > 0
  {
    y * PRECISION / r
  }

  /** Converting there and back never gains, from either side. */
  lemma RoundTrips(x: nat, r: nat)
    requires r > 0
    ensures ToBase(ToQuote(x, r), r) <= x && ToQuote(ToBase(x, r), r) <= x
  {
    DivBounds(x * r, PRECISION);
    DivAtMost(ToQuote(x, r) * PRECISION, r, x);
    DivBounds(x * PRECISION, r);
    DivAtMost(ToBase(x, r) * r, PRECISION, x);
  }

  lemma QuoteMono(x: nat, y: nat, r: nat, s: nat)
    requires x <= y && r <= s
    ensures ToQuote(x, r) <= ToQuote(y, s)
  {
    assert x * r <= y * s by {
      MulMono(x, y, r);
      MulMono(r, s, y);
    }
    DivMono(x * r, y * s, PRECISION);
  }

  lemma BaseMono(x: nat, y: nat, r: nat)
    requires x <= y && r > 0
    ensures ToBase(x, r) <= ToBase(y, r)
  {
    MulMono(x, y, PRECISION);
    DivMono(x * PRECISION, y * PRECISION, r);
  }

  /** An amount no worth less than its conversion: whatever fits in quote fits back in base. */
  lemma FitsBack(y: nat, x: nat, r: nat)
    requires r > 0 && y <= ToQuote(x, r)
    ensures ToBase(y, r) <= x
  {
    BaseMono(y, ToQuote(x, r), r);
    RoundTrips(x, r);
  }

  lemma FitsForth(x: nat, y: nat, r: nat)
    requires r > 0 && x <= ToBase(y, r)
    ensures ToQuote(x, r) <= y
  {
    QuoteMono(x, ToBase(y, r), r, r);
    RoundTrips(y, r);
  }

  // ---------- interest ----------

  /** The interest accrued per unit over age seconds, as an exact fraction n / d. */
  function RateNumerator(aprRatio: nat, age: nat): nat {
    ToQuote(MAX_SHARES, aprRatio) * age
  }

  const RATE_DENOMINATOR: nat := MAX_SHARES * SECONDS_PER_YEAR

  function InterestOwed(principal: nat, n: nat, d: nat): nat
    requires d > 0
  {
    principal * n / d
  }

  /** Of a payment x covering principal and the interest on it, the interest part: x - x / (1 + n/d). */
  function InterestPaid(x: nat, n: nat, d: nat): nat
    requires d > 0
  {
    x * n / (d + n)
  }

  /** A payment no larger than the debt, cleared of the truncation in it. */
  lemma DebtBound(x: nat, principal: nat, n: nat, d: nat)
    requires d > 0 && x <= principal + InterestOwed(principal, n, d)
    ensures x * d <= principal * (d + n)
  {
    var owed := InterestOwed(principal, n, d);
    DivBounds(principal * n, d);
    MulMono(x, principal + owed, d);
    assert (principal + owed) * d == principal * d + owed * d;
    assert principal * (d + n) == principal * d + principal * n;
  }

  lemma PaidWithinOwed(x: nat, principal: nat, n: nat, d: nat)
    requires d > 0 && x * d <= principal * (d + n)
    ensures InterestPaid(x, n, d) <= InterestOwed(principal, n, d)
  {
    var paid := InterestPaid(x, n, d);
    DivBounds(x * n, d + n);
    CrossMultiply(paid, d + n, x, n, d, principal);
    DivAtLeast(principal * n, d, paid);
  }

  lemma PrincipalWithin(x: nat, principal: nat, n: nat, d: nat)
    requires d > 0 && x * d <= principal * (d + n)
    ensures x - InterestPaid(x, n, d) <= principal
  {
    var paid := InterestPaid(x, n, d);
    assert x * (d + n) < (principal + paid + 1) * (d + n) by {
      DivBounds(x * n, d + n);
      assert x * (d + n) == x * d + x * n;
      assert (principal + paid + 1) * (d + n) == principal * (d + n) + paid * (d + n) + (d + n);
    }
    CancelLess(x, principal + paid + 1, d + n);
  }

  lemma InterestWithin(x: nat, n: nat, d: nat)
    requires d > 0
    ensures InterestPaid(x, n, d) <= x
  {
    MulMono(n, d + n, x);
    DivAtMost(x * n, d + n, x);
  }

  /** A payment up to the whole debt retires no more principal than there is, pays no more interest
      than is owed, and neither part is negative. */
  lemma PartialPayment(x: nat, principal: nat, n: nat, d: nat)
    requires d > 0 && x <= principal + InterestOwed(principal, n, d)
    ensures 0 <= x - InterestPaid(x, n, d) <= principal
    ensures InterestPaid(x, n, d) <= InterestOwed(principal, n, d)
  {
    DebtBound(x, principal, n, d);
    PaidWithinOwed(x, principal, n, d);
    PrincipalWithin(x, principal, n, d);
    InterestWithin(x, n, d);
  }
}
