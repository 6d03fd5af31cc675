/** What a cover's interest comes to, in figures: what is owed after how long, and how much of the debt a payment
    retires, whether an operation makes it or the market does. */
module Interest {
  import opened Options
  import opened Arithmetic
  import opened Prices
  import opened Ledgers
  import opened Matching
  import opened Settlement
  import Ops = Operations

  // ---------- the rate ----------

  /** A rate is read off its price in parts of 10^15 a year: the last three digits of the ratio do not count. */
  lemma RateIs(ratio: nat, age: nat)
    ensures RateNumerator(ratio, age) == ratio / 1000 * age
  {
    DivBounds(ratio, 1000);
    DivAtMost(MAX_SHARES * ratio, PRECISION, ratio / 1000 + 1);
    DivAtLeast(MAX_SHARES * ratio, PRECISION, ratio / 1000);
    if ToQuote(MAX_SHARES, ratio) == ratio / 1000 + 1 {
      DivBounds(MAX_SHARES * ratio, PRECISION);
    }
  }

  /** Interest accrues from one period to the next as over both at once. */
  lemma AccrualAdds(ratio: nat, first: nat, next: nat)
    ensures RateNumerator(ratio, first + next) == RateNumerator(ratio, first) + RateNumerator(ratio, next)
  {
    RateIs(ratio, first);
    RateIs(ratio, next);
    RateIs(ratio, first + next);
  }

  /** So the interest owed for two periods is that of the one and of the other, but for a unit that
      truncating twice may lose. */
  lemma InterestAdds(principal: nat, ratio: nat, first: nat, next: nat)
    ensures var owed := (age: nat) => InterestOwed(principal, RateNumerator(ratio, age), RATE_DENOMINATOR);
      owed(first) + owed(next) <= owed(first + next) <= owed(first) + owed(next) + 1
  {
    AccrualAdds(ratio, first, next);
    SharesAdd(principal, RateNumerator(ratio, first), RateNumerator(ratio, next), RATE_DENOMINATOR);
  }

  lemma SharesAdd(principal: nat, x: nat, y: nat, d: nat)
    requires d > 0
    ensures principal * x / d + principal * y / d <= principal * (x + y) / d <= principal * x / d + principal * y / d + 1
  {
    var p, q := principal * x, principal * y;
    assert principal * (x + y) == p + q;
    DivSum(p, q, d);
  }

  lemma DivSum(p: nat, q: nat, d: nat)
    requires d > 0
    ensures p / d + q / d <= (p + q) / d <= p / d + q / d + 1
  {
    DivBounds(p, d);
    DivBounds(q, d);
    DivBounds(p + q, d);
    SumWithin(p / d, q / d, (p + q) / d, p, q, d);
  }

  lemma SumWithin(i: nat, j: nat, k: nat, p: nat, q: nat, d: nat)
    requires i * d <= p < i * d + d && j * d <= q < j * d + d && k * d <= p + q < k * d + d
    ensures i + j <= k <= i + j + 1
  {
    assert (i + j) * d == i * d + j * d;
    assert (i + j + 2) * d == (i + j) * d + 2 * d;
    assert (k + 1) * d == k * d + d;
    CancelLess(i + j, k + 1, d);
    CancelLess(k, i + j + 2, d);
  }

  // ---------- what is owed ----------

  /** How long a cover has been open: its term began shortPeriod before its expiration. */
  function OpenFor(now: nat, shortPeriod: int, expiration: int): nat {
    var start := expiration - shortPeriod;
    if now <= start then 0 else now - start
  }

  /** The debt of a cover: its principal, and on it the rate's share for the part of a year of 31_536_000 seconds
      that it has been open. */
  lemma DebtIs(m: Market, o: Order)
    ensures CoverDebt(m, o) ==
      o.balance + o.balance * (o.interest.ratio / 1000 * OpenFor(m.now, m.shortPeriod, o.expiration)) / (1_000_000_000_000_000 * 31_536_000)
  {
    RateIs(o.interest.ratio, Age(m, o));
    assert Age(m, o) == OpenFor(m.now, m.shortPeriod, o.expiration);
  }

  /** A cover just opened owes its principal; one with a rate owes more the longer it is open, and never less. */
  lemma DebtGrows(m: Market, o: Order, later: nat)
    requires m.now <= later
    ensures m.now <= o.expiration - m.shortPeriod ==> CoverDebt(m, o) == o.balance
    ensures o.balance <= CoverDebt(m, o) <= CoverDebt(m.(now := later), o)
  {
    var n := m.(now := later);
    RateIs(o.interest.ratio, Age(m, o));
    RateIs(o.interest.ratio, Age(n, o));
    MulMono(Age(m, o), Age(n, o), o.interest.ratio / 1000);
    MulMono(Rate(m, o), Rate(n, o), o.balance);
    DivMono(o.balance * Rate(m, o), o.balance * Rate(n, o), RATE_DENOMINATOR);
    ZeroRate(m, o);
  }

  lemma ZeroRate(m: Market, o: Order)
    ensures Age(m, o) == 0 ==> CoverDebt(m, o) == o.balance
  {
  }

  /** After a year it owes the principal's share at its rate on top. */
  lemma DebtAfterAYear(m: Market, o: Order)
    requires m.now == o.expiration - m.shortPeriod + 31_536_000
    ensures CoverDebt(m, o) == o.balance + o.balance * (o.interest.ratio / 1000) / 1_000_000_000_000_000
  {
    var share := o.balance * (o.interest.ratio / 1000);
    DebtIs(m, o);
    assert o.balance * (o.interest.ratio / 1000 * 31_536_000) == share * 31_536_000;
    ShareOfYear(share);
  }

  lemma ShareOfYear(share: nat)
    ensures share * 31_536_000 / (1_000_000_000_000_000 * 31_536_000) == share / 1_000_000_000_000_000
  {
    var q := share / 1_000_000_000_000_000;
    DivBounds(share, 1_000_000_000_000_000);
    DivAtLeast(share * 31_536_000, 1_000_000_000_000_000 * 31_536_000, q);
    DivBounds(share * 31_536_000, 1_000_000_000_000_000 * 31_536_000);
  }

  // ---------- the cover a short opens ----------

  /** A cover as the engine loads it. */
  function Loaded(k: OrderKey, r: Collateral): Order {
    Order(CoverOrder, k, r.payoff, None, r.collateral, r.interest, r.expiration)
  }

  /** A short that sells something leaves a cover that owes what it sold and nothing on it yet, at the short's rate and
      for the full term; its call price is where two thirds of what was put up for it buy what was sold. */
  lemma NewCover(b: Book, m: Market, o: Order, f: Fill)
    requires f.shortCollateral <= o.balance && f.bidPaid > 0 && PayShort(b, m, o, f).Some? && m.quote > m.base
    ensures var put := ShortGives(m, o, f.shortCollateral) + f.askPaid;
      var k := CoverKeyOf(m, o, f.bidPaid, put).value;
      var was, r := CollateralAt(b.l, k), CollateralAt(PayShort(b, m, o, f).value.l, k);
      && k.owner == o.key.owner && k.price.quote == m.quote && k.price.base == m.base
      && k.price.ratio * (put * 2 / 3) <= f.bidPaid * PRECISION < (k.price.ratio + 1) * (put * 2 / 3)
      && r.collateral == was.collateral + put && r.payoff == was.payoff + f.bidPaid && r.interest == o.key.price
      && CoverDebt(m, Loaded(k, r)) == r.payoff
      && forall later: nat :: later >= m.now ==> OpenFor(later, m.shortPeriod, r.expiration) == later - m.now
  {
    var put := ShortGives(m, o, f.shortCollateral) + f.askPaid;
    var k := CoverKeyOf(m, o, f.bidPaid, put).value;
    Ops.CallPriceBuysDebt(f.bidPaid, m.quote, put, m.base);
    ZeroRate(m, Loaded(k, CollateralAt(PayShort(b, m, o, f).value.l, k)));
  }

  /** A cover that moves takes its rate and its term along, with what the payment or the addition has left of it. */
  lemma TermsTravel(e: Ops.Evaluation, k: OrderKey, amount: int, newPrice: Option<Price>, permitted: bool, c: Ops.Config)
    requires Ops.EvaluateCover(e, k, amount, newPrice, permitted, c).Some?
    ensures k in e.ledger.collateral && amount >= 0
    ensures var r, n := e.ledger.collateral[k], Ops.EvaluateCover(e, k, amount, newPrice, permitted, c).value;
      var rest := r.(payoff := r.payoff - Ops.PrincipalPaid(r, amount, c));
      if rest.payoff == 0 then CollateralAt(n.ledger, k) == NO_COLLATERAL && Get(n.balance, k.price.base) == Get(Paid(e, k, amount), k.price.base) + r.collateral
      else Ops.Landing(k, rest, newPrice).Some? && CollateralAt(n.ledger, Ops.Landing(k, rest, newPrice).value) == rest
  {
  }

  /** The running totals after paying for a cover. */
  function Paid(e: Ops.Evaluation, k: OrderKey, amount: int): map<AssetId, int> {
    e.balance[k.price.quote := Get(e.balance, k.price.quote) - amount]
  }

  lemma TermsTravelOn(e: Ops.Evaluation, k: OrderKey, amount: int)
    requires Ops.EvaluateAddCollateral(e, k, amount).Some?
    ensures k in e.ledger.collateral && amount >= 0
    ensures var rest := e.ledger.collateral[k].(collateral := e.ledger.collateral[k].collateral + amount);
      && Ops.Landing(k, rest, None).Some?
      && CollateralAt(Ops.EvaluateAddCollateral(e, k, amount).value.ledger, Ops.Landing(k, rest, None).value) == rest
  {
  }

  // ---------- what a payment retires ----------

  /** A part payment x at n/d interest retires the least principal that makes up x with the interest on it. */
  lemma RetiresLeast(x: nat, n: nat, d: nat)
    requires d > 0
    ensures var p := x - InterestPaid(x, n, d);
      && 0 <= p <= x
      && (p - 1) * (d + n) < x * d <= p * (d + n)
  {
    var paid := InterestPaid(x, n, d);
    InterestWithin(x, n, d);
    DivBounds(x * n, d + n);
    var p := x - paid;
    assert x * (d + n) == x * d + x * n;
    assert x * (d + n) == p * (d + n) + paid * (d + n);
    assert (p - 1) * (d + n) == p * (d + n) - (d + n);
  }

  /** In figures, for a cover of the market: all of the principal where the payment makes up the debt, and
      otherwise the least that makes up the payment with the interest on it. */
  lemma MarketRetires(m: Market, o: Order, received: nat)
    ensures var p := PrincipalOf(m, o, received);
      var year, n := 1_000_000_000_000_000 * 31_536_000, o.interest.ratio / 1000 * OpenFor(m.now, m.shortPeriod, o.expiration);
      && (received >= o.balance + o.balance * n / year ==> p == o.balance)
      && (received < o.balance + o.balance * n / year ==> (p - 1) * (year + n) < received * year <= p * (year + n))
  {
    DebtIs(m, o);
    RateIs(o.interest.ratio, Age(m, o));
    RetiresLeast(received, Rate(m, o), RATE_DENOMINATOR);
  }

  /** A payment by an operation retires just what the market would at that time. */
  lemma PaysLikeTheMarket(m: Market, o: Order, r: Collateral, amount: nat, c: Ops.Config)
    requires r.payoff == o.balance && r.interest == o.interest && r.expiration == o.expiration
    requires c.now == m.now && c.shortPeriod == m.shortPeriod
    ensures Ops.PrincipalPaid(r, amount, c) == PrincipalOf(m, o, amount)
  {
    assert Ops.Accrued(r, c) == Rate(m, o);
  }

  /** And so retires, in figures. */
  lemma OperationRetires(r: Collateral, amount: nat, c: Ops.Config)
    ensures var p := Ops.PrincipalPaid(r, amount, c);
      var year, n := 1_000_000_000_000_000 * 31_536_000, r.interest.ratio / 1000 * OpenFor(c.now, c.shortPeriod, r.expiration);
      && (amount >= r.payoff + r.payoff * n / year ==> p == r.payoff)
      && (amount < r.payoff + r.payoff * n / year ==> (p - 1) * (year + n) < amount * year <= p * (year + n))
  {
    var m := Market(1, 0, None, c.now, c.shortPeriod, 0);
    var o := Order(CoverOrder, OrderKey(NO_PRICE, 0), r.payoff, None, r.collateral, r.interest, r.expiration);
    PaysLikeTheMarket(m, o, r, amount, c);
    MarketRetires(m, o, amount);
  }

  /** A thousand million at ten per cent, a year old, and a payment three over the principal. */
  lemma TenPerCentForAYear()
    ensures var m := Market(1, 0, None, 31_536_000, 31_536_000, 0);
      var o := Order(CoverOrder, OrderKey(Price(PRECISION, 1, 0), 7), 1_000_000_000, None, 0, Price(PRECISION / 10, 1, 0), 31_536_000);
      && CoverDebt(m, o) == 1_100_000_000
      && PrincipalOf(m, o, 1_000_000_003) == 909_090_912
  {
    var m := Market(1, 0, None, 31_536_000, 31_536_000, 0);
    var o := Order(CoverOrder, OrderKey(Price(PRECISION, 1, 0), 7), 1_000_000_000, None, 0, Price(PRECISION / 10, 1, 0), 31_536_000);
    DebtAfterAYear(m, o);
    MarketRetires(m, o, 1_000_000_003);
  }
}
