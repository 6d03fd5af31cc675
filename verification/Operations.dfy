/** What one operation of a transaction does to the pending state and to the running totals of the
    evaluation: None where it throws. Signatures and names are guards the model leaves open. */
module Operations {
  import opened Arithmetic
  import opened Options
  import opened Prices
  import opened Ledgers
  import opened Yields

  datatype Config = Config(
    now: nat,
    negativeVotes: bool,
    minBurn: nat,
    maxSlate: nat,
    maxShares: nat,
    accountFee: nat,
    delegateFee: nat,
    assetFee: nat,
    shortPeriod: int,
    maxRate: nat,
    medians: map<AssetId, Positive>)

  /** The pending state, and what is only settled at the end of the transaction. */
  datatype Evaluation = Evaluation(
    ledger: Ledger,
    balance: map<AssetId, int>,
    votes: map<AccountId, int>,
    requiredFees: int,
    altFees: int)

  datatype Operation =
    | Deposit(condition: Condition, amount: int)
    | Withdraw(condition: Condition, amount: int, permitted: bool)
    | Claim(condition: Condition, amount: int, permitted: bool)
    | Burn(asset: AssetId, amount: int, hasMessage: bool, account: AccountId)
    | DefineSlate(id: nat, delegates: seq<AccountId>)
    | Bid(key: OrderKey, amount: int, permitted: bool)
    | Ask(key: OrderKey, amount: int, permitted: bool)
    | Short(key: OrderKey, amount: int, permitted: bool)
    | Cover(key: OrderKey, amount: int, newPrice: Option<Price>, permitted: bool)
    | AddCollateral(key: OrderKey, amount: int)
    | RegisterAccount(payRate: nat, permitted: bool)
    | UpdateAccount(account: AccountId, payRate: nat, permitted: bool)
    | WithdrawPay(account: AccountId, amount: int, permitted: bool)
    | CreateAsset(issuer: AccountId, maxSupply: int, permitted: bool)
    | UpdateAsset(asset: AssetId, issuer: AccountId, permitted: bool)
    | IssueAsset(asset: AssetId, amount: int, permitted: bool)

  // ---------- the running totals ----------

  /** add_balance, and sub_balance of the negative. */
  function Move(e: Evaluation, a: AssetId, d: int): Evaluation {
    e.(balance := e.balance[a := Get(e.balance, a) + d])
  }

  function Votes(votes: map<AccountId, int>, slate: seq<AccountId>, amount: int, negatives: bool): map<AccountId, int>
    decreases |slate|
  {
    if slate == [] then votes
    else
      var d := Abs(slate[0]);
      var change := if negatives && slate[0] < 0 then -amount else amount;
      Votes(votes[d := Get(votes, d) + change], slate[1..], amount, negatives)
  }

  function AdjustVote(e: Evaluation, slate: nat, amount: int, c: Config): Option<Evaluation> {
    if slate == 0 then Some(e)
    else if slate !in e.ledger.slates then None
    else Some(e.(votes := Votes(e.votes, e.ledger.slates[slate], amount, c.negativeVotes)))
  }

  /** A deposit or withdrawal of stake, which only the base asset carries. */
  function AdjustStake(e: Evaluation, k: Condition, amount: int, c: Config): Option<Evaluation> {
    if k.asset == 0 then AdjustVote(e, k.slate, amount, c) else Some(e)
  }

  // ---------- balances ----------

  /** Storing a balance record whose amount changes by `change`, with the votes and the running total
      that follow it. */
  function ChangeBalance(e: Evaluation, k: Condition, r: Balance, change: int, c: Config): Option<Evaluation> {
    var f :- AdjustStake(e, k, change, c);
    Some(Move(f.(ledger := f.ledger.(balances := f.ledger.balances[k := r])), k.asset, -change))
  }

  /** The deposit date of a balance is the average over what was put in. */
  function AverageDate(r: Balance, amount: nat, now: nat): nat {
    if r.amount == 0 then now else (r.deposited * r.amount + now * amount) / (r.amount + amount)
  }

  /** The average lies between the old date and now. */
  lemma AverageDateBetween(r: Balance, amount: nat, now: nat)
    requires amount > 0 && r.deposited <= now
    ensures AverageDate(r, amount, now) <= now
    ensures r.amount > 0 ==> r.deposited <= AverageDate(r, amount, now)
  {
    if r.amount > 0 {
      Weighted(r.deposited, now, r.amount, amount);
      DivAtMost(r.deposited * r.amount + now * amount, r.amount + amount, now);
      DivAtLeast(r.deposited * r.amount + now * amount, r.amount + amount, r.deposited);
    }
  }

  /** And each date counts for what was put in on it. */
  lemma AverageDateWeighs(r: Balance, amount: nat, now: nat)
    requires amount > 0 && r.amount > 0
    ensures var total, date := r.amount + amount, AverageDate(r, amount, now);
      date * total <= r.deposited * r.amount + now * amount < (date + 1) * total
  {
    DivBounds(r.deposited * r.amount + now * amount, r.amount + amount);
    var date := AverageDate(r, amount, now);
    assert (date + 1) * (r.amount + amount) == date * (r.amount + amount) + (r.amount + amount);
  }

  lemma Weighted(x: nat, y: nat, v: nat, w: nat)
    requires x <= y
    ensures x * (v + w) <= x * v + y * w <= y * (v + w)
  {
    MulMono(x, y, v);
    MulMono(x, y, w);
    assert x * (v + w) == x * v + x * w && y * (v + w) == y * v + y * w;
  }

  function BalanceOf(l: Ledger, k: Condition): Balance {
    if k in l.balances then l.balances[k] else Balance(0, 0, false)
  }

  function EvaluateDeposit(e: Evaluation, k: Condition, amount: int, c: Config): Option<Evaluation> {
    if amount <= 0 then None
    else
      var r := BalanceOf(e.ledger, k);
      ChangeBalance(e, k, Balance(r.amount + amount, AverageDate(r, amount, c.now), r.genesis), amount, c)
  }

  /** The yield moves from the asset's fees into the balance, whose age starts again. */
  function PayYield(e: Evaluation, k: Condition, y: nat, now: nat): Evaluation
    requires k.asset in e.ledger.assets && k in e.ledger.balances
  {
    var s, r := e.ledger.assets[k.asset], e.ledger.balances[k];
    if y == 0 then e
    else e.(ledger := e.ledger.(
      assets := e.ledger.assets[k.asset := s.(fees := s.fees - y)],
      balances := e.ledger.balances[k := Balance(r.amount + y, now, r.genesis)]))
  }

  function YieldDue(s: Asset, r: Balance, now: nat): Option<nat> {
    if s.IsMarketIssued() then Yield(r.amount, s.fees, s.supply, now - r.deposited) else Some(0)
  }

  /** A withdrawal on which a yield of y falls due. */
  function WithdrawPaying(e: Evaluation, k: Condition, amount: int, y: nat, c: Config): Option<Evaluation> {
    if amount <= 0 || k !in e.ledger.balances || amount > e.ledger.balances[k].amount || k.asset !in e.ledger.assets then None
    else
      var f := PayYield(e, k, y, c.now);
      var r := f.ledger.balances[k];
      ChangeBalance(f, k, r.(amount := r.amount - amount), -amount, c)
  }

  function EvaluateWithdraw(e: Evaluation, k: Condition, amount: int, permitted: bool, c: Config): Option<Evaluation> {
    if k !in e.ledger.balances || !permitted || k.asset !in e.ledger.assets then None
    else
      var y :- YieldDue(e.ledger.assets[k.asset], e.ledger.balances[k], c.now);
      WithdrawPaying(e, k, amount, y, c)
  }

  function EvaluateClaim(e: Evaluation, k: Condition, amount: int, permitted: bool, c: Config): Option<Evaluation> {
    if k !in e.ledger.balances || k.asset != 0 || !e.ledger.balances[k].genesis
       || e.ledger.balances[k].amount != amount || !permitted then None
    else ChangeBalance(e, k, e.ledger.balances[k].(amount := 0), -amount, c)
  }

  function EvaluateBurn(e: Evaluation, a: AssetId, amount: int, hasMessage: bool, account: AccountId, c: Config): Option<Evaluation> {
    if (hasMessage && a != 0) || (a == 0 && amount < c.minBurn) || a !in e.ledger.assets
       || e.ledger.assets[a].IsMarketIssued() || (account != 0 && Abs(account) !in e.ledger.accounts) then None
    else
      var s := e.ledger.assets[a];
      Some(Move(e.(ledger := e.ledger.(assets := e.ledger.assets[a := s.(supply := s.supply - amount)])), a, -amount))
  }

  predicate AreDelegates(l: Ledger, slate: seq<AccountId>) {
    forall d :: d in slate ==> Abs(d) in l.accounts && l.accounts[Abs(d)].delegate.Some?
  }

  function EvaluateDefineSlate(e: Evaluation, id: nat, slate: seq<AccountId>, c: Config): Option<Evaluation> {
    if |slate| > c.maxSlate then None
    else if id in e.ledger.slates then Some(e)
    else if !AreDelegates(e.ledger, slate) then None
    else Some(e.(ledger := e.ledger.(slates := e.ledger.slates[id := slate])))
  }

  // ---------- orders ----------

  /** The order's balance after the operation; a negative amount withdraws from an order that has it. */
  function OrderAfter(orders: map<OrderKey, nat>, k: OrderKey, amount: int): Option<nat> {
    if amount == 0 || (amount < 0 && (k !in orders || -amount > orders[k])) then None
    else Some(Get(orders, k) + amount)
  }

  function EvaluateBid(e: Evaluation, k: OrderKey, amount: int, permitted: bool): Option<Evaluation> {
    if k.price.ratio == 0 || !permitted || k.price.quote !in e.ledger.assets then None
    else
      var r :- OrderAfter(e.ledger.bids, k, amount);
      Some(Move(e.(ledger := e.ledger.(bids := e.ledger.bids[k := r])), k.price.quote, -amount))
  }

  function EvaluateAsk(e: Evaluation, k: OrderKey, amount: int, permitted: bool): Option<Evaluation> {
    if k.price.ratio == 0 || !permitted || k.price.base !in e.ledger.assets then None
    else
      var r :- OrderAfter(e.ledger.asks, k, amount);
      Some(Move(e.(ledger := e.ledger.(asks := e.ledger.asks[k := r])), k.price.base, -amount))
  }

  function EvaluateShort(e: Evaluation, k: OrderKey, amount: int, permitted: bool, c: Config): Option<Evaluation> {
    if k.price.ratio >= c.maxRate || k.price.quote <= k.price.base || k.price.base != 0 || 0 !in e.ledger.assets
       || !MarketIssued(e.ledger, k.price.quote) || (amount < 0 && !permitted) then None
    else
      var r :- OrderAfter(e.ledger.shorts, k, amount);
      Some(Move(e.(ledger := e.ledger.(shorts := e.ledger.shorts[k := r])), 0, -amount))
  }

  // ---------- covers ----------

  /** payoff in the quote asset over two thirds of the collateral: the quotient of two assets, in
      which the asset with the larger id is the quote. */
  function CallPrice(payoff: nat, quote: AssetId, collateral: nat, base: AssetId): Option<Price> {
    var called := collateral * 2 / 3;
    if quote == base || (quote > base && called == 0) || (quote < base && payoff == 0) then None
    else if quote > base then Some(Price(payoff * PRECISION / called, quote, base))
    else Some(Price(called * PRECISION / payoff, base, quote))
  }

  /** The call price is the ratio at which two thirds of the collateral buy the debt, rounded down. */
  lemma CallPriceBuysDebt(payoff: nat, quote: AssetId, collateral: nat, base: AssetId)
    requires quote > base
    ensures CallPrice(payoff, quote, collateral, base).None? <==> collateral <= 1
    ensures collateral > 1 ==> var p := CallPrice(payoff, quote, collateral, base).value;
      && p.quote == quote && p.base == base
      && p.ratio * (collateral * 2 / 3) <= payoff * PRECISION < (p.ratio + 1) * (collateral * 2 / 3)
  {
    if collateral > 1 {
      var called := collateral * 2 / 3;
      DivBounds(payoff * PRECISION, called);
      assert (payoff * PRECISION / called + 1) * called == payoff * PRECISION / called * called + called;
    }
  }

  function Accrued(r: Collateral, c: Config): nat {
    var elapsed := c.now - (r.expiration - c.shortPeriod);
    RateNumerator(r.interest.ratio, if elapsed < 0 then 0 else elapsed)
  }

  /** The part of a payment that retires debt; the rest is interest. */
  function PrincipalPaid(r: Collateral, amount: nat, c: Config): int {
    var n := Accrued(r, c);
    if amount >= r.payoff + InterestOwed(r.payoff, n, RATE_DENOMINATOR) then r.payoff
    else amount - InterestPaid(amount, n, RATE_DENOMINATOR)
  }

  /** Moving a cover to the place its new call price gives it, over whatever is there. */
  function Relocated(l: Ledger, k: OrderKey, rest: Collateral, landing: OrderKey): Ledger {
    l.(collateral := l.collateral[k := NO_COLLATERAL][landing := rest])
  }

  /** The higher of the requested and the computed price. */
  function Landing(k: OrderKey, rest: Collateral, newPrice: Option<Price>): Option<OrderKey> {
    var call :- CallPrice(rest.payoff, k.price.quote, rest.collateral, k.price.base);
    Some(OrderKey(if newPrice.Some? && call.Less(newPrice.value) then newPrice.value else call, k.owner))
  }

  /** The cover lands no lower than either price, and at one of them. */
  lemma LandingIsHigher(k: OrderKey, rest: Collateral, newPrice: Option<Price>)
    requires Landing(k, rest, newPrice).Some?
    ensures var call := CallPrice(rest.payoff, k.price.quote, rest.collateral, k.price.base).value;
      var at := Landing(k, rest, newPrice).value;
      && at.owner == k.owner && (at.price == call || Some(at.price) == newPrice)
      && !at.price.Less(call) && (newPrice.Some? ==> !at.price.Less(newPrice.value))
  {
  }

  /** A payment out of the transaction on a debt of asset q: principal leaves the supply, interest goes
      to the fees. */
  function PayDebt(e: Evaluation, q: AssetId, principal: int, interest: int): Evaluation
    requires q in e.ledger.assets
  {
    var s := e.ledger.assets[q];
    var paid := s.(supply := s.supply - principal, fees := s.fees + interest);
    Move(e.(ledger := e.ledger.(assets := e.ledger.assets[q := paid])), q, -(principal + interest))
  }

  /** A cover that is still owed moves to its new place; paid in full, it gives its collateral back to
      the transaction. */
  function Settle(e: Evaluation, k: OrderKey, rest: Collateral, landing: Option<OrderKey>): Evaluation {
    if landing.Some? then e.(ledger := Relocated(e.ledger, k, rest, landing.value))
    else Move(e.(ledger := e.ledger.(collateral := e.ledger.collateral[k := NO_COLLATERAL])), k.price.base, rest.collateral)
  }

  /** What is left of a cover, and where it goes: nowhere once nothing is owed. */
  datatype Relocation = Relocation(rest: Collateral, landing: Option<OrderKey>)

  function AfterPayment(k: OrderKey, r: Collateral, principal: int, newPrice: Option<Price>): Option<Relocation>
    requires principal <= r.payoff
  {
    var rest := r.(payoff := r.payoff - principal);
    if rest.payoff == 0 then Some(Relocation(rest, None))
    else
      var landing :- Landing(k, rest, newPrice);
      Some(Relocation(rest, Some(landing)))
  }

  function PayCover(e: Evaluation, k: OrderKey, amount: int, principal: int, m: Relocation): Evaluation
    requires k.price.quote in e.ledger.assets
  {
    Settle(PayDebt(e, k.price.quote, principal, amount - principal), k, m.rest, m.landing)
  }

  function EvaluateCover(e: Evaluation, k: OrderKey, amount: int, newPrice: Option<Price>, permitted: bool, c: Config): Option<Evaluation> {
    if k.price.ratio == 0 || (amount == 0 && newPrice.None?) || amount < 0 || !permitted
       || k !in e.ledger.collateral || k.price.quote !in e.ledger.assets then None
    else
      var r := e.ledger.collateral[k];
      var principal := PrincipalPaid(r, amount, c);
      if principal < 0 || amount - principal < 0 || r.payoff - principal < 0 || r.interest.quote <= r.interest.base then None
      else
        var m :- AfterPayment(k, r, principal, newPrice);
        Some(PayCover(e, k, amount, principal, m))
  }

  function AfterAdding(k: OrderKey, r: Collateral, amount: nat): Option<Relocation> {
    var rest := r.(collateral := r.collateral + amount);
    var landing :- Landing(k, rest, None);
    Some(Relocation(rest, Some(landing)))
  }

  function EvaluateAddCollateral(e: Evaluation, k: OrderKey, amount: int): Option<Evaluation> {
    if k.price.ratio == 0 || amount <= 0 || k !in e.ledger.collateral then None
    else
      var m :- AfterAdding(k, e.ledger.collateral[k], amount);
      Some(Settle(Move(e, k.price.base, -amount), k, m.rest, m.landing))
  }

  // ---------- accounts ----------

  function DelegateFee(payRate: nat, c: Config): int {
    c.delegateFee * payRate / 100
  }

  function StoreAccountRecord(e: Evaluation, id: AccountId, r: Account, fee: int): Evaluation {
    e.(ledger := e.ledger.(accounts := e.ledger.accounts[id := r]), requiredFees := e.requiredFees + fee)
  }

  function EvaluateRegisterAccount(e: Evaluation, payRate: nat, permitted: bool, c: Config): Option<Evaluation> {
    if !permitted then None
    else
      var id := e.ledger.lastAccount + 1;
      var f := e.(ledger := e.ledger.(lastAccount := id));
      Some(if payRate <= 100
           then StoreAccountRecord(f, id, Account(Some(Delegate(0, payRate, 0))), c.accountFee + DelegateFee(payRate, c))
           else StoreAccountRecord(f, id, Account(None), c.accountFee))
  }

  function EvaluateUpdateAccount(e: Evaluation, id: AccountId, payRate: nat, permitted: bool, c: Config): Option<Evaluation> {
    if id !in e.ledger.accounts || !permitted then None
    else
      match e.ledger.accounts[id].delegate
      case Some(r) =>
        if r.payRate < payRate || payRate > 100 then None
        else Some(StoreAccountRecord(e, id, Account(Some(r.(payRate := payRate))), 0))
      case None =>
        Some(if payRate <= 100
             then StoreAccountRecord(e, id, Account(Some(Delegate(0, payRate, 0))), DelegateFee(payRate, c))
             else e)
  }

  function EvaluateWithdrawPay(e: Evaluation, account: AccountId, amount: int, permitted: bool): Option<Evaluation> {
    var id := Abs(account);
    if amount <= 0 || id !in e.ledger.accounts || e.ledger.accounts[id].delegate.None? || !permitted
       || e.ledger.accounts[id].delegate.value.pay < amount then None
    else
      var r := e.ledger.accounts[id].delegate.value;
      Some(Move(e.(votes := e.votes[id := Get(e.votes, id) - amount],
                   ledger := e.ledger.(accounts := e.ledger.accounts[id := Account(Some(r.(pay := r.pay - amount)))])), 0, amount))
  }

  // ---------- assets ----------

  function EvaluateCreateAsset(e: Evaluation, issuer: AccountId, maxSupply: int, permitted: bool, c: Config): Option<Evaluation> {
    var id := e.ledger.lastAsset + 1;
    if maxSupply <= 0 || maxSupply > c.maxShares || id in e.ledger.assets || !permitted
       || (issuer != MARKET_ISSUED_ASSET && issuer !in e.ledger.accounts) then None
    else
      Some(e.(ledger := e.ledger.(lastAsset := id, assets := e.ledger.assets[id := Asset(issuer, 0, maxSupply, 0)]),
              requiredFees := e.requiredFees + c.assetFee))
  }

  function EvaluateUpdateAsset(e: Evaluation, a: AssetId, issuer: AccountId, permitted: bool): Option<Evaluation> {
    if a !in e.ledger.assets || e.ledger.assets[a].issuer !in e.ledger.accounts || issuer !in e.ledger.accounts || !permitted then None
    else Some(e.(ledger := e.ledger.(assets := e.ledger.assets[a := e.ledger.assets[a].(issuer := issuer)])))
  }

  function EvaluateIssueAsset(e: Evaluation, a: AssetId, amount: int, permitted: bool): Option<Evaluation> {
    if amount <= 0 || a !in e.ledger.assets || e.ledger.assets[a].issuer !in e.ledger.accounts || !permitted
       || e.ledger.assets[a].supply + amount > e.ledger.assets[a].maxSupply then None
    else
      var s := e.ledger.assets[a];
      Some(Move(e.(ledger := e.ledger.(assets := e.ledger.assets[a := s.(supply := s.supply + amount)])), a, amount))
  }

  function Apply(e: Evaluation, op: Operation, c: Config): Option<Evaluation> {
    match op
    case Deposit(k, amount) => EvaluateDeposit(e, k, amount, c)
    case Withdraw(k, amount, permitted) => EvaluateWithdraw(e, k, amount, permitted, c)
    case Claim(k, amount, permitted) => EvaluateClaim(e, k, amount, permitted, c)
    case Burn(a, amount, hasMessage, account) => EvaluateBurn(e, a, amount, hasMessage, account, c)
    case DefineSlate(id, delegates) => EvaluateDefineSlate(e, id, delegates, c)
    case Bid(k, amount, permitted) => EvaluateBid(e, k, amount, permitted)
    case Ask(k, amount, permitted) => EvaluateAsk(e, k, amount, permitted)
    case Short(k, amount, permitted) => EvaluateShort(e, k, amount, permitted, c)
    case Cover(k, amount, newPrice, permitted) => EvaluateCover(e, k, amount, newPrice, permitted, c)
    case AddCollateral(k, amount) => EvaluateAddCollateral(e, k, amount)
    case RegisterAccount(payRate, permitted) => EvaluateRegisterAccount(e, payRate, permitted, c)
    case UpdateAccount(id, payRate, permitted) => EvaluateUpdateAccount(e, id, payRate, permitted, c)
    case WithdrawPay(account, amount, permitted) => EvaluateWithdrawPay(e, account, amount, permitted)
    case CreateAsset(issuer, maxSupply, permitted) => EvaluateCreateAsset(e, issuer, maxSupply, permitted, c)
    case UpdateAsset(a, issuer, permitted) => EvaluateUpdateAsset(e, a, issuer, permitted)
    case IssueAsset(a, amount, permitted) => EvaluateIssueAsset(e, a, amount, permitted)
  }
}
