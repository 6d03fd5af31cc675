/** What it takes for a transaction to be accepted: what each operation asks of the ledger, of its leave and of the
    configuration, and what is asked of the whole. */
module Acceptance {
  import opened Options
  import opened Prices
  import opened Ledgers
  import opened Operations
  import opened Conservation
  import D = Delegates
  import R = RequiredFees
  import T = Transactions
  import Y = Yields

  // ---------- what an operation asks ----------

  /** Stake in the base asset supports no slate, or one that is known. */
  predicate SlateKnown(l: Ledger, k: Condition) {
    k.asset == 0 && k.slate != 0 ==> k.slate in l.slates
  }

  /** An order grows, or has what is withdrawn from it. */
  predicate OrderHas(orders: map<OrderKey, nat>, k: OrderKey, amount: int) {
    amount > 0 || (amount < 0 && k in orders && -amount <= orders[k])
  }

  /** A yield that falls due is a share of something: not everything of the asset is in its fees. */
  predicate YieldShared(l: Ledger, k: Condition, now: nat)
    requires k in l.balances && k.asset in l.assets
  {
    var s, r := l.assets[k.asset], l.balances[k];
    s.IsMarketIssued() && s.fees > 0 && s.supply > 0 && now - r.deposited > 86_400 ==> (s.supply - s.fees) % Y.WORD != 0
  }

  predicate AccountKnown(l: Ledger, id: AccountId) {
    Abs(id) in l.accounts
  }

  predicate Asks(l: Ledger, op: Operation, c: Config) {
    match op
    case Deposit(k, amount) => amount > 0 && SlateKnown(l, k)
    case Withdraw(k, amount, permitted) =>
      permitted && k in l.balances && 0 < amount <= l.balances[k].amount && k.asset in l.assets && SlateKnown(l, k) && YieldShared(l, k, c.now)
    case Claim(k, amount, permitted) =>
      permitted && k in l.balances && k.asset == 0 && l.balances[k].genesis && l.balances[k].amount == amount && SlateKnown(l, k)
    case Burn(a, amount, hasMessage, account) =>
      a in l.assets && !MarketIssued(l, a) && (a == 0 ==> amount >= c.minBurn) && (a != 0 ==> !hasMessage) && (account == 0 || AccountKnown(l, account))
    case DefineSlate(id, slate) => |slate| <= c.maxSlate && (id in l.slates || forall d :: d in slate ==> D.IsDelegate(l, Abs(d)))
    case Bid(k, amount, permitted) => permitted && k.price.ratio > 0 && k.price.quote in l.assets && OrderHas(l.bids, k, amount)
    case Ask(k, amount, permitted) => permitted && k.price.ratio > 0 && k.price.base in l.assets && OrderHas(l.asks, k, amount)
    case Short(k, amount, permitted) =>
      (amount < 0 ==> permitted) && k.price.base == 0 && 0 in l.assets && k.price.quote > 0 && MarketIssued(l, k.price.quote)
      && k.price.ratio < c.maxRate && OrderHas(l.shorts, k, amount)
    case Cover(k, amount, newPrice, permitted) =>
      permitted && k.price.ratio > 0 && (amount > 0 || (amount == 0 && newPrice.Some?)) && k in l.collateral && k.price.quote in l.assets
      && l.collateral[k].interest.quote > l.collateral[k].interest.base
      && (Repaid(l.collateral[k], amount, c) == 0 || Callable(k, Repaid(l.collateral[k], amount, c), l.collateral[k].collateral))
    case AddCollateral(k, amount) =>
      k.price.ratio > 0 && amount > 0 && k in l.collateral && Callable(k, l.collateral[k].payoff, l.collateral[k].collateral + amount)
    case RegisterAccount(payRate, permitted) => permitted
    case UpdateAccount(id, payRate, permitted) => permitted && id in l.accounts && (D.IsDelegate(l, id) ==> payRate <= 100 && payRate <= D.RateOf(l, id))
    case WithdrawPay(account, amount, permitted) => permitted && D.IsDelegate(l, Abs(account)) && 0 < amount <= Pay(l, Abs(account))
    case CreateAsset(issuer, maxSupply, permitted) =>
      permitted && 0 < maxSupply <= c.maxShares && l.lastAsset + 1 !in l.assets && (issuer == -2 || issuer in l.accounts)
    case UpdateAsset(a, issuer, permitted) => permitted && a in l.assets && l.assets[a].issuer in l.accounts && issuer in l.accounts
    case IssueAsset(a, amount, permitted) =>
      permitted && amount > 0 && a in l.assets && l.assets[a].issuer in l.accounts && l.assets[a].supply + amount <= l.assets[a].maxSupply
  }

  /** What a cover still owes after a payment. */
  function Repaid(r: Collateral, amount: int, c: Config): int {
    if amount < 0 then r.payoff else r.payoff - PrincipalPaid(r, amount, c)
  }

  /** What is owed has a call price: two thirds of the collateral are something, in another asset. */
  predicate Callable(k: OrderKey, owed: int, collateral: nat) {
    && k.price.quote != k.price.base
    && (if k.price.quote > k.price.base then collateral > 1 else owed > 0)
  }

  lemma CallableIs(k: OrderKey, owed: nat, collateral: nat)
    ensures CallPrice(owed, k.price.quote, collateral, k.price.base).Some? <==> Callable(k, owed, collateral)
  {
  }

  // ---------- and that it is enough ----------

  lemma StakeAsks(e: Evaluation, k: Condition, amount: int, c: Config)
    ensures AdjustStake(e, k, amount, c).Some? <==> SlateKnown(e.ledger, k)
  {
  }

  lemma WithdrawAsks(e: Evaluation, k: Condition, amount: int, permitted: bool, c: Config)
    ensures EvaluateWithdraw(e, k, amount, permitted, c).Some? <==> Asks(e.ledger, Withdraw(k, amount, permitted), c)
  {
    if k in e.ledger.balances && k.asset in e.ledger.assets && 0 < amount <= e.ledger.balances[k].amount {
      YieldAsks(e.ledger, k, c.now);
      if YieldDue(e.ledger.assets[k.asset], e.ledger.balances[k], c.now).Some? {
        PayingAsks(e, k, amount, YieldDue(e.ledger.assets[k.asset], e.ledger.balances[k], c.now).value, c);
      }
    }
  }

  lemma YieldAsks(l: Ledger, k: Condition, now: nat)
    requires k in l.balances && k.asset in l.assets && l.balances[k].amount > 0
    ensures YieldDue(l.assets[k.asset], l.balances[k], now).Some? <==> YieldShared(l, k, now)
  {
  }

  lemma PayingAsks(e: Evaluation, k: Condition, amount: int, y: nat, c: Config)
    requires k in e.ledger.balances && k.asset in e.ledger.assets && 0 < amount <= e.ledger.balances[k].amount
    ensures WithdrawPaying(e, k, amount, y, c).Some? <==> SlateKnown(e.ledger, k)
  {
    var f := PayYield(e, k, y, c.now);
    assert f.ledger.slates == e.ledger.slates;
    StakeAsks(f, k, -amount, c);
  }

  lemma BalanceAsks(e: Evaluation, op: Operation, c: Config)
    requires op.Deposit? || op.Claim?
    ensures Apply(e, op, c).Some? <==> Asks(e.ledger, op, c)
  {
    StakeAsks(e, op.condition, if op.Deposit? then op.amount else -op.amount, c);
  }

  lemma CoverAsks(e: Evaluation, k: OrderKey, amount: int, newPrice: Option<Price>, permitted: bool, c: Config)
    ensures EvaluateCover(e, k, amount, newPrice, permitted, c).Some? <==> Asks(e.ledger, Cover(k, amount, newPrice, permitted), c)
  {
    if k in e.ledger.collateral && amount >= 0 {
      var r := e.ledger.collateral[k];
      PaymentSplits(r, amount, c);
      CallableIs(k, r.payoff - PrincipalPaid(r, amount, c), r.collateral);
    }
  }

  lemma AddCollateralAsks(e: Evaluation, k: OrderKey, amount: int)
    ensures EvaluateAddCollateral(e, k, amount).Some? <==>
      && k.price.ratio > 0 && amount > 0 && k in e.ledger.collateral
      && Callable(k, e.ledger.collateral[k].payoff, e.ledger.collateral[k].collateral + amount)
  {
    if k in e.ledger.collateral && amount > 0 {
      CallableIs(k, e.ledger.collateral[k].payoff, e.ledger.collateral[k].collateral + amount);
    }
  }

  lemma RecordAsks(e: Evaluation, op: Operation, c: Config)
    requires op.Burn? || op.DefineSlate? || op.Bid? || op.Ask? || op.Short?
    ensures Apply(e, op, c).Some? <==> Asks(e.ledger, op, c)
  {
    if op.DefineSlate? {
      assert AreDelegates(e.ledger, op.delegates) <==> forall d :: d in op.delegates ==> D.IsDelegate(e.ledger, Abs(d));
    }
  }

  lemma AccountAsks(e: Evaluation, op: Operation, c: Config)
    requires op.RegisterAccount? || op.UpdateAccount? || op.WithdrawPay? || op.CreateAsset? || op.UpdateAsset? || op.IssueAsset?
    ensures Apply(e, op, c).Some? <==> Asks(e.ledger, op, c)
  {
  }

  /** An operation is carried out exactly when what it asks is there. */
  lemma ApplyAsks(e: Evaluation, op: Operation, c: Config)
    ensures Apply(e, op, c).Some? <==> Asks(e.ledger, op, c)
  {
    match op
    case Withdraw(k, amount, permitted) => WithdrawAsks(e, k, amount, permitted, c);
    case Cover(k, amount, newPrice, permitted) => CoverAsks(e, k, amount, newPrice, permitted, c);
    case AddCollateral(k, amount) => AddCollateralAsks(e, k, amount);
    case _ =>
      if op.Deposit? || op.Claim? {
        BalanceAsks(e, op, c);
      } else if op.Burn? || op.DefineSlate? || op.Bid? || op.Ask? || op.Short? {
        RecordAsks(e, op, c);
      } else {
        AccountAsks(e, op, c);
      }
  }

  // ---------- the whole transaction ----------

  /** Each operation finds what it asks in the state the ones before it leave. */
  predicate AllAsk(e: Evaluation, ops: seq<Operation>, c: Config)
    decreases |ops|
  {
    ops == [] || (Asks(e.ledger, ops[0], c) && match Apply(e, ops[0], c) case None => false case Some(f) => AllAsk(f, ops[1..], c))
  }

  lemma {:induction false} RunAsks(e: Evaluation, ops: seq<Operation>, c: Config)
    ensures T.Run(e, ops, c).Some? <==> AllAsk(e, ops, c)
    decreases |ops|
  {
    if ops != [] {
      ApplyAsks(e, ops[0], c);
      if Apply(e, ops[0], c).Some? {
        RunAsks(Apply(e, ops[0], c).value, ops[1..], c);
      }
    }
  }

  /** On a sound ledger a transaction is accepted exactly when each of its operations finds what it asks, no leftover is
      negative or in an unknown asset, and the leftovers cover what the operations owe. */
  lemma AcceptedWhen(l: Ledger, ops: seq<Operation>, c: Config)
    requires WellFormed(l) && D.Sound(l)
    ensures T.Evaluate(l, ops, c).Some? <==>
      && AllAsk(T.Start(l), ops, c) && T.Run(T.Start(l), ops, c).Some?
      && var e := T.Run(T.Start(l), ops, c).value;
         && (forall a :: a in e.balance ==> e.balance[a] >= 0 && (e.balance[a] > 0 ==> a in e.ledger.assets))
         && R.Due(ops, R.Delegates(l), l.lastAccount, c) <= R.Offered(e.ledger, e.balance, c)
  {
    RunAsks(T.Start(l), ops, c);
    R.AcceptedIffPaid(l, ops, c);
    if T.Run(T.Start(l), ops, c).Some? {
      D.AlwaysElectable(l, ops, c);
    }
  }
}
