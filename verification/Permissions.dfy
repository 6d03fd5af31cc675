/** Whose leave it takes: what an operation can take from a balance, an order, a cover or a delegate's pay, and that
    no transaction takes anything without an operation of that kind. */
module Permissions {
  import opened Options
  import opened Prices
  import opened Ledgers
  import opened Operations
  import opened Conservation
  import opened Transactions

  /** Something somebody holds: a balance, what is left of an order, a cover's collateral, or delegate's pay. */
  datatype Holding =
    | BalanceHeld(condition: Condition)
    | BidHeld(order: OrderKey)
    | AskHeld(order: OrderKey)
    | ShortHeld(order: OrderKey)
    | CollateralHeld(order: OrderKey)
    | PayHeld(account: AccountId)

  function Held(l: Ledger, h: Holding): int {
    match h
    case BalanceHeld(k) => BalanceAt(l, k)
    case BidHeld(k) => Get(l.bids, k)
    case AskHeld(k) => Get(l.asks, k)
    case ShortHeld(k) => Get(l.shorts, k)
    case CollateralHeld(k) => CollateralAt(l, k).collateral
    case PayHeld(d) => Pay(l, d)
  }

  /** The operations that may take from it, and only with leave; a cover is also moved, and may be stored over, by whoever
      adds collateral to a cover of the same owner. */
  predicate MayTake(op: Operation, h: Holding) {
    match h
    case BalanceHeld(k) => (op.Withdraw? || op.Claim?) && op.condition == k && op.permitted
    case BidHeld(k) => op.Bid? && op.key == k && op.amount < 0 && op.permitted
    case AskHeld(k) => op.Ask? && op.key == k && op.amount < 0 && op.permitted
    case ShortHeld(k) => op.Short? && op.key == k && op.amount < 0 && op.permitted
    case CollateralHeld(k) => ((op.Cover? && op.permitted) || op.AddCollateral?) && op.key.owner == k.owner
    case PayHeld(d) => op.WithdrawPay? && Abs(op.account) == d && op.permitted
  }

  // ---------- which tables an operation touches ----------

  lemma ChangeBalanceTables(e: Evaluation, k: Condition, r: Balance, change: int, c: Config)
    requires ChangeBalance(e, k, r, change, c).Some?
    ensures ChangeBalance(e, k, r, change, c).value.ledger == e.ledger.(balances := e.ledger.balances[k := r])
  {
  }

  lemma AssetTables(e: Evaluation, op: Operation, c: Config)
    requires (op.Burn? || op.CreateAsset? || op.UpdateAsset? || op.IssueAsset? || op.DefineSlate?) && Apply(e, op, c).Some?
    ensures var n := Apply(e, op, c).value.ledger; n == e.ledger.(assets := n.assets, lastAsset := n.lastAsset, slates := n.slates)
  {
  }

  lemma StoreAccountTables(e: Evaluation, id: AccountId, r: Account, fee: int)
    ensures StoreAccountRecord(e, id, r, fee).ledger == e.ledger.(accounts := e.ledger.accounts[id := r])
  {
  }

  /** A cover's place once the cover at k has been moved to its landing, or given up. */
  function CoverAfter(l: Ledger, k: OrderKey, rest: Collateral, landing: Option<OrderKey>, o: OrderKey): Collateral {
    if landing == Some(o) then rest else if o == k then NO_COLLATERAL else CollateralAt(l, o)
  }

  lemma SettleTables(e: Evaluation, k: OrderKey, rest: Collateral, landing: Option<OrderKey>)
    ensures var n := Settle(e, k, rest, landing).ledger; n == e.ledger.(collateral := n.collateral)
    ensures forall o :: CollateralAt(Settle(e, k, rest, landing).ledger, o) == CoverAfter(e.ledger, k, rest, landing, o)
  {
  }

  // ---------- what an operation takes ----------

  /** Only with leave does this holding get smaller from l to n. */
  predicate ByLeave(l: Ledger, n: Ledger, op: Operation, h: Holding) {
    Held(n, h) < Held(l, h) ==> MayTake(op, h)
  }

  lemma DepositByLeave(e: Evaluation, k: Condition, amount: int, c: Config, h: Holding)
    requires EvaluateDeposit(e, k, amount, c).Some?
    ensures ByLeave(e.ledger, EvaluateDeposit(e, k, amount, c).value.ledger, Deposit(k, amount), h)
  {
    var r := BalanceOf(e.ledger, k);
    ChangeBalanceTables(e, k, Balance(r.amount + amount, AverageDate(r, amount, c.now), r.genesis), amount, c);
  }

  /** Paying the yield takes from no balance. */
  lemma PayYieldTakes(e: Evaluation, k: Condition, y: nat, now: nat, h: Holding)
    requires k.asset in e.ledger.assets && k in e.ledger.balances
    ensures Held(PayYield(e, k, y, now).ledger, h) >= Held(e.ledger, h)
  {
  }

  lemma StoreBalanceTakes(l: Ledger, k: Condition, r: Balance, h: Holding)
    ensures Held(l.(balances := l.balances[k := r]), h) == if h == BalanceHeld(k) then r.amount else Held(l, h)
  {
  }

  lemma WithdrawByLeave(e: Evaluation, k: Condition, amount: int, permitted: bool, c: Config, h: Holding)
    requires EvaluateWithdraw(e, k, amount, permitted, c).Some?
    ensures ByLeave(e.ledger, EvaluateWithdraw(e, k, amount, permitted, c).value.ledger, Withdraw(k, amount, permitted), h)
  {
    var y := YieldDue(e.ledger.assets[k.asset], e.ledger.balances[k], c.now).value;
    if h != BalanceHeld(k) {
      WithdrawPayingTakes(e, k, amount, y, c, h);
    }
  }

  lemma WithdrawPayingTakes(e: Evaluation, k: Condition, amount: int, y: nat, c: Config, h: Holding)
    requires WithdrawPaying(e, k, amount, y, c).Some? && h != BalanceHeld(k)
    ensures Held(WithdrawPaying(e, k, amount, y, c).value.ledger, h) >= Held(e.ledger, h)
  {
    WithdrawPayingSteps(e, k, amount, y, c);
    var f := PayYield(e, k, y, c.now);
    var r := f.ledger.balances[k].(amount := f.ledger.balances[k].amount - amount);
    PayYieldTakes(e, k, y, c.now, h);
    ChangeBalanceTakes(f, k, r, -amount, c, h);
  }

  lemma ChangeBalanceTakes(e: Evaluation, k: Condition, r: Balance, change: int, c: Config, h: Holding)
    requires ChangeBalance(e, k, r, change, c).Some? && h != BalanceHeld(k)
    ensures Held(ChangeBalance(e, k, r, change, c).value.ledger, h) == Held(e.ledger, h)
  {
    ChangeBalanceTables(e, k, r, change, c);
    StoreBalanceTakes(e.ledger, k, r, h);
  }

  lemma ClaimByLeave(e: Evaluation, k: Condition, amount: int, permitted: bool, c: Config, h: Holding)
    requires EvaluateClaim(e, k, amount, permitted, c).Some?
    ensures ByLeave(e.ledger, EvaluateClaim(e, k, amount, permitted, c).value.ledger, Claim(k, amount, permitted), h)
  {
    ChangeBalanceTables(e, k, e.ledger.balances[k].(amount := 0), -amount, c);
  }

  lemma BidByLeave(e: Evaluation, k: OrderKey, amount: int, permitted: bool, h: Holding)
    requires EvaluateBid(e, k, amount, permitted).Some?
    ensures ByLeave(e.ledger, EvaluateBid(e, k, amount, permitted).value.ledger, Bid(k, amount, permitted), h)
  {
  }

  lemma AskByLeave(e: Evaluation, k: OrderKey, amount: int, permitted: bool, h: Holding)
    requires EvaluateAsk(e, k, amount, permitted).Some?
    ensures ByLeave(e.ledger, EvaluateAsk(e, k, amount, permitted).value.ledger, Ask(k, amount, permitted), h)
  {
  }

  lemma ShortByLeave(e: Evaluation, k: OrderKey, amount: int, permitted: bool, c: Config, h: Holding)
    requires EvaluateShort(e, k, amount, permitted, c).Some?
    ensures ByLeave(e.ledger, EvaluateShort(e, k, amount, permitted, c).value.ledger, Short(k, amount, permitted), h)
  {
  }

  lemma PayCoverTables(e: Evaluation, k: OrderKey, amount: int, principal: int, m: Relocation)
    requires k.price.quote in e.ledger.assets
    ensures var n := PayCover(e, k, amount, principal, m).ledger; n == e.ledger.(collateral := n.collateral, assets := n.assets)
    ensures forall o :: CollateralAt(PayCover(e, k, amount, principal, m).ledger, o) == CoverAfter(e.ledger, k, m.rest, m.landing, o)
  {
    SettleTables(PayDebt(e, k.price.quote, principal, amount - principal), k, m.rest, m.landing);
  }

  lemma CoverByLeave(e: Evaluation, k: OrderKey, amount: int, newPrice: Option<Price>, permitted: bool, c: Config, h: Holding)
    requires EvaluateCover(e, k, amount, newPrice, permitted, c).Some?
    ensures ByLeave(e.ledger, EvaluateCover(e, k, amount, newPrice, permitted, c).value.ledger, Cover(k, amount, newPrice, permitted), h)
  {
    var r := e.ledger.collateral[k];
    var principal := PrincipalPaid(r, amount, c);
    PayCoverTables(e, k, amount, principal, AfterPayment(k, r, principal, newPrice).value);
  }

  lemma AddCollateralByLeave(e: Evaluation, k: OrderKey, amount: int, h: Holding)
    requires EvaluateAddCollateral(e, k, amount).Some?
    ensures ByLeave(e.ledger, EvaluateAddCollateral(e, k, amount).value.ledger, AddCollateral(k, amount), h)
  {
    var m := AfterAdding(k, e.ledger.collateral[k], amount).value;
    SettleTables(Move(e, k.price.base, -amount), k, m.rest, m.landing);
  }

  lemma StoreAccountTakes(l: Ledger, id: AccountId, r: Account, h: Holding)
    ensures Held(l.(accounts := l.accounts[id := r]), h) == if h == PayHeld(id) then PayBalance(r) else Held(l, h)
  {
  }

  lemma RegisterByLeave(e: Evaluation, payRate: nat, permitted: bool, c: Config, h: Holding)
    requires EvaluateRegisterAccount(e, payRate, permitted, c).Some? && WellFormed(e.ledger)
    ensures ByLeave(e.ledger, EvaluateRegisterAccount(e, payRate, permitted, c).value.ledger, RegisterAccount(payRate, permitted), h)
  {
    var id := e.ledger.lastAccount + 1;
    assert id !in e.ledger.accounts;
    var f := e.(ledger := e.ledger.(lastAccount := id));
    var r := Account(if payRate <= 100 then Some(Delegate(0, payRate, 0)) else None);
    var fee := c.accountFee + if payRate <= 100 then DelegateFee(payRate, c) else 0;
    assert EvaluateRegisterAccount(e, payRate, permitted, c) == Some(StoreAccountRecord(f, id, r, fee));
    NewAccountTakes(e, f, id, r, fee, h);
  }

  lemma NewAccountTakes(e: Evaluation, f: Evaluation, id: AccountId, r: Account, fee: int, h: Holding)
    requires f == e.(ledger := e.ledger.(lastAccount := id)) && id !in e.ledger.accounts && PayBalance(r) == 0
    ensures Held(StoreAccountRecord(f, id, r, fee).ledger, h) == Held(e.ledger, h)
  {
    StoreAccountTables(f, id, r, fee);
    StoreAccountTakes(f.ledger, id, r, h);
  }

  lemma UpdateByLeave(e: Evaluation, id: AccountId, payRate: nat, permitted: bool, c: Config, h: Holding)
    requires EvaluateUpdateAccount(e, id, payRate, permitted, c).Some?
    ensures ByLeave(e.ledger, EvaluateUpdateAccount(e, id, payRate, permitted, c).value.ledger, UpdateAccount(id, payRate, permitted), h)
  {
    match e.ledger.accounts[id].delegate
    case Some(r) =>
      StoreAccountTables(e, id, Account(Some(r.(payRate := payRate))), 0);
      StoreAccountTakes(e.ledger, id, Account(Some(r.(payRate := payRate))), h);
    case None =>
      StoreAccountTables(e, id, Account(Some(Delegate(0, payRate, 0))), DelegateFee(payRate, c));
      StoreAccountTakes(e.ledger, id, Account(Some(Delegate(0, payRate, 0))), h);
  }

  lemma WithdrawPayByLeave(e: Evaluation, account: AccountId, amount: int, permitted: bool, h: Holding)
    requires EvaluateWithdrawPay(e, account, amount, permitted).Some?
    ensures ByLeave(e.ledger, EvaluateWithdrawPay(e, account, amount, permitted).value.ledger, WithdrawPay(account, amount, permitted), h)
  {
    var r := e.ledger.accounts[Abs(account)].delegate.value;
    StoreAccountTakes(e.ledger, Abs(account), Account(Some(r.(pay := r.pay - amount))), h);
  }

  /** An operation takes from a balance, an order, a cover or a delegate's pay only what it is for, and with leave. */
  lemma ApplyByLeave(e: Evaluation, op: Operation, c: Config, h: Holding)
    requires WellFormed(e.ledger) && Apply(e, op, c).Some?
    ensures ByLeave(e.ledger, Apply(e, op, c).value.ledger, op, h)
  {
    match op
    case Deposit(k, amount) => DepositByLeave(e, k, amount, c, h);
    case Withdraw(k, amount, permitted) => WithdrawByLeave(e, k, amount, permitted, c, h);
    case Claim(k, amount, permitted) => ClaimByLeave(e, k, amount, permitted, c, h);
    case Bid(k, amount, permitted) => BidByLeave(e, k, amount, permitted, h);
    case Ask(k, amount, permitted) => AskByLeave(e, k, amount, permitted, h);
    case Short(k, amount, permitted) => ShortByLeave(e, k, amount, permitted, c, h);
    case Cover(k, amount, newPrice, permitted) => CoverByLeave(e, k, amount, newPrice, permitted, c, h);
    case AddCollateral(k, amount) => AddCollateralByLeave(e, k, amount, h);
    case RegisterAccount(payRate, permitted) => RegisterByLeave(e, payRate, permitted, c, h);
    case UpdateAccount(id, payRate, permitted) => UpdateByLeave(e, id, payRate, permitted, c, h);
    case WithdrawPay(account, amount, permitted) => WithdrawPayByLeave(e, account, amount, permitted, h);
    case _ => AssetTables(e, op, c);
  }

  lemma {:induction false} RunByLeave(e: Evaluation, ops: seq<Operation>, c: Config, h: Holding)
    requires WellFormed(e.ledger) && Run(e, ops, c).Some?
    requires forall i :: 0 <= i < |ops| ==> !MayTake(ops[i], h)
    ensures Held(Run(e, ops, c).value.ledger, h) >= Held(e.ledger, h)
    decreases |ops|
  {
    if ops != [] {
      ApplyExtends(e, ops[0], c);
      ApplyByLeave(e, ops[0], c, h);
      RunByLeave(Apply(e, ops[0], c).value, ops[1..], c, h);
    }
  }

  /** A transaction without an operation that may take from a holding leaves it at least as large. */
  lemma TakesByLeave(l: Ledger, ops: seq<Operation>, c: Config, h: Holding)
    requires WellFormed(l) && Evaluate(l, ops, c).Some?
    requires forall i :: 0 <= i < |ops| ==> !MayTake(ops[i], h)
    ensures Held(Evaluate(l, ops, c).value, h) >= Held(l, h)
  {
    RunByLeave(Start(l), ops, c, h);
  }

  // ---------- issuing ----------

  /** Issuing takes the issuer's leave, and never goes past an asset's maximum supply. */
  lemma IssuesWithin(e: Evaluation, a: AssetId, amount: int, permitted: bool, c: Config)
    ensures Apply(e, IssueAsset(a, amount, permitted), c).Some? <==>
      && permitted && amount > 0 && a in e.ledger.assets && e.ledger.assets[a].issuer in e.ledger.accounts
      && e.ledger.assets[a].supply + amount <= e.ledger.assets[a].maxSupply
    ensures Apply(e, IssueAsset(a, amount, permitted), c).Some? ==>
      var n := Apply(e, IssueAsset(a, amount, permitted), c).value;
      && Supply(n.ledger, a) == Supply(e.ledger, a) + amount && n.ledger.assets[a].supply <= n.ledger.assets[a].maxSupply
      && Get(n.balance, a) == Get(e.balance, a) + amount
  {
  }
}
