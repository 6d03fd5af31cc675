/** What a transaction owes, and what it takes to be accepted: registrations, promotions to delegate and new
    assets cost fees, and the leftovers have to cover them. */
module RequiredFees {
  import opened Options
  import opened Prices
  import opened Sums
  import opened Ledgers
  import opened Operations
  import opened Conservation
  import opened Transactions

  // ---------- what is owed ----------

  /** A delegate's share of the registration fee for one that takes all of its pay. */
  function DelegateShare(payRate: nat, c: Config): nat {
    c.delegateFee * payRate / 100
  }

  function Delegates(l: Ledger): set<AccountId> {
    set d | d in l.accounts && l.accounts[d].delegate.Some?
  }

  /** What one operation owes: an account, and a place as delegate for one that is none yet, where a pay rate of
      at most 100 asks for it; a new asset; and nothing else does. */
  function FeeOf(op: Operation, delegates: set<AccountId>, c: Config): nat {
    match op
    case RegisterAccount(payRate, _) => c.accountFee + if payRate <= 100 then DelegateShare(payRate, c) else 0
    case UpdateAccount(id, payRate, _) => if id !in delegates && payRate <= 100 then DelegateShare(payRate, c) else 0
    case CreateAsset(_, _, _) => c.assetFee
    case _ => 0
  }

  function LastAfter(op: Operation, last: AccountId): AccountId {
    if op.RegisterAccount? then last + 1 else last
  }

  function DelegatesAfter(op: Operation, delegates: set<AccountId>, last: AccountId): set<AccountId> {
    match op
    case RegisterAccount(payRate, _) => if payRate <= 100 then delegates + {last + 1} else delegates
    case UpdateAccount(id, payRate, _) => if payRate <= 100 then delegates + {id} else delegates
    case _ => delegates
  }

  /** What a list of operations owes, told from the operations, the delegates and the last account id before it. */
  function Due(ops: seq<Operation>, delegates: set<AccountId>, last: AccountId, c: Config): nat
    decreases |ops|
  {
    if ops == [] then 0
    else FeeOf(ops[0], delegates, c) + Due(ops[1..], DelegatesAfter(ops[0], delegates, last), LastAfter(ops[0], last), c)
  }

  // ---------- the running total is what is owed ----------

  /** No account, no fee. */
  predicate SameAccounts(e: Evaluation, f: Evaluation) {
    && f.ledger.accounts == e.ledger.accounts && f.ledger.lastAccount == e.ledger.lastAccount
    && f.requiredFees == e.requiredFees && f.altFees == e.altFees
  }

  lemma ChangeBalanceFree(e: Evaluation, k: Condition, r: Balance, change: int, c: Config)
    requires ChangeBalance(e, k, r, change, c).Some?
    ensures SameAccounts(e, ChangeBalance(e, k, r, change, c).value)
  {
  }

  lemma BalanceFree(e: Evaluation, op: Operation, c: Config)
    requires (op.Deposit? || op.Withdraw? || op.Claim?) && Apply(e, op, c).Some?
    ensures SameAccounts(e, Apply(e, op, c).value)
  {
    match op
    case Deposit(k, amount) =>
    case Withdraw(k, amount, permitted) =>
      var y := YieldDue(e.ledger.assets[k.asset], e.ledger.balances[k], c.now).value;
      var f := PayYield(e, k, y, c.now);
      var r := f.ledger.balances[k];
      ChangeBalanceFree(f, k, r.(amount := r.amount - amount), -amount, c);
    case Claim(k, amount, permitted) =>
  }

  lemma OrderFree(e: Evaluation, op: Operation, c: Config)
    requires (op.Bid? || op.Ask? || op.Short? || op.Burn? || op.DefineSlate? || op.UpdateAsset? || op.IssueAsset?) && Apply(e, op, c).Some?
    ensures SameAccounts(e, Apply(e, op, c).value)
  {
  }

  lemma SettleFree(e: Evaluation, k: OrderKey, rest: Collateral, landing: Option<OrderKey>)
    ensures SameAccounts(e, Settle(e, k, rest, landing))
  {
  }

  /** A cover that is accepted is paid some principal, and no less than no interest. */
  lemma CoverParts(e: Evaluation, k: OrderKey, amount: int, newPrice: Option<Price>, permitted: bool, c: Config)
    requires EvaluateCover(e, k, amount, newPrice, permitted, c).Some?
    ensures k.price.quote in e.ledger.assets && k in e.ledger.collateral && amount >= 0
    ensures var principal := PrincipalPaid(e.ledger.collateral[k], amount, c);
      && 0 <= principal <= amount && principal <= e.ledger.collateral[k].payoff
      && AfterPayment(k, e.ledger.collateral[k], principal, newPrice).Some?
      && EvaluateCover(e, k, amount, newPrice, permitted, c).value ==
           PayCover(e, k, amount, principal, AfterPayment(k, e.ledger.collateral[k], principal, newPrice).value)
  {
  }

  lemma CoverFree(e: Evaluation, k: OrderKey, amount: int, newPrice: Option<Price>, permitted: bool, c: Config)
    requires EvaluateCover(e, k, amount, newPrice, permitted, c).Some?
    ensures SameAccounts(e, EvaluateCover(e, k, amount, newPrice, permitted, c).value)
  {
    CoverParts(e, k, amount, newPrice, permitted, c);
    var principal := PrincipalPaid(e.ledger.collateral[k], amount, c);
    var m := AfterPayment(k, e.ledger.collateral[k], principal, newPrice).value;
    SettleFree(PayDebt(e, k.price.quote, principal, amount - principal), k, m.rest, m.landing);
  }

  lemma CollateralFree(e: Evaluation, k: OrderKey, amount: int)
    requires EvaluateAddCollateral(e, k, amount).Some?
    ensures SameAccounts(e, EvaluateAddCollateral(e, k, amount).value)
  {
    var m := AfterAdding(k, e.ledger.collateral[k], amount).value;
    SettleFree(Move(e, k.price.base, -amount), k, m.rest, m.landing);
  }

  /** From e to f, an operation has added its fee and left the delegates it names. */
  ghost predicate Owes(e: Evaluation, f: Evaluation, op: Operation, c: Config) {
    && f.requiredFees == e.requiredFees + FeeOf(op, Delegates(e.ledger), c) && f.altFees == e.altFees
    && f.ledger.lastAccount == LastAfter(op, e.ledger.lastAccount)
    && Delegates(f.ledger) == DelegatesAfter(op, Delegates(e.ledger), e.ledger.lastAccount)
  }

  lemma StoreAccountOwes(e: Evaluation, id: AccountId, r: Account, fee: int)
    requires id in e.ledger.accounts && e.ledger.accounts[id].delegate.Some? ==> r.delegate.Some?
    ensures var f := StoreAccountRecord(e, id, r, fee);
      && f.requiredFees == e.requiredFees + fee && f.altFees == e.altFees && f.ledger.lastAccount == e.ledger.lastAccount
      && Delegates(f.ledger) == Delegates(e.ledger) + if r.delegate.Some? then {id} else {}
  {
    StoredDelegates(e.ledger.accounts, id, r, StoreAccountRecord(e, id, r, fee).ledger.accounts);
  }

  lemma RegisterOwes(e: Evaluation, payRate: nat, permitted: bool, c: Config)
    requires WellFormed(e.ledger) && EvaluateRegisterAccount(e, payRate, permitted, c).Some?
    ensures Owes(e, EvaluateRegisterAccount(e, payRate, permitted, c).value, RegisterAccount(payRate, permitted), c)
  {
    var id := e.ledger.lastAccount + 1;
    assert id !in e.ledger.accounts;
    var f := e.(ledger := e.ledger.(lastAccount := id));
    assert Delegates(f.ledger) == Delegates(e.ledger);
    StoreAccountOwes(f, id, Account(Some(Delegate(0, payRate, 0))), c.accountFee + DelegateFee(payRate, c));
    StoreAccountOwes(f, id, Account(None), c.accountFee);
  }

  lemma StoredDelegates(was: map<AccountId, Account>, id: AccountId, r: Account, now: map<AccountId, Account>)
    requires now == was[id := r] && (id in was && was[id].delegate.Some? ==> r.delegate.Some?)
    ensures (set d | d in now && now[d].delegate.Some?) ==
      (set d | d in was && was[d].delegate.Some?) + if r.delegate.Some? then {id} else {}
  {
  }

  lemma UpdateOwes(e: Evaluation, id: AccountId, payRate: nat, permitted: bool, c: Config)
    requires EvaluateUpdateAccount(e, id, payRate, permitted, c).Some?
    ensures Owes(e, EvaluateUpdateAccount(e, id, payRate, permitted, c).value, UpdateAccount(id, payRate, permitted), c)
  {
    match e.ledger.accounts[id].delegate
    case Some(r) =>
      StoreAccountOwes(e, id, Account(Some(r.(payRate := payRate))), 0);
    case None =>
      if payRate <= 100 {
        StoreAccountOwes(e, id, Account(Some(Delegate(0, payRate, 0))), DelegateFee(payRate, c));
      }
  }

  lemma WithdrawPayOwes(e: Evaluation, account: AccountId, amount: int, permitted: bool, c: Config)
    requires EvaluateWithdrawPay(e, account, amount, permitted).Some?
    ensures Owes(e, EvaluateWithdrawPay(e, account, amount, permitted).value, WithdrawPay(account, amount, permitted), c)
  {
    var id, n := Abs(account), EvaluateWithdrawPay(e, account, amount, permitted).value.ledger;
    StoredDelegates(e.ledger.accounts, id, n.accounts[id], n.accounts);
  }

  lemma ApplyOwes(e: Evaluation, op: Operation, c: Config)
    requires WellFormed(e.ledger) && Apply(e, op, c).Some?
    ensures Owes(e, Apply(e, op, c).value, op, c)
  {
    match op
    case RegisterAccount(payRate, permitted) => RegisterOwes(e, payRate, permitted, c);
    case UpdateAccount(id, payRate, permitted) => UpdateOwes(e, id, payRate, permitted, c);
    case WithdrawPay(account, amount, permitted) => WithdrawPayOwes(e, account, amount, permitted, c);
    case CreateAsset(issuer, maxSupply, permitted) =>
    case _ => OthersOwe(e, op, c);
  }

  lemma OthersOwe(e: Evaluation, op: Operation, c: Config)
    requires Apply(e, op, c).Some?
    requires !op.RegisterAccount? && !op.UpdateAccount? && !op.WithdrawPay? && !op.CreateAsset?
    ensures Owes(e, Apply(e, op, c).value, op, c)
  {
    OthersFree(e, op, c);
  }

  lemma OthersFree(e: Evaluation, op: Operation, c: Config)
    requires Apply(e, op, c).Some?
    requires !op.RegisterAccount? && !op.UpdateAccount? && !op.WithdrawPay? && !op.CreateAsset?
    ensures SameAccounts(e, Apply(e, op, c).value)
  {
    if op.Deposit? || op.Withdraw? || op.Claim? {
      BalanceFree(e, op, c);
    } else if op.Cover? {
      CoverFree(e, op.key, op.amount, op.newPrice, op.permitted, c);
    } else if op.AddCollateral? {
      CollateralFree(e, op.key, op.amount);
    } else {
      OrderFree(e, op, c);
    }
  }

  /** What the evaluation asks for at the end is what its operations owe. */
  lemma {:induction false} RunOwes(e: Evaluation, ops: seq<Operation>, c: Config)
    requires WellFormed(e.ledger) && Run(e, ops, c).Some?
    ensures var f := Run(e, ops, c).value;
      && f.requiredFees == e.requiredFees + Due(ops, Delegates(e.ledger), e.ledger.lastAccount, c)
      && f.altFees == e.altFees
    decreases |ops|
  {
    if ops != [] {
      ApplyExtends(e, ops[0], c);
      ApplyOwes(e, ops[0], c);
      RunOwes(Apply(e, ops[0], c).value, ops[1..], c);
    }
  }

  // ---------- what covers it ----------

  /** What a leftover is worth towards the fees: in an asset that a market issues, two thirds of it in the base
      asset at the median price, if it has one. */
  function Worth(l: Ledger, c: Config, a: AssetId, left: int): int {
    if a != 0 && left > 0 && a in l.assets && l.assets[a].issuer in {-2, -3} && a in c.medians
    then left * 2 / 3 * 1_000_000_000_000_000_000 / c.medians[a]
    else 0
  }

  ghost function WorthOf(l: Ledger, c: Config): (AssetId, int) -> int {
    (a: AssetId, left: int) => Worth(l, c, a, left)
  }

  /** Leftovers in the base asset count in full, and the rest at what they are worth. */
  ghost function Offered(l: Ledger, left: map<AssetId, int>, c: Config): int {
    Get(left, 0) + Total(left, WorthOf(l, c))
  }

  lemma AltFeesAre(l: Ledger, left: map<AssetId, int>, c: Config)
    ensures Get(left, 0) + AltFees(l, left, c) == Offered(l, left, c)
  {
    forall a | a in left ensures AltFeeOf(l, c)(a, left[a]) == WorthOf(l, c)(a, left[a]) {
      assert MarketIssued(l, a) <==> a in l.assets && l.assets[a].issuer in {-2, -3};
    }
    TotalSame(left, AltFeeOf(l, c), left, WorthOf(l, c));
  }

  /** A transaction is accepted exactly when its operations run, its leftovers can be paid out, its votes go to
      delegates, and what it leaves over covers what its operations owe. */
  lemma AcceptedIffPaid(l: Ledger, ops: seq<Operation>, c: Config)
    requires WellFormed(l)
    ensures Evaluate(l, ops, c).Some? <==>
      match Run(Start(l), ops, c)
      case None => false
      case Some(e) => Payable(e.ledger, e.balance) && Electable(e.ledger, e.votes)
                      && Due(ops, Delegates(l), l.lastAccount, c) <= Offered(e.ledger, e.balance, c)
  {
    if Run(Start(l), ops, c).Some? {
      var e := Run(Start(l), ops, c).value;
      RunOwes(Start(l), ops, c);
      AltFeesAre(e.ledger, e.balance, c);
    }
  }

  // ---------- where it goes ----------

  /** Fees of an asset no market issues never fall. */
  predicate FeesKept(e: Evaluation, f: Evaluation, a: AssetId) {
    Fees(f.ledger, a) >= Fees(e.ledger, a)
  }

  lemma WithdrawFees(e: Evaluation, k: Condition, amount: int, permitted: bool, c: Config, a: AssetId)
    requires !MarketIssued(e.ledger, a) && EvaluateWithdraw(e, k, amount, permitted, c).Some?
    ensures FeesKept(e, EvaluateWithdraw(e, k, amount, permitted, c).value, a)
  {
    var y := YieldDue(e.ledger.assets[k.asset], e.ledger.balances[k], c.now).value;
    var f := PayYield(e, k, y, c.now);
    assert k.asset == a ==> y == 0;
    assert Fees(f.ledger, a) == Fees(e.ledger, a);
  }

  lemma SettleFees(e: Evaluation, k: OrderKey, rest: Collateral, landing: Option<OrderKey>)
    ensures Settle(e, k, rest, landing).ledger.assets == e.ledger.assets
  {
  }

  lemma PaidFees(e: Evaluation, k: OrderKey, principal: int, interest: nat, a: AssetId)
    requires k.price.quote in e.ledger.assets
    ensures FeesKept(e, PayDebt(e, k.price.quote, principal, interest), a)
  {
  }

  lemma CoverFees(e: Evaluation, k: OrderKey, amount: int, newPrice: Option<Price>, permitted: bool, c: Config, a: AssetId)
    requires EvaluateCover(e, k, amount, newPrice, permitted, c).Some?
    ensures FeesKept(e, EvaluateCover(e, k, amount, newPrice, permitted, c).value, a)
  {
    CoverParts(e, k, amount, newPrice, permitted, c);
    var principal := PrincipalPaid(e.ledger.collateral[k], amount, c);
    var m := AfterPayment(k, e.ledger.collateral[k], principal, newPrice).value;
    PaidFees(e, k, principal, amount - principal, a);
    SettleFees(PayDebt(e, k.price.quote, principal, amount - principal), k, m.rest, m.landing);
  }

  lemma CollateralFees(e: Evaluation, k: OrderKey, amount: int, a: AssetId)
    requires EvaluateAddCollateral(e, k, amount).Some?
    ensures FeesKept(e, EvaluateAddCollateral(e, k, amount).value, a)
  {
    var m := AfterAdding(k, e.ledger.collateral[k], amount).value;
    SettleFees(Move(e, k.price.base, -amount), k, m.rest, m.landing);
  }

  lemma AssetFees(e: Evaluation, op: Operation, c: Config, a: AssetId)
    requires (op.Burn? || op.CreateAsset? || op.UpdateAsset? || op.IssueAsset?) && Apply(e, op, c).Some?
    ensures FeesKept(e, Apply(e, op, c).value, a)
  {
  }

  lemma OrderFees(e: Evaluation, op: Operation, c: Config, a: AssetId)
    requires (op.Bid? || op.Ask? || op.Short?) && Apply(e, op, c).Some?
    ensures FeesKept(e, Apply(e, op, c).value, a)
  {
  }

  lemma DepositFees(e: Evaluation, op: Operation, c: Config, a: AssetId)
    requires (op.Deposit? || op.Claim?) && Apply(e, op, c).Some?
    ensures FeesKept(e, Apply(e, op, c).value, a)
  {
  }

  lemma StoreAccountFees(e: Evaluation, id: AccountId, r: Account, fee: int)
    ensures StoreAccountRecord(e, id, r, fee).ledger.assets == e.ledger.assets
  {
  }

  lemma RegisterFees(e: Evaluation, payRate: nat, permitted: bool, c: Config)
    requires EvaluateRegisterAccount(e, payRate, permitted, c).Some?
    ensures EvaluateRegisterAccount(e, payRate, permitted, c).value.ledger.assets == e.ledger.assets
  {
    var id := e.ledger.lastAccount + 1;
    var f := e.(ledger := e.ledger.(lastAccount := id));
    var r := Account(if payRate <= 100 then Some(Delegate(0, payRate, 0)) else None);
    var fee := c.accountFee + if payRate <= 100 then DelegateFee(payRate, c) else 0;
    assert EvaluateRegisterAccount(e, payRate, permitted, c) == Some(StoreAccountRecord(f, id, r, fee));
    StoreAccountFees(f, id, r, fee);
  }

  lemma UpdateFees(e: Evaluation, id: AccountId, payRate: nat, permitted: bool, c: Config)
    requires EvaluateUpdateAccount(e, id, payRate, permitted, c).Some?
    ensures EvaluateUpdateAccount(e, id, payRate, permitted, c).value.ledger.assets == e.ledger.assets
  {
    match e.ledger.accounts[id].delegate
    case Some(r) => StoreAccountFees(e, id, Account(Some(r.(payRate := payRate))), 0);
    case None => StoreAccountFees(e, id, Account(Some(Delegate(0, payRate, 0))), DelegateFee(payRate, c));
  }

  lemma WithdrawPayFees(e: Evaluation, account: AccountId, amount: int, permitted: bool)
    requires EvaluateWithdrawPay(e, account, amount, permitted).Some?
    ensures EvaluateWithdrawPay(e, account, amount, permitted).value.ledger.assets == e.ledger.assets
  {
  }

  lemma AccountFees(e: Evaluation, op: Operation, c: Config, a: AssetId)
    requires (op.DefineSlate? || op.RegisterAccount? || op.UpdateAccount? || op.WithdrawPay?) && Apply(e, op, c).Some?
    ensures FeesKept(e, Apply(e, op, c).value, a)
  {
    match op
    case RegisterAccount(payRate, permitted) => RegisterFees(e, payRate, permitted, c);
    case UpdateAccount(id, payRate, permitted) => UpdateFees(e, id, payRate, permitted, c);
    case WithdrawPay(account, amount, permitted) => WithdrawPayFees(e, account, amount, permitted);
    case DefineSlate(id, delegates) =>
  }

  lemma ApplyFees(e: Evaluation, op: Operation, c: Config, a: AssetId)
    requires !MarketIssued(e.ledger, a) && Apply(e, op, c).Some?
    ensures FeesKept(e, Apply(e, op, c).value, a)
  {
    if op.Withdraw? {
      WithdrawFees(e, op.condition, op.amount, op.permitted, c, a);
    } else if op.Cover? {
      CoverFees(e, op.key, op.amount, op.newPrice, op.permitted, c, a);
    } else if op.AddCollateral? {
      CollateralFees(e, op.key, op.amount, a);
    } else if op.Burn? || op.CreateAsset? || op.UpdateAsset? || op.IssueAsset? {
      AssetFees(e, op, c, a);
    } else if op.Bid? || op.Ask? || op.Short? {
      OrderFees(e, op, c, a);
    } else if op.Deposit? || op.Claim? {
      DepositFees(e, op, c, a);
    } else {
      AccountFees(e, op, c, a);
    }
  }

  lemma {:induction false} RunFees(e: Evaluation, ops: seq<Operation>, c: Config)
    requires WellFormed(e.ledger) && Run(e, ops, c).Some?
    ensures Fees(Run(e, ops, c).value.ledger, 0) >= Fees(e.ledger, 0)
    decreases |ops|
  {
    if ops != [] {
      ApplyExtends(e, ops[0], c);
      ApplyFees(e, ops[0], c, 0);
      RunFees(Apply(e, ops[0], c).value, ops[1..], c);
    }
  }

  /** An accepted transaction pays what it owes into the base asset's fees, but for what its other leftovers are
      worth, which go to the fees of their own assets; where no asset has a median price it pays all of it. */
  lemma PaysWhatItOwes(l: Ledger, ops: seq<Operation>, c: Config)
    requires WellFormed(l) && Evaluate(l, ops, c).Some?
    ensures var n, e, due := Evaluate(l, ops, c).value, Run(Start(l), ops, c).value, Due(ops, Delegates(l), l.lastAccount, c);
      && Fees(n, 0) >= Fees(l, 0) + due - Total(e.balance, WorthOf(e.ledger, c))
      && (c.medians == map[] ==> Fees(n, 0) >= Fees(l, 0) + due)
      && (forall a :: a in e.ledger.assets ==> Fees(n, a) == Fees(e.ledger, a) + Get(e.balance, a))
  {
    var e := Run(Start(l), ops, c).value;
    AcceptedIffPaid(l, ops, c);
    RunFees(Start(l), ops, c);
    RunExtends(Start(l), ops, c);
    if c.medians == map[] {
      NothingElse(e.balance, WorthOf(e.ledger, c));
    }
  }

  lemma {:induction false} NothingElse<K(!new), V>(t: map<K, V>, f: (K, V) -> int)
    requires forall k :: k in t ==> f(k, t[k]) == 0
    ensures Total(t, f) == 0
    decreases |t|
  {
    if t != map[] {
      var k :| k in t;
      TotalRemove(t, f, k);
      NothingElse(t - {k}, f);
    }
  }
}
