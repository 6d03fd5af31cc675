/** What one operation of a transaction keeps: supply against holdings, supply against cover debt, and
    votes against stake, each with the terms still pending in the transaction. */
module Conservation {
  import opened Options
  import opened Prices
  import opened Ledgers
  import opened Operations
  import opened Yields

  /** Supply not accounted for by holdings or by what the transaction has in hand. */
  ghost function Gap(e: Evaluation, a: AssetId): int {
    Supply(e.ledger, a) - Holdings(e.ledger, a) - Get(e.balance, a)
  }

  /** Supply not accounted for by cover debt. */
  ghost function Uncovered(l: Ledger, a: AssetId): int {
    Supply(l, a) - Debt(l, a)
  }

  /** A delegate's votes beyond its pay and stake, once the pending votes are in. */
  ghost function PendingExtra(e: Evaluation, d: AccountId, negatives: bool): int {
    ExtraVotes(e.ledger, d, negatives) + Get(e.votes, d)
  }

  /** One step from e to f: all three differences stay, but for what is lost or forgiven. */
  ghost predicate Keeps(e: Evaluation, f: Evaluation, a: AssetId, d: AccountId, negatives: bool, lost: int, forgiven: int) {
    && Gap(f, a) == Gap(e, a) + lost
    && PendingExtra(f, d, negatives) == PendingExtra(e, d, negatives)
    && (MarketIssued(e.ledger, a) ==> Uncovered(f.ledger, a) == Uncovered(e.ledger, a) + forgiven)
  }

  // ---------- what is lost ----------

  /** What a relocated cover is stored over. */
  function Displaced(l: Ledger, k: OrderKey, landing: OrderKey): Collateral {
    if landing == k then NO_COLLATERAL else CollateralAt(l, landing)
  }

  /** The relocation an accepted cover or collateral operation carries out. */
  function MoveBy(l: Ledger, op: Operation, c: Config): Option<Relocation> {
    match op
    case Cover(k, amount, newPrice, _) =>
      var r := CollateralAt(l, k);
      var principal := if amount < 0 then 0 else PrincipalPaid(r, amount, c);
      if principal > r.payoff then None else AfterPayment(k, r, principal, newPrice)
    case AddCollateral(k, amount) =>
      if amount < 0 then None else AfterAdding(k, CollateralAt(l, k), amount)
    case _ => None
  }

  function LostByMove(l: Ledger, k: OrderKey, m: Relocation, a: AssetId): int {
    if m.landing.Some? && a == 0 then Displaced(l, k, m.landing.value).collateral else 0
  }

  function ForgivenByMove(l: Ledger, k: OrderKey, m: Relocation, a: AssetId): int {
    if m.landing.None? then 0
    else
      (if m.landing.value.price.quote == a then Displaced(l, k, m.landing.value).payoff - m.rest.payoff else 0)
      + (if k.price.quote == a then m.rest.payoff else 0)
  }

  /** Collateral leaving the table is counted at asset 0 and arrives at the base of its key. */
  function BaseShift(a: AssetId, base: AssetId, amount: int): int {
    if base == 0 then 0 else if a == 0 then amount else if a == base then -amount else 0
  }

  function LostByCover(l: Ledger, k: OrderKey, m: Relocation, a: AssetId): int {
    LostByMove(l, k, m, a) + if m.landing.Some? then 0 else BaseShift(a, k.price.base, m.rest.collateral)
  }

  /** What an accepted operation takes out of asset a's holdings without taking it out of supply: the
      collateral of a displaced record; a bid quoted in the base asset, which no holdings count; and
      collateral booked under a base other than asset 0. */
  function Lost(l: Ledger, op: Operation, c: Config, a: AssetId): int {
    var m := MoveBy(l, op, c);
    match op
    case Bid(k, amount, _) => if a == 0 && k.price.quote == 0 then amount else 0
    case Cover(k, _, _, _) => if m.None? then 0 else LostByCover(l, k, m.value, a)
    case AddCollateral(k, amount) => if m.None? then 0 else LostByMove(l, k, m.value, a) - BaseShift(a, k.price.base, amount)
    case _ => 0
  }

  /** What an accepted operation takes out of asset a's debt without taking it out of supply. */
  function Forgiven(l: Ledger, op: Operation, c: Config, a: AssetId): int {
    var m := MoveBy(l, op, c);
    if m.None? then 0 else ForgivenByMove(l, op.key, m.value, a)
  }

  // ---------- votes ----------

  lemma OneMore(amount: int, weight: int)
    ensures amount * (1 + weight) == amount + amount * weight
    ensures amount * (-1 + weight) == -amount + amount * weight
    ensures amount * (0 + weight) == amount * weight
  {
  }

  lemma {:induction false} VotesAreWeights(votes: map<AccountId, int>, slate: seq<AccountId>, amount: int, negatives: bool, d: AccountId)
    ensures Get(Votes(votes, slate, amount, negatives), d) == Get(votes, d) + amount * Weight(slate, d, negatives)
    decreases |slate|
  {
    if slate != [] {
      var x := Abs(slate[0]);
      var change := if negatives && slate[0] < 0 then -amount else amount;
      VotesAreWeights(votes[x := Get(votes, x) + change], slate[1..], amount, negatives, d);
      OneMore(amount, Weight(slate[1..], d, negatives));
    }
  }

  /** Adjusting the vote for a change of stake adds exactly that stake's weight to the pending votes. */
  lemma AdjustStakeVotes(e: Evaluation, k: Condition, amount: int, c: Config, d: AccountId)
    requires AdjustStake(e, k, amount, c).Some?
    ensures var f := AdjustStake(e, k, amount, c).value;
      && f == e.(votes := f.votes)
      && Get(f.votes, d) == Get(e.votes, d) +
         (if k.asset == 0 then amount * Weight(SlateOf(e.ledger.slates, k.slate), d, c.negativeVotes) else 0)
      && (k.asset == 0 && k.slate != 0 ==> k.slate in e.ledger.slates)
  {
    if k.asset == 0 && k.slate != 0 {
      VotesAreWeights(e.votes, e.ledger.slates[k.slate], amount, c.negativeVotes, d);
    }
  }

  // ---------- balances ----------

  lemma StakeKeeps(e: Evaluation, k: Condition, r: Balance, change: int, c: Config, d: AccountId)
    requires change == r.amount - BalanceAt(e.ledger, k) && AdjustStake(e, k, change, c).Some?
    ensures var f := AdjustStake(e, k, change, c).value;
      PendingExtra(f.(ledger := f.ledger.(balances := f.ledger.balances[k := r])), d, c.negativeVotes) == PendingExtra(e, d, c.negativeVotes)
  {
    AdjustStakeVotes(e, k, change, c, d);
    StoreBalanceStake(e.ledger, k, r, change, d, c.negativeVotes);
  }

  lemma ChangeBalanceKeeps(e: Evaluation, k: Condition, r: Balance, change: int, c: Config, a: AssetId, d: AccountId)
    requires change == r.amount - BalanceAt(e.ledger, k) && ChangeBalance(e, k, r, change, c).Some?
    ensures Keeps(e, ChangeBalance(e, k, r, change, c).value, a, d, c.negativeVotes, 0, 0)
  {
    AdjustStakeVotes(e, k, change, c, d);
    StoreBalance(e.ledger, k, r, a);
    StakeKeeps(e, k, r, change, c, d);
  }

  /** The yield moves from the fees to the balance, which for a market-issued asset carries no stake. */
  lemma PayYieldKeeps(e: Evaluation, k: Condition, y: nat, now: nat, c: Config, a: AssetId, d: AccountId)
    requires k.asset in e.ledger.assets && k in e.ledger.balances && (y == 0 || k.asset != 0)
    ensures Keeps(e, PayYield(e, k, y, now), a, d, c.negativeVotes, 0, 0)
  {
    var s, r := e.ledger.assets[k.asset], e.ledger.balances[k];
    var l := e.ledger.(assets := e.ledger.assets[k.asset := s.(fees := s.fees - y)]);
    var paid := Balance(r.amount + y, now, r.genesis);
    StoreAsset(e.ledger, k.asset, s.(fees := s.fees - y), a);
    StoreBalance(l, k, paid, a);
    StoreBalanceStake(l, k, paid, y, d, c.negativeVotes);
  }

  lemma DepositKeeps(e: Evaluation, k: Condition, amount: int, c: Config, a: AssetId, d: AccountId)
    requires EvaluateDeposit(e, k, amount, c).Some?
    ensures Keeps(e, EvaluateDeposit(e, k, amount, c).value, a, d, c.negativeVotes, 0, 0)
  {
    var r := BalanceOf(e.ledger, k);
    ChangeBalanceKeeps(e, k, Balance(r.amount + amount, AverageDate(r, amount, c.now), r.genesis), amount, c, a, d);
  }

  lemma ClaimKeeps(e: Evaluation, k: Condition, amount: int, permitted: bool, c: Config, a: AssetId, d: AccountId)
    requires EvaluateClaim(e, k, amount, permitted, c).Some?
    ensures Keeps(e, EvaluateClaim(e, k, amount, permitted, c).value, a, d, c.negativeVotes, 0, 0)
  {
    ChangeBalanceKeeps(e, k, e.ledger.balances[k].(amount := 0), -amount, c, a, d);
  }

  lemma WithdrawKeeps(e: Evaluation, k: Condition, amount: int, permitted: bool, c: Config, a: AssetId, d: AccountId)
    requires WellFormed(e.ledger) && EvaluateWithdraw(e, k, amount, permitted, c).Some?
    ensures Keeps(e, EvaluateWithdraw(e, k, amount, permitted, c).value, a, d, c.negativeVotes, 0, 0)
  {
    var y := YieldDue(e.ledger.assets[k.asset], e.ledger.balances[k], c.now).value;
    YieldIsMarkets(e.ledger, k, c.now);
    var f := PayYield(e, k, y, c.now);
    var r := f.ledger.balances[k];
    PayYieldKeeps(e, k, y, c.now, c, a, d);
    ChangeBalanceKeeps(f, k, r.(amount := r.amount - amount), -amount, c, a, d);
    MarketStays(e, k, y, c.now, a);
  }

  /** A withdrawal pays into the balance, out of the asset's fees, the yield on all of it since its date, which then is now;
      and takes the amount out into the transaction. */
  lemma WithdrawPays(e: Evaluation, k: Condition, amount: int, permitted: bool, c: Config)
    requires EvaluateWithdraw(e, k, amount, permitted, c).Some?
    ensures k in e.ledger.balances && k.asset in e.ledger.assets
    ensures var r, s, f := e.ledger.balances[k], e.ledger.assets[k.asset], EvaluateWithdraw(e, k, amount, permitted, c).value;
      var due := Yield(r.amount, s.fees, s.supply, c.now - r.deposited);
      && (s.IsMarketIssued() ==> due.Some?)
      && Pays(e, f, k, amount, if s.IsMarketIssued() then due.value else 0, c.now)
  {
    var y := YieldDue(e.ledger.assets[k.asset], e.ledger.balances[k], c.now).value;
    WithdrawPayingPays(e, k, amount, y, c);
  }

  lemma WithdrawPayingPays(e: Evaluation, k: Condition, amount: int, y: nat, c: Config)
    requires WithdrawPaying(e, k, amount, y, c).Some?
    ensures k in e.ledger.balances && k.asset in e.ledger.assets
    ensures Pays(e, WithdrawPaying(e, k, amount, y, c).value, k, amount, y, c.now)
  {
    WithdrawPayingSteps(e, k, amount, y, c);
    PayYieldPays(e, k, y, c.now);
    ChangeBalancePays(e, PayYield(e, k, y, c.now), k, amount, y, c);
  }

  /** From e to f the balance at k has got a yield of y, and given the amount to the transaction. */
  predicate Pays(e: Evaluation, f: Evaluation, k: Condition, amount: int, y: nat, now: nat)
    requires k in e.ledger.balances && k.asset in e.ledger.assets
  {
    var r := e.ledger.balances[k];
    && k in f.ledger.balances && f.ledger.balances[k].amount == r.amount + y - amount
    && f.ledger.balances[k].deposited == (if y > 0 then now else r.deposited)
    && Fees(f.ledger, k.asset) == e.ledger.assets[k.asset].fees - y
    && Get(f.balance, k.asset) == Get(e.balance, k.asset) + amount
  }

  lemma PayYieldPays(e: Evaluation, k: Condition, y: nat, now: nat)
    requires k.asset in e.ledger.assets && k in e.ledger.balances
    ensures Pays(e, PayYield(e, k, y, now), k, 0, y, now)
  {
  }

  lemma ChangeBalancePays(e: Evaluation, f: Evaluation, k: Condition, amount: int, y: nat, c: Config)
    requires k in e.ledger.balances && k.asset in e.ledger.assets && Pays(e, f, k, 0, y, c.now)
    requires f.ledger.balances[k].amount >= amount
    requires ChangeBalance(f, k, f.ledger.balances[k].(amount := f.ledger.balances[k].amount - amount), -amount, c).Some?
    ensures Pays(e, ChangeBalance(f, k, f.ledger.balances[k].(amount := f.ledger.balances[k].amount - amount), -amount, c).value, k, amount, y, c.now)
  {
  }

  /** Withdrawing is paying the yield and then changing the balance. */
  lemma WithdrawPayingSteps(e: Evaluation, k: Condition, amount: int, y: nat, c: Config)
    requires WithdrawPaying(e, k, amount, y, c).Some?
    ensures k.asset in e.ledger.assets && k in e.ledger.balances && k in PayYield(e, k, y, c.now).ledger.balances
    ensures var r := PayYield(e, k, y, c.now).ledger.balances[k];
      && r.amount >= amount
      && WithdrawPaying(e, k, amount, y, c) == ChangeBalance(PayYield(e, k, y, c.now), k, r.(amount := r.amount - amount), -amount, c)
  {
  }

  lemma YieldIsMarkets(l: Ledger, k: Condition, now: nat)
    requires WellFormed(l) && k.asset in l.assets && k in l.balances
    requires YieldDue(l.assets[k.asset], l.balances[k], now).Some?
    ensures YieldDue(l.assets[k.asset], l.balances[k], now).value > 0 ==> k.asset != 0
  {
  }

  lemma MarketStays(e: Evaluation, k: Condition, y: nat, now: nat, a: AssetId)
    requires k.asset in e.ledger.assets && k in e.ledger.balances
    ensures MarketIssued(e.ledger, a) ==> MarketIssued(PayYield(e, k, y, now).ledger, a)
  {
  }

  // ---------- supply ----------

  lemma BurnKeeps(e: Evaluation, i: AssetId, amount: int, hasMessage: bool, account: AccountId, c: Config, a: AssetId, d: AccountId)
    requires EvaluateBurn(e, i, amount, hasMessage, account, c).Some?
    ensures Keeps(e, EvaluateBurn(e, i, amount, hasMessage, account, c).value, a, d, c.negativeVotes, 0, 0)
  {
    StoreAsset(e.ledger, i, EvaluateBurn(e, i, amount, hasMessage, account, c).value.ledger.assets[i], a);
  }

  lemma IssueAssetKeeps(e: Evaluation, i: AssetId, amount: int, permitted: bool, c: Config, a: AssetId, d: AccountId)
    requires WellFormed(e.ledger) && EvaluateIssueAsset(e, i, amount, permitted).Some?
    ensures Keeps(e, EvaluateIssueAsset(e, i, amount, permitted).value, a, d, c.negativeVotes, 0, 0)
  {
    StoreAsset(e.ledger, i, EvaluateIssueAsset(e, i, amount, permitted).value.ledger.assets[i], a);
  }

  lemma UpdateAssetKeeps(e: Evaluation, i: AssetId, issuer: AccountId, permitted: bool, c: Config, a: AssetId, d: AccountId)
    requires EvaluateUpdateAsset(e, i, issuer, permitted).Some?
    ensures Keeps(e, EvaluateUpdateAsset(e, i, issuer, permitted).value, a, d, c.negativeVotes, 0, 0)
  {
    StoreAsset(e.ledger, i, EvaluateUpdateAsset(e, i, issuer, permitted).value.ledger.assets[i], a);
  }

  lemma CreateAssetKeeps(e: Evaluation, issuer: AccountId, maxSupply: int, permitted: bool, c: Config, a: AssetId, d: AccountId)
    requires EvaluateCreateAsset(e, issuer, maxSupply, permitted, c).Some?
    ensures Keeps(e, EvaluateCreateAsset(e, issuer, maxSupply, permitted, c).value, a, d, c.negativeVotes, 0, 0)
  {
    StoreAsset(e.ledger, e.ledger.lastAsset + 1, Asset(issuer, 0, maxSupply, 0), a);
  }

  // ---------- slates and accounts ----------

  lemma DefineSlateKeeps(e: Evaluation, id: nat, slate: seq<AccountId>, c: Config, a: AssetId, d: AccountId)
    requires WellFormed(e.ledger) && EvaluateDefineSlate(e, id, slate, c).Some?
    ensures Keeps(e, EvaluateDefineSlate(e, id, slate, c).value, a, d, c.negativeVotes, 0, 0)
  {
    if id !in e.ledger.slates {
      StoreSlate(e.ledger, id, slate, d, c.negativeVotes);
    }
  }

  lemma StoreAccountKeeps(e: Evaluation, id: AccountId, r: Account, fee: int, c: Config, a: AssetId, d: AccountId)
    requires PayBalance(r) == Pay(e.ledger, id)
    requires (if r.delegate.Some? then r.delegate.value.votesFor else 0) == VotesFor(e.ledger, id)
    ensures Keeps(e, StoreAccountRecord(e, id, r, fee), a, d, c.negativeVotes, 0, 0)
  {
    StoreAccount(e.ledger, id, r, a);
  }

  lemma RegisterAccountKeeps(e: Evaluation, payRate: nat, permitted: bool, c: Config, a: AssetId, d: AccountId)
    requires WellFormed(e.ledger) && EvaluateRegisterAccount(e, payRate, permitted, c).Some?
    ensures Keeps(e, EvaluateRegisterAccount(e, payRate, permitted, c).value, a, d, c.negativeVotes, 0, 0)
  {
    var id := e.ledger.lastAccount + 1;
    var f := e.(ledger := e.ledger.(lastAccount := id));
    var r := Account(if payRate <= 100 then Some(Delegate(0, payRate, 0)) else None);
    var fee := c.accountFee + if payRate <= 100 then DelegateFee(payRate, c) else 0;
    assert EvaluateRegisterAccount(e, payRate, permitted, c) == Some(StoreAccountRecord(f, id, r, fee));
    StoreAccountKeeps(f, id, r, fee, c, a, d);
  }

  lemma UpdateAccountKeeps(e: Evaluation, id: AccountId, payRate: nat, permitted: bool, c: Config, a: AssetId, d: AccountId)
    requires EvaluateUpdateAccount(e, id, payRate, permitted, c).Some?
    ensures Keeps(e, EvaluateUpdateAccount(e, id, payRate, permitted, c).value, a, d, c.negativeVotes, 0, 0)
  {
    match e.ledger.accounts[id].delegate {
      case Some(r) =>
        StoreAccountKeeps(e, id, Account(Some(r.(payRate := payRate))), 0, c, a, d);
      case None =>
        StoreAccountKeeps(e, id, Account(Some(Delegate(0, payRate, 0))), DelegateFee(payRate, c), c, a, d);
    }
  }

  lemma WithdrawPayKeeps(e: Evaluation, account: AccountId, amount: int, permitted: bool, c: Config, a: AssetId, d: AccountId)
    requires EvaluateWithdrawPay(e, account, amount, permitted).Some?
    ensures Keeps(e, EvaluateWithdrawPay(e, account, amount, permitted).value, a, d, c.negativeVotes, 0, 0)
  {
    var f := EvaluateWithdrawPay(e, account, amount, permitted).value;
    StoreAccount(e.ledger, Abs(account), f.ledger.accounts[Abs(account)], a);
  }

  // ---------- orders ----------

  lemma BidKeeps(e: Evaluation, k: OrderKey, amount: int, permitted: bool, c: Config, a: AssetId, d: AccountId)
    requires EvaluateBid(e, k, amount, permitted).Some?
    ensures Keeps(e, EvaluateBid(e, k, amount, permitted).value, a, d, c.negativeVotes, Lost(e.ledger, Bid(k, amount, permitted), c, a), 0)
  {
    StoreBid(e.ledger, k, EvaluateBid(e, k, amount, permitted).value.ledger.bids[k], a);
  }

  lemma AskKeeps(e: Evaluation, k: OrderKey, amount: int, permitted: bool, c: Config, a: AssetId, d: AccountId)
    requires EvaluateAsk(e, k, amount, permitted).Some?
    ensures Keeps(e, EvaluateAsk(e, k, amount, permitted).value, a, d, c.negativeVotes, 0, 0)
  {
    StoreAsk(e.ledger, k, EvaluateAsk(e, k, amount, permitted).value.ledger.asks[k], a);
  }

  lemma ShortKeeps(e: Evaluation, k: OrderKey, amount: int, permitted: bool, c: Config, a: AssetId, d: AccountId)
    requires EvaluateShort(e, k, amount, permitted, c).Some?
    ensures Keeps(e, EvaluateShort(e, k, amount, permitted, c).value, a, d, c.negativeVotes, 0, 0)
  {
    StoreShort(e.ledger, k, EvaluateShort(e, k, amount, permitted, c).value.ledger.shorts[k], a);
  }

  // ---------- covers ----------

  lemma RelocatedCounts(l: Ledger, k: OrderKey, rest: Collateral, landing: OrderKey, a: AssetId)
    ensures var n := Relocated(l, k, rest, landing);
      && Holdings(n, a) == Holdings(l, a) +
         (if a != 0 then 0 else rest.collateral - CollateralAt(l, k).collateral - Displaced(l, k, landing).collateral)
      && Debt(n, a) == Debt(l, a) +
         (if landing.price.quote == a then rest.payoff - Displaced(l, k, landing).payoff else 0)
         - (if k.price.quote == a then CollateralAt(l, k).payoff else 0)
  {
    var cleared := l.(collateral := l.collateral[k := NO_COLLATERAL]);
    StoreCollateral(l, k, NO_COLLATERAL, a);
    StoreCollateral(cleared, landing, rest, a);
  }

  /** A payment splits into principal and interest that are both within what is owed, so none of the
      guards on a cover's payment ever fires; a payment of the whole debt clears the principal. */
  lemma PaymentSplits(r: Collateral, amount: nat, c: Config)
    ensures var principal, owed := PrincipalPaid(r, amount, c), InterestOwed(r.payoff, Accrued(r, c), RATE_DENOMINATOR);
      && 0 <= principal <= r.payoff && principal <= amount
      && (amount < r.payoff + owed ==> amount - principal <= owed)
      && (amount >= r.payoff + owed ==> principal == r.payoff)
  {
    var n := Accrued(r, c);
    if amount < r.payoff + InterestOwed(r.payoff, n, RATE_DENOMINATOR) {
      PartialPayment(amount, r.payoff, n, RATE_DENOMINATOR);
    }
  }

  lemma PayDebtKeeps(e: Evaluation, q: AssetId, principal: int, interest: int, c: Config, a: AssetId, d: AccountId)
    requires q in e.ledger.assets
    ensures Keeps(e, PayDebt(e, q, principal, interest), a, d, c.negativeVotes, 0, if a == q then -principal else 0)
  {
    StoreAsset(e.ledger, q, PayDebt(e, q, principal, interest).ledger.assets[q], a);
  }

  lemma SettleKeeps(e: Evaluation, k: OrderKey, rest: Collateral, landing: Option<OrderKey>, c: Config, a: AssetId, d: AccountId)
    requires landing.None? ==> rest.payoff == 0
    ensures var r, m := CollateralAt(e.ledger, k), Relocation(rest, landing);
      Keeps(e, Settle(e, k, rest, landing), a, d, c.negativeVotes,
            LostByMove(e.ledger, k, m, a) + (if a == 0 then r.collateral - rest.collateral else 0)
              + (if landing.Some? then 0 else BaseShift(a, k.price.base, rest.collateral)),
            ForgivenByMove(e.ledger, k, m, a) + if a == k.price.quote then r.payoff - rest.payoff else 0)
  {
    if landing.Some? {
      RelocatedCounts(e.ledger, k, rest, landing.value, a);
    } else {
      ClosedKeeps(e, k, rest, c, a, d);
    }
  }

  lemma ClosedKeeps(e: Evaluation, k: OrderKey, rest: Collateral, c: Config, a: AssetId, d: AccountId)
    ensures var r := CollateralAt(e.ledger, k);
      Keeps(e, Settle(e, k, rest, None), a, d, c.negativeVotes,
            (if a == 0 then r.collateral - rest.collateral else 0) + BaseShift(a, k.price.base, rest.collateral),
            if a == k.price.quote then r.payoff else 0)
  {
    StoreCollateral(e.ledger, k, NO_COLLATERAL, a);
  }

  /** The two steps of a cover payment. */
  lemma PayCoverSupply(e: Evaluation, k: OrderKey, amount: int, principal: int, m: Relocation, c: Config, a: AssetId, d: AccountId)
    requires k.price.quote in e.ledger.assets && m.rest.collateral == CollateralAt(e.ledger, k).collateral
    requires m.landing.None? ==> m.rest.payoff == 0
    ensures Gap(PayCover(e, k, amount, principal, m), a) == Gap(e, a) + LostByCover(e.ledger, k, m, a)
  {
    var f := PayDebt(e, k.price.quote, principal, amount - principal);
    PayDebtKeeps(e, k.price.quote, principal, amount - principal, c, a, d);
    SettleKeeps(f, k, m.rest, m.landing, c, a, d);
    assert f.ledger.collateral == e.ledger.collateral;
  }

  lemma SettleDebt(e: Evaluation, k: OrderKey, rest: Collateral, landing: Option<OrderKey>, a: AssetId)
    requires landing.None? ==> rest.payoff == 0
    ensures Uncovered(Settle(e, k, rest, landing).ledger, a) == Uncovered(e.ledger, a)
      + ForgivenByMove(e.ledger, k, Relocation(rest, landing), a)
      + if a == k.price.quote then CollateralAt(e.ledger, k).payoff - rest.payoff else 0
  {
    if landing.Some? {
      RelocatedCounts(e.ledger, k, rest, landing.value, a);
    } else {
      StoreCollateral(e.ledger, k, NO_COLLATERAL, a);
    }
  }

  lemma PayCoverDebt(e: Evaluation, k: OrderKey, amount: int, principal: int, m: Relocation, c: Config, a: AssetId)
    requires k.price.quote in e.ledger.assets && m.rest.payoff == CollateralAt(e.ledger, k).payoff - principal
    requires m.landing.None? ==> m.rest.payoff == 0
    ensures Uncovered(PayCover(e, k, amount, principal, m).ledger, a) == Uncovered(e.ledger, a) + ForgivenByMove(e.ledger, k, m, a)
  {
    var f := PayDebt(e, k.price.quote, principal, amount - principal);
    PayDebtUncovers(e, k.price.quote, principal, amount - principal, a);
    SettleDebt(f, k, m.rest, m.landing, a);
    SameForgiven(e.ledger, f.ledger, k, m, a);
  }

  lemma PayDebtUncovers(e: Evaluation, q: AssetId, principal: int, interest: int, a: AssetId)
    requires q in e.ledger.assets
    ensures var f := PayDebt(e, q, principal, interest);
      && Uncovered(f.ledger, a) == Uncovered(e.ledger, a) - (if a == q then principal else 0)
      && f.ledger.collateral == e.ledger.collateral
  {
  }

  lemma SameForgiven(l: Ledger, n: Ledger, k: OrderKey, m: Relocation, a: AssetId)
    requires n.collateral == l.collateral
    ensures ForgivenByMove(n, k, m, a) == ForgivenByMove(l, k, m, a) && CollateralAt(n, k) == CollateralAt(l, k)
  {
  }

  lemma PayCoverKeeps(e: Evaluation, k: OrderKey, amount: int, principal: int, m: Relocation, c: Config, a: AssetId, d: AccountId)
    requires k.price.quote in e.ledger.assets
    requires m.rest.collateral == CollateralAt(e.ledger, k).collateral
    requires m.rest.payoff == CollateralAt(e.ledger, k).payoff - principal && (m.landing.None? ==> m.rest.payoff == 0)
    ensures Keeps(e, PayCover(e, k, amount, principal, m), a, d, c.negativeVotes,
                  LostByCover(e.ledger, k, m, a), ForgivenByMove(e.ledger, k, m, a))
  {
    PayCoverSupply(e, k, amount, principal, m, c, a, d);
    PayCoverDebt(e, k, amount, principal, m, c, a);
  }

  lemma CoverKeeps(e: Evaluation, k: OrderKey, amount: int, newPrice: Option<Price>, permitted: bool, c: Config, a: AssetId, d: AccountId)
    requires EvaluateCover(e, k, amount, newPrice, permitted, c).Some?
    ensures var op := Cover(k, amount, newPrice, permitted);
      Keeps(e, EvaluateCover(e, k, amount, newPrice, permitted, c).value, a, d, c.negativeVotes,
            Lost(e.ledger, op, c, a), Forgiven(e.ledger, op, c, a))
  {
    var r := e.ledger.collateral[k];
    var principal := PrincipalPaid(r, amount, c);
    PayCoverKeeps(e, k, amount, principal, AfterPayment(k, r, principal, newPrice).value, c, a, d);
  }

  lemma AddCollateralKeeps(e: Evaluation, k: OrderKey, amount: int, c: Config, a: AssetId, d: AccountId)
    requires EvaluateAddCollateral(e, k, amount).Some?
    ensures var op := AddCollateral(k, amount);
      Keeps(e, EvaluateAddCollateral(e, k, amount).value, a, d, c.negativeVotes,
            Lost(e.ledger, op, c, a), Forgiven(e.ledger, op, c, a))
  {
    var m := AfterAdding(k, e.ledger.collateral[k], amount).value;
    SettleKeeps(Move(e, k.price.base, -amount), k, m.rest, m.landing, c, a, d);
  }

  // ---------- well-formedness ----------

  ghost predicate Extends(l: Ledger, n: Ledger) {
    && WellFormed(n)
    && forall a :: MarketIssued(l, a) ==> MarketIssued(n, a)
  }

  lemma ChangeBalanceExtends(e: Evaluation, k: Condition, r: Balance, change: int, c: Config)
    requires WellFormed(e.ledger) && ChangeBalance(e, k, r, change, c).Some?
    ensures Extends(e.ledger, ChangeBalance(e, k, r, change, c).value.ledger)
  {
    AdjustStakeVotes(e, k, change, c, 0);
  }

  lemma PayYieldExtends(e: Evaluation, k: Condition, y: nat, now: nat)
    requires WellFormed(e.ledger) && k.asset in e.ledger.assets && k in e.ledger.balances
    requires y == 0 || k.asset != 0
    ensures Extends(e.ledger, PayYield(e, k, y, now).ledger)
  {
  }

  lemma WithdrawExtends(e: Evaluation, k: Condition, y: nat, r: Balance, change: int, c: Config)
    requires WellFormed(e.ledger) && k.asset in e.ledger.assets && k in e.ledger.balances
    requires y == 0 || k.asset != 0
    requires ChangeBalance(PayYield(e, k, y, c.now), k, r, change, c).Some?
    ensures Extends(e.ledger, ChangeBalance(PayYield(e, k, y, c.now), k, r, change, c).value.ledger)
  {
    PayYieldExtends(e, k, y, c.now);
    ChangeBalanceExtends(PayYield(e, k, y, c.now), k, r, change, c);
  }

  lemma DepositExtends(e: Evaluation, k: Condition, amount: int, c: Config)
    requires WellFormed(e.ledger) && EvaluateDeposit(e, k, amount, c).Some?
    ensures Extends(e.ledger, EvaluateDeposit(e, k, amount, c).value.ledger)
  {
    var r := BalanceOf(e.ledger, k);
    ChangeBalanceExtends(e, k, Balance(r.amount + amount, AverageDate(r, amount, c.now), r.genesis), amount, c);
  }

  lemma PayDebtExtends(e: Evaluation, q: AssetId, principal: int, interest: int)
    requires WellFormed(e.ledger) && q in e.ledger.assets
    ensures Extends(e.ledger, PayDebt(e, q, principal, interest).ledger)
  {
  }

  lemma SettleExtends(e: Evaluation, k: OrderKey, rest: Collateral, landing: Option<OrderKey>)
    requires WellFormed(e.ledger)
    ensures Extends(e.ledger, Settle(e, k, rest, landing).ledger)
  {
  }

  lemma PayCoverExtends(e: Evaluation, k: OrderKey, amount: int, principal: int, m: Relocation)
    requires WellFormed(e.ledger) && k.price.quote in e.ledger.assets
    ensures Extends(e.ledger, PayCover(e, k, amount, principal, m).ledger)
  {
    PayDebtExtends(e, k.price.quote, principal, amount - principal);
    SettleExtends(PayDebt(e, k.price.quote, principal, amount - principal), k, m.rest, m.landing);
  }

  lemma CoverExtends(e: Evaluation, k: OrderKey, amount: int, newPrice: Option<Price>, permitted: bool, c: Config)
    requires WellFormed(e.ledger) && EvaluateCover(e, k, amount, newPrice, permitted, c).Some?
    ensures Extends(e.ledger, EvaluateCover(e, k, amount, newPrice, permitted, c).value.ledger)
  {
    var r := e.ledger.collateral[k];
    var principal := PrincipalPaid(r, amount, c);
    PayCoverExtends(e, k, amount, principal, AfterPayment(k, r, principal, newPrice).value);
  }

  lemma AssetExtends(e: Evaluation, op: Operation, c: Config)
    requires WellFormed(e.ledger) && Apply(e, op, c).Some?
    requires op.Burn? || op.CreateAsset? || op.UpdateAsset? || op.IssueAsset?
    ensures Extends(e.ledger, Apply(e, op, c).value.ledger)
  {
  }

  lemma StoreAccountExtends(e: Evaluation, id: AccountId, r: Account, fee: int)
    requires WellFormed(e.ledger) && 1 <= id <= e.ledger.lastAccount
    ensures Extends(e.ledger, StoreAccountRecord(e, id, r, fee).ledger)
  {
  }

  lemma RegisterAccountExtends(e: Evaluation, payRate: nat, permitted: bool, c: Config)
    requires WellFormed(e.ledger) && EvaluateRegisterAccount(e, payRate, permitted, c).Some?
    ensures Extends(e.ledger, EvaluateRegisterAccount(e, payRate, permitted, c).value.ledger)
  {
    var f := e.(ledger := e.ledger.(lastAccount := e.ledger.lastAccount + 1));
    var id := e.ledger.lastAccount + 1;
    if payRate <= 100 {
      StoreAccountExtends(f, id, Account(Some(Delegate(0, payRate, 0))), c.accountFee + DelegateFee(payRate, c));
    } else {
      StoreAccountExtends(f, id, Account(None), c.accountFee);
    }
  }

  lemma UpdateAccountExtends(e: Evaluation, id: AccountId, payRate: nat, permitted: bool, c: Config)
    requires WellFormed(e.ledger) && EvaluateUpdateAccount(e, id, payRate, permitted, c).Some?
    ensures Extends(e.ledger, EvaluateUpdateAccount(e, id, payRate, permitted, c).value.ledger)
  {
    match e.ledger.accounts[id].delegate {
      case Some(r) => StoreAccountExtends(e, id, Account(Some(r.(payRate := payRate))), 0);
      case None => StoreAccountExtends(e, id, Account(Some(Delegate(0, payRate, 0))), DelegateFee(payRate, c));
    }
  }

  lemma WithdrawPayExtends(e: Evaluation, account: AccountId, amount: int, permitted: bool)
    requires WellFormed(e.ledger) && EvaluateWithdrawPay(e, account, amount, permitted).Some?
    ensures Extends(e.ledger, EvaluateWithdrawPay(e, account, amount, permitted).value.ledger)
  {
    var g := EvaluateWithdrawPay(e, account, amount, permitted).value;
    StoreAccountExtends(e, Abs(account), g.ledger.accounts[Abs(account)], 0);
  }

  lemma OrderExtends(e: Evaluation, op: Operation, c: Config)
    requires WellFormed(e.ledger) && Apply(e, op, c).Some?
    requires op.Bid? || op.Ask? || op.Short?
    ensures Extends(e.ledger, Apply(e, op, c).value.ledger)
  {
    var l, n := e.ledger, Apply(e, op, c).value.ledger;
    assert n == l.(bids := n.bids, asks := n.asks, shorts := n.shorts);
  }

  lemma AddCollateralExtends(e: Evaluation, k: OrderKey, amount: int)
    requires WellFormed(e.ledger) && EvaluateAddCollateral(e, k, amount).Some?
    ensures Extends(e.ledger, EvaluateAddCollateral(e, k, amount).value.ledger)
  {
    var m := AfterAdding(k, e.ledger.collateral[k], amount).value;
    SettleExtends(Move(e, k.price.base, -amount), k, m.rest, m.landing);
  }

  lemma DefineSlateExtends(e: Evaluation, id: nat, slate: seq<AccountId>, c: Config)
    requires WellFormed(e.ledger) && EvaluateDefineSlate(e, id, slate, c).Some?
    ensures Extends(e.ledger, EvaluateDefineSlate(e, id, slate, c).value.ledger)
  {
  }

  lemma WithdrawPayingExtends(e: Evaluation, k: Condition, amount: int, y: nat, c: Config)
    requires WellFormed(e.ledger) && (y == 0 || k.asset != 0) && WithdrawPaying(e, k, amount, y, c).Some?
    ensures Extends(e.ledger, WithdrawPaying(e, k, amount, y, c).value.ledger)
  {
    var r := PayYield(e, k, y, c.now).ledger.balances[k];
    WithdrawExtends(e, k, y, r.(amount := r.amount - amount), -amount, c);
  }

  lemma WithdrawOpExtends(e: Evaluation, k: Condition, amount: int, permitted: bool, c: Config)
    requires WellFormed(e.ledger) && EvaluateWithdraw(e, k, amount, permitted, c).Some?
    ensures Extends(e.ledger, EvaluateWithdraw(e, k, amount, permitted, c).value.ledger)
  {
    var y := YieldDue(e.ledger.assets[k.asset], e.ledger.balances[k], c.now).value;
    assert EvaluateWithdraw(e, k, amount, permitted, c) == WithdrawPaying(e, k, amount, y, c);
    WithdrawPayingExtends(e, k, amount, y, c);
  }

  lemma BalanceExtends(e: Evaluation, op: Operation, c: Config)
    requires WellFormed(e.ledger) && Apply(e, op, c).Some?
    requires op.Deposit? || op.Withdraw? || op.Claim?
    ensures Extends(e.ledger, Apply(e, op, c).value.ledger)
  {
    var k := op.condition;
    match op {
      case Deposit(_, amount) => DepositExtends(e, k, amount, c);
      case Withdraw(_, amount, permitted) => WithdrawOpExtends(e, k, amount, permitted, c);
      case Claim(_, amount, _) => ChangeBalanceExtends(e, k, e.ledger.balances[k].(amount := 0), -amount, c);
    }
  }

  lemma AccountExtends(e: Evaluation, op: Operation, c: Config)
    requires WellFormed(e.ledger) && Apply(e, op, c).Some?
    requires op.RegisterAccount? || op.UpdateAccount? || op.WithdrawPay?
    ensures Extends(e.ledger, Apply(e, op, c).value.ledger)
  {
    match op {
      case RegisterAccount(payRate, permitted) => RegisterAccountExtends(e, payRate, permitted, c);
      case UpdateAccount(id, payRate, permitted) => UpdateAccountExtends(e, id, payRate, permitted, c);
      case WithdrawPay(account, amount, permitted) => WithdrawPayExtends(e, account, amount, permitted);
    }
  }

  lemma ApplyExtends(e: Evaluation, op: Operation, c: Config)
    requires WellFormed(e.ledger) && Apply(e, op, c).Some?
    ensures Extends(e.ledger, Apply(e, op, c).value.ledger)
  {
    if op.Deposit? || op.Withdraw? || op.Claim? {
      BalanceExtends(e, op, c);
    } else if op.RegisterAccount? || op.UpdateAccount? || op.WithdrawPay? {
      AccountExtends(e, op, c);
    } else if op.Burn? || op.CreateAsset? || op.UpdateAsset? || op.IssueAsset? {
      AssetExtends(e, op, c);
    } else if op.Cover? {
      CoverExtends(e, op.key, op.amount, op.newPrice, op.permitted, c);
    } else if op.AddCollateral? {
      AddCollateralExtends(e, op.key, op.amount);
    } else if op.DefineSlate? {
      DefineSlateExtends(e, op.id, op.delegates, c);
    } else {
      OrderExtends(e, op, c);
    }
  }

  /** Every operation keeps every asset's supply equation, every delegate's vote equation and every
      market-issued asset's debt equation, but for exactly what Lost and Forgiven say. */
  lemma ApplyKeeps(e: Evaluation, op: Operation, c: Config, a: AssetId, d: AccountId)
    requires WellFormed(e.ledger) && Apply(e, op, c).Some?
    ensures Keeps(e, Apply(e, op, c).value, a, d, c.negativeVotes, Lost(e.ledger, op, c, a), Forgiven(e.ledger, op, c, a))
  {
    match op {
      case Deposit(k, amount) => DepositKeeps(e, k, amount, c, a, d);
      case Withdraw(k, amount, permitted) => WithdrawKeeps(e, k, amount, permitted, c, a, d);
      case Claim(k, amount, permitted) => ClaimKeeps(e, k, amount, permitted, c, a, d);
      case Burn(i, amount, hasMessage, account) => BurnKeeps(e, i, amount, hasMessage, account, c, a, d);
      case DefineSlate(id, delegates) => DefineSlateKeeps(e, id, delegates, c, a, d);
      case Bid(k, amount, permitted) => BidKeeps(e, k, amount, permitted, c, a, d);
      case Ask(k, amount, permitted) => AskKeeps(e, k, amount, permitted, c, a, d);
      case Short(k, amount, permitted) => ShortKeeps(e, k, amount, permitted, c, a, d);
      case Cover(k, amount, newPrice, permitted) => CoverKeeps(e, k, amount, newPrice, permitted, c, a, d);
      case AddCollateral(k, amount) => AddCollateralKeeps(e, k, amount, c, a, d);
      case RegisterAccount(payRate, permitted) => RegisterAccountKeeps(e, payRate, permitted, c, a, d);
      case UpdateAccount(id, payRate, permitted) => UpdateAccountKeeps(e, id, payRate, permitted, c, a, d);
      case WithdrawPay(account, amount, permitted) => WithdrawPayKeeps(e, account, amount, permitted, c, a, d);
      case CreateAsset(issuer, maxSupply, permitted) => CreateAssetKeeps(e, issuer, maxSupply, permitted, c, a, d);
      case UpdateAsset(i, issuer, permitted) => UpdateAssetKeeps(e, i, issuer, permitted, c, a, d);
      case IssueAsset(i, amount, permitted) => IssueAssetKeeps(e, i, amount, permitted, c, a, d);
    }
  }

  // ---------- when nothing is lost ----------

  /** Nothing stands where the cover moves to, collateral is in the base asset, and bids are not
      quoted in it. */
  predicate Counted(l: Ledger, op: Operation, c: Config) {
    var m := MoveBy(l, op, c);
    match op
    case Bid(k, amount, _) => k.price.quote != 0
    case Cover(k, _, _, _) =>
      m.None? || if m.value.landing.Some? then Displaced(l, k, m.value.landing.value).collateral == 0
                 else k.price.base == 0 || m.value.rest.collateral == 0
    case AddCollateral(k, _) => k.price.base == 0 && (m.None? || Displaced(l, k, m.value.landing.value).collateral == 0)
    case _ => true
  }

  /** No debt stands where the cover moves to, and it stays in its own market. */
  predicate Owed(l: Ledger, op: Operation, c: Config) {
    var m := MoveBy(l, op, c);
    if m.None? || m.value.landing.None? then true
    else
      && Displaced(l, op.key, m.value.landing.value).payoff == 0
      && (m.value.landing.value.price.quote == op.key.price.quote || m.value.rest.payoff == 0)
  }

  /** An accepted operation loses nothing of any asset exactly when it is Counted. */
  lemma LosesNothing(e: Evaluation, op: Operation, c: Config)
    requires Apply(e, op, c).Some?
    ensures (forall a :: Lost(e.ledger, op, c, a) == 0) <==> Counted(e.ledger, op, c)
  {
    if forall a :: Lost(e.ledger, op, c, a) == 0 {
      assert Lost(e.ledger, op, c, 0) == 0;
      if op.AddCollateral? || op.Cover? {
        assert Lost(e.ledger, op, c, op.key.price.base) == 0;
      }
    }
  }

  /** And forgives no debt of any asset exactly when it is Owed. */
  lemma ForgivesNothing(e: Evaluation, op: Operation, c: Config)
    requires Apply(e, op, c).Some?
    ensures (forall a :: Forgiven(e.ledger, op, c, a) == 0) <==> Owed(e.ledger, op, c)
  {
    var m := MoveBy(e.ledger, op, c);
    if (forall a :: Forgiven(e.ledger, op, c, a) == 0) && m.Some? && m.value.landing.Some? {
      assert Forgiven(e.ledger, op, c, op.key.price.quote) == 0;
      assert Forgiven(e.ledger, op, c, m.value.landing.value.price.quote) == 0;
    }
  }
}
