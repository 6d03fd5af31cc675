/** Undoing a block leaves the balances it opened behind as null records. Ledgers that differ in null
    records alone accept the same blocks, to the same effect, so a node that has switched forks goes on
    exactly as one that never left. */
module NullRecords {
  import opened Options
  import opened Prices
  import opened Ledgers
  import opened Operations
  import opened Matching
  import opened Settlement
  import opened Listing
  import opened Blocks
  import T = Transactions
  import B = Backing
  import Sums

  /** The same record, or nothing and a null record that never was a genesis balance. */
  predicate SameRecord(r: Balance, s: Balance) {
    r == s || (r.amount == 0 && s.amount == 0 && !r.genesis && !s.genesis)
  }

  ghost predicate Alike(l: Ledger, n: Ledger) {
    && n.(balances := l.balances) == l
    && forall k :: SameRecord(BalanceOf(l, k), BalanceOf(n, k))
  }

  lemma AlikeOn(l: Ledger, o: Ledger, n: Ledger)
    requires Alike(l, o) && Alike(o, n)
    ensures Alike(l, n)
  {
    forall k
      ensures SameRecord(BalanceOf(l, k), BalanceOf(n, k))
    {
      assert SameRecord(BalanceOf(l, k), BalanceOf(o, k)) && SameRecord(BalanceOf(o, k), BalanceOf(n, k));
    }
  }

  lemma BalanceStored(l: Ledger, n: Ledger, k: Condition, r: Balance)
    requires Alike(l, n)
    ensures Alike(l.(balances := l.balances[k := r]), n.(balances := n.balances[k := r]))
  {
    var m, o := l.(balances := l.balances[k := r]), n.(balances := n.balances[k := r]);
    forall j
      ensures SameRecord(BalanceOf(m, j), BalanceOf(o, j))
    {
      assert SameRecord(BalanceOf(l, j), BalanceOf(n, j));
    }
  }

  /** Everything but the balances moves alike. */
  lemma Reconciled(l: Ledger, n: Ledger, m: Ledger, o: Ledger)
    requires Alike(l, n) && m.balances == l.balances && o == m.(balances := n.balances)
    ensures Alike(m, o)
  {
    forall k
      ensures SameRecord(BalanceOf(m, k), BalanceOf(o, k))
    {
      assert SameRecord(BalanceOf(l, k), BalanceOf(n, k));
    }
  }

  // ---------- operations ----------

  ghost predicate AlikeEval(e: Evaluation, f: Evaluation) {
    f == e.(ledger := f.ledger) && Alike(e.ledger, f.ledger)
  }

  ghost predicate AlikeResult(r: Option<Evaluation>, t: Option<Evaluation>) {
    (r.Some? <==> t.Some?) && (r.Some? ==> AlikeEval(r.value, t.value))
  }

  lemma ChangeAlike(e: Evaluation, f: Evaluation, k: Condition, r: Balance, change: int, c: Config)
    requires AlikeEval(e, f)
    ensures AlikeResult(ChangeBalance(e, k, r, change, c), ChangeBalance(f, k, r, change, c))
  {
    BalanceStored(e.ledger, f.ledger, k, r);
  }

  lemma DepositAlike(e: Evaluation, f: Evaluation, k: Condition, amount: int, c: Config)
    requires AlikeEval(e, f)
    ensures AlikeResult(EvaluateDeposit(e, k, amount, c), EvaluateDeposit(f, k, amount, c))
  {
    if amount > 0 {
      var r, s := BalanceOf(e.ledger, k), BalanceOf(f.ledger, k);
      assert SameRecord(r, s);
      ChangeAlike(e, f, k, Balance(r.amount + amount, AverageDate(r, amount, c.now), r.genesis), amount, c);
    }
  }

  /** From a null record nothing can be withdrawn, as from none. */
  lemma WithdrawNull(e: Evaluation, k: Condition, amount: int, permitted: bool, c: Config)
    requires BalanceOf(e.ledger, k).amount == 0
    ensures EvaluateWithdraw(e, k, amount, permitted, c).None?
  {
  }

  lemma WithdrawAlike(e: Evaluation, f: Evaluation, k: Condition, amount: int, permitted: bool, c: Config)
    requires AlikeEval(e, f)
    ensures AlikeResult(EvaluateWithdraw(e, k, amount, permitted, c), EvaluateWithdraw(f, k, amount, permitted, c))
  {
    assert SameRecord(BalanceOf(e.ledger, k), BalanceOf(f.ledger, k));
    if BalanceOf(e.ledger, k).amount == 0 {
      WithdrawNull(e, k, amount, permitted, c);
      WithdrawNull(f, k, amount, permitted, c);
    } else if permitted && k.asset in e.ledger.assets {
      var y := YieldDue(e.ledger.assets[k.asset], e.ledger.balances[k], c.now);
      if y.Some? {
        PayingAlike(e, f, k, amount, y.value, c);
      }
    }
  }

  lemma PayingAlike(e: Evaluation, f: Evaluation, k: Condition, amount: int, y: nat, c: Config)
    requires AlikeEval(e, f) && k in e.ledger.balances && k in f.ledger.balances && f.ledger.balances[k] == e.ledger.balances[k]
    requires k.asset in e.ledger.assets
    ensures AlikeResult(WithdrawPaying(e, k, amount, y, c), WithdrawPaying(f, k, amount, y, c))
  {
    if 0 < amount <= e.ledger.balances[k].amount {
      YieldAlike(e, f, k, y, c.now);
      PayingIs(e, k, amount, y, c);
      PayingIs(f, k, amount, y, c);
      TakenAlike(PayYield(e, k, y, c.now), PayYield(f, k, y, c.now), k, amount, c);
    } else {
      PayingRefused(e, k, amount, y, c);
      PayingRefused(f, k, amount, y, c);
    }
  }

  lemma PayingRefused(e: Evaluation, k: Condition, amount: int, y: nat, c: Config)
    requires k in e.ledger.balances && !(0 < amount <= e.ledger.balances[k].amount)
    ensures WithdrawPaying(e, k, amount, y, c).None?
  {
  }

  lemma PayingIs(e: Evaluation, k: Condition, amount: int, y: nat, c: Config)
    requires k in e.ledger.balances && k.asset in e.ledger.assets && 0 < amount <= e.ledger.balances[k].amount
    ensures var p := PayYield(e, k, y, c.now);
      && k in p.ledger.balances && amount <= p.ledger.balances[k].amount
      && WithdrawPaying(e, k, amount, y, c) ==
           ChangeBalance(p, k, p.ledger.balances[k].(amount := p.ledger.balances[k].amount - amount), -amount, c)
  {
  }

  lemma TakenAlike(e: Evaluation, f: Evaluation, k: Condition, amount: int, c: Config)
    requires AlikeEval(e, f) && k in e.ledger.balances && k in f.ledger.balances && f.ledger.balances[k] == e.ledger.balances[k]
    requires 0 < amount <= e.ledger.balances[k].amount
    ensures var r := e.ledger.balances[k].(amount := e.ledger.balances[k].amount - amount);
      AlikeResult(ChangeBalance(e, k, r, -amount, c), ChangeBalance(f, k, r, -amount, c))
  {
    ChangeAlike(e, f, k, e.ledger.balances[k].(amount := e.ledger.balances[k].amount - amount), -amount, c);
  }

  lemma YieldAlike(e: Evaluation, f: Evaluation, k: Condition, y: nat, now: nat)
    requires AlikeEval(e, f) && k in e.ledger.balances && k in f.ledger.balances && f.ledger.balances[k] == e.ledger.balances[k]
    requires k.asset in e.ledger.assets
    ensures AlikeEval(PayYield(e, k, y, now), PayYield(f, k, y, now))
    ensures PayYield(e, k, y, now).ledger.balances[k] == PayYield(f, k, y, now).ledger.balances[k]
  {
    if y != 0 {
      var r := Balance(e.ledger.balances[k].amount + y, now, e.ledger.balances[k].genesis);
      var l, n := e.ledger.(balances := e.ledger.balances[k := r]), f.ledger.(balances := f.ledger.balances[k := r]);
      BalanceStored(e.ledger, f.ledger, k, r);
      Reconciled(l, n, PayYield(e, k, y, now).ledger, PayYield(f, k, y, now).ledger);
    }
  }

  lemma ClaimAlike(e: Evaluation, f: Evaluation, k: Condition, amount: int, permitted: bool, c: Config)
    requires AlikeEval(e, f)
    ensures AlikeResult(EvaluateClaim(e, k, amount, permitted, c), EvaluateClaim(f, k, amount, permitted, c))
  {
    assert SameRecord(BalanceOf(e.ledger, k), BalanceOf(f.ledger, k));
    if EvaluateClaim(e, k, amount, permitted, c).Some? {
      ChangeAlike(e, f, k, e.ledger.balances[k].(amount := 0), -amount, c);
    } else if k in e.ledger.balances && k in f.ledger.balances && e.ledger.balances[k] == f.ledger.balances[k] {
      ChangeAlike(e, f, k, e.ledger.balances[k].(amount := 0), -amount, c);
    }
  }

  /** The other operations neither read nor write balances. */
  function WithBalances(e: Evaluation, balances: map<Condition, Balance>): Evaluation {
    e.(ledger := e.ledger.(balances := balances))
  }

  ghost predicate Beside(r: Option<Evaluation>, t: Option<Evaluation>, e: Evaluation, balances: map<Condition, Balance>) {
    && (r.Some? <==> t.Some?)
    && (r.Some? ==> r.value.ledger.balances == e.ledger.balances && t.value == WithBalances(r.value, balances))
  }

  lemma OrderApart(e: Evaluation, balances: map<Condition, Balance>, op: Operation, c: Config)
    requires op.Bid? || op.Ask?
    ensures Beside(Apply(e, op, c), Apply(WithBalances(e, balances), op, c), e, balances)
  {
  }

  lemma ShortApart(e: Evaluation, balances: map<Condition, Balance>, k: OrderKey, amount: int, permitted: bool, c: Config)
    ensures Beside(EvaluateShort(e, k, amount, permitted, c), EvaluateShort(WithBalances(e, balances), k, amount, permitted, c), e, balances)
  {
  }

  lemma PayDebtApart(e: Evaluation, balances: map<Condition, Balance>, q: AssetId, principal: int, interest: int)
    requires q in e.ledger.assets
    ensures PayDebt(e, q, principal, interest).ledger.balances == e.ledger.balances
    ensures PayDebt(WithBalances(e, balances), q, principal, interest) == WithBalances(PayDebt(e, q, principal, interest), balances)
  {
  }

  lemma SettleApart(e: Evaluation, balances: map<Condition, Balance>, k: OrderKey, rest: Collateral, landing: Option<OrderKey>)
    ensures Settle(e, k, rest, landing).ledger.balances == e.ledger.balances
    ensures Settle(WithBalances(e, balances), k, rest, landing) == WithBalances(Settle(e, k, rest, landing), balances)
  {
  }

  lemma PayCoverApart(e: Evaluation, balances: map<Condition, Balance>, k: OrderKey, amount: int, principal: int, m: Relocation)
    requires k.price.quote in e.ledger.assets
    ensures Beside(Some(Operations.PayCover(e, k, amount, principal, m)),
                   Some(Operations.PayCover(WithBalances(e, balances), k, amount, principal, m)), e, balances)
  {
    PayDebtApart(e, balances, k.price.quote, principal, amount - principal);
    SettleApart(PayDebt(e, k.price.quote, principal, amount - principal), balances, k, m.rest, m.landing);
  }

  lemma AddCollateralApart(e: Evaluation, balances: map<Condition, Balance>, k: OrderKey, amount: int)
    ensures Beside(EvaluateAddCollateral(e, k, amount), EvaluateAddCollateral(WithBalances(e, balances), k, amount), e, balances)
  {
    if EvaluateAddCollateral(e, k, amount).Some? {
      var m := AfterAdding(k, e.ledger.collateral[k], amount).value;
      SettleApart(Move(e, k.price.base, -amount), balances, k, m.rest, m.landing);
    }
  }

  lemma CoverApart(e: Evaluation, balances: map<Condition, Balance>, k: OrderKey, amount: int, newPrice: Option<Price>, permitted: bool, c: Config)
    ensures Beside(EvaluateCover(e, k, amount, newPrice, permitted, c),
                   EvaluateCover(WithBalances(e, balances), k, amount, newPrice, permitted, c), e, balances)
  {
    if EvaluateCover(e, k, amount, newPrice, permitted, c).Some? {
      var r := e.ledger.collateral[k];
      var principal := PrincipalPaid(r, amount, c);
      PayCoverApart(e, balances, k, amount, principal, AfterPayment(k, r, principal, newPrice).value);
    }
  }

  lemma SlateApart(e: Evaluation, balances: map<Condition, Balance>, id: nat, slate: seq<AccountId>, c: Config)
    ensures Beside(EvaluateDefineSlate(e, id, slate, c), EvaluateDefineSlate(WithBalances(e, balances), id, slate, c), e, balances)
  {
    assert AreDelegates(e.ledger, slate) <==> AreDelegates(WithBalances(e, balances).ledger, slate);
  }

  lemma StoreApart(e: Evaluation, balances: map<Condition, Balance>, id: AccountId, r: Account, fee: int)
    ensures StoreAccountRecord(e, id, r, fee).ledger.balances == e.ledger.balances
    ensures StoreAccountRecord(WithBalances(e, balances), id, r, fee) == WithBalances(StoreAccountRecord(e, id, r, fee), balances)
  {
  }

  lemma RegisterApart(e: Evaluation, balances: map<Condition, Balance>, payRate: nat, permitted: bool, c: Config)
    ensures Beside(EvaluateRegisterAccount(e, payRate, permitted, c),
                   EvaluateRegisterAccount(WithBalances(e, balances), payRate, permitted, c), e, balances)
  {
    if permitted {
      var id := e.ledger.lastAccount + 1;
      var f := e.(ledger := e.ledger.(lastAccount := id));
      if payRate <= 100 {
        StoreApart(f, balances, id, Account(Some(Delegate(0, payRate, 0))), c.accountFee + DelegateFee(payRate, c));
      } else {
        StoreApart(f, balances, id, Account(None), c.accountFee);
      }
    }
  }

  lemma UpdateApart(e: Evaluation, balances: map<Condition, Balance>, id: AccountId, payRate: nat, permitted: bool, c: Config)
    ensures Beside(EvaluateUpdateAccount(e, id, payRate, permitted, c),
                   EvaluateUpdateAccount(WithBalances(e, balances), id, payRate, permitted, c), e, balances)
  {
    if EvaluateUpdateAccount(e, id, payRate, permitted, c).Some? {
      match e.ledger.accounts[id].delegate
      case Some(r) => StoreApart(e, balances, id, Account(Some(r.(payRate := payRate))), 0);
      case None => StoreApart(e, balances, id, Account(Some(Delegate(0, payRate, 0))), DelegateFee(payRate, c));
    }
  }

  lemma WithdrawPayApart(e: Evaluation, balances: map<Condition, Balance>, account: AccountId, amount: int, permitted: bool)
    ensures Beside(EvaluateWithdrawPay(e, account, amount, permitted),
                   EvaluateWithdrawPay(WithBalances(e, balances), account, amount, permitted), e, balances)
  {
  }

  lemma AccountApart(e: Evaluation, balances: map<Condition, Balance>, op: Operation, c: Config)
    requires op.DefineSlate? || op.RegisterAccount? || op.UpdateAccount? || op.WithdrawPay?
    ensures Beside(Apply(e, op, c), Apply(WithBalances(e, balances), op, c), e, balances)
  {
    match op {
      case DefineSlate(id, slate) => SlateApart(e, balances, id, slate, c);
      case RegisterAccount(payRate, permitted) => RegisterApart(e, balances, payRate, permitted, c);
      case UpdateAccount(id, payRate, permitted) => UpdateApart(e, balances, id, payRate, permitted, c);
      case WithdrawPay(account, amount, permitted) => WithdrawPayApart(e, balances, account, amount, permitted);
    }
  }

  lemma IssuedApart(e: Evaluation, balances: map<Condition, Balance>, op: Operation, c: Config)
    requires op.Burn? || op.IssueAsset?
    ensures Beside(Apply(e, op, c), Apply(WithBalances(e, balances), op, c), e, balances)
  {
  }

  lemma AssetApart(e: Evaluation, balances: map<Condition, Balance>, op: Operation, c: Config)
    requires op.CreateAsset? || op.UpdateAsset?
    ensures Beside(Apply(e, op, c), Apply(WithBalances(e, balances), op, c), e, balances)
  {
  }

  lemma RestAlike(e: Evaluation, f: Evaluation, op: Operation, c: Config)
    requires AlikeEval(e, f) && !op.Deposit? && !op.Withdraw? && !op.Claim?
    ensures AlikeResult(Apply(e, op, c), Apply(f, op, c))
  {
    var balances := f.ledger.balances;
    if op.Cover? {
      CoverApart(e, balances, op.key, op.amount, op.newPrice, op.permitted, c);
    } else if op.AddCollateral? {
      AddCollateralApart(e, balances, op.key, op.amount);
    } else if op.Short? {
      ShortApart(e, balances, op.key, op.amount, op.permitted, c);
    } else if op.Bid? || op.Ask? {
      OrderApart(e, balances, op, c);
    } else if op.Burn? || op.IssueAsset? {
      IssuedApart(e, balances, op, c);
    } else if op.CreateAsset? || op.UpdateAsset? {
      AssetApart(e, balances, op, c);
    } else {
      AccountApart(e, balances, op, c);
    }
    BesideAlike(e, f, Apply(e, op, c), Apply(f, op, c));
  }

  lemma BesideAlike(e: Evaluation, f: Evaluation, r: Option<Evaluation>, t: Option<Evaluation>)
    requires AlikeEval(e, f) && Beside(r, t, e, f.ledger.balances)
    ensures AlikeResult(r, t)
  {
    if r.Some? {
      Reconciled(e.ledger, f.ledger, r.value.ledger, t.value.ledger);
    }
  }

  lemma ApplyAlike(e: Evaluation, f: Evaluation, op: Operation, c: Config)
    requires AlikeEval(e, f)
    ensures AlikeResult(Apply(e, op, c), Apply(f, op, c))
  {
    if op.Deposit? {
      DepositAlike(e, f, op.condition, op.amount, c);
    } else if op.Withdraw? {
      WithdrawAlike(e, f, op.condition, op.amount, op.permitted, c);
    } else if op.Claim? {
      ClaimAlike(e, f, op.condition, op.amount, op.permitted, c);
    } else {
      RestAlike(e, f, op, c);
    }
  }

  lemma {:induction false} RunAlike(e: Evaluation, f: Evaluation, ops: seq<Operation>, c: Config)
    requires AlikeEval(e, f)
    ensures AlikeResult(T.Run(e, ops, c), T.Run(f, ops, c))
    decreases |ops|
  {
    if ops != [] {
      ApplyAlike(e, f, ops[0], c);
      if Apply(e, ops[0], c).Some? {
        RunAlike(Apply(e, ops[0], c).value, Apply(f, ops[0], c).value, ops[1..], c);
      }
    }
  }

  lemma FeesAlike(l: Ledger, n: Ledger, balance: map<AssetId, int>, c: Config)
    requires Alike(l, n)
    ensures T.AltFees(l, balance, c) == T.AltFees(n, balance, c)
  {
    forall a | a in balance
      ensures T.AltFeeOf(l, c)(a, balance[a]) == T.AltFeeOf(n, c)(a, balance[a])
    {
      assert MarketIssued(l, a) <==> MarketIssued(n, a);
    }
    Sums.TotalSame(balance, T.AltFeeOf(l, c), balance, T.AltFeeOf(n, c));
  }

  lemma BookedAlike(l: Ledger, n: Ledger, balance: map<AssetId, int>, votes: map<AccountId, int>)
    requires Alike(l, n)
    ensures Alike(T.AddVotes(T.CollectFees(l, balance), votes), T.AddVotes(T.CollectFees(n, balance), votes))
  {
    Reconciled(l, n, T.AddVotes(T.CollectFees(l, balance), votes), T.AddVotes(T.CollectFees(n, balance), votes));
  }

  lemma TransactionAlike(l: Ledger, n: Ledger, ops: seq<Operation>, c: Config)
    requires Alike(l, n)
    ensures T.Evaluate(l, ops, c).Some? <==> T.Evaluate(n, ops, c).Some?
    ensures T.Evaluate(l, ops, c).Some? ==> Alike(T.Evaluate(l, ops, c).value, T.Evaluate(n, ops, c).value)
  {
    RunAlike(T.Start(l), T.Start(n), ops, c);
    if T.Run(T.Start(l), ops, c).Some? {
      var e, f := T.Run(T.Start(l), ops, c).value, T.Run(T.Start(n), ops, c).value;
      FeesAlike(e.ledger, f.ledger, e.balance, c);
      BookedAlike(e.ledger, f.ledger, e.balance, e.votes);
      assert T.Payable(e.ledger, e.balance) <==> T.Payable(f.ledger, f.balance);
      assert T.Electable(e.ledger, e.votes) <==> T.Electable(f.ledger, f.votes);
    }
  }

  lemma {:induction false} TransactionsAlike(l: Ledger, n: Ledger, transactions: seq<seq<Operation>>, c: Config)
    requires Alike(l, n)
    ensures EvaluateAll(l, transactions, c).Some? <==> EvaluateAll(n, transactions, c).Some?
    ensures EvaluateAll(l, transactions, c).Some? ==> Alike(EvaluateAll(l, transactions, c).value, EvaluateAll(n, transactions, c).value)
    decreases |transactions|
  {
    if transactions != [] {
      TransactionAlike(l, n, transactions[0], c);
      if T.Evaluate(l, transactions[0], c).Some? {
        TransactionsAlike(T.Evaluate(l, transactions[0], c).value, T.Evaluate(n, transactions[0], c).value, transactions[1..], c);
      }
    }
  }

  // ---------- markets ----------

  ghost predicate AlikeBook(b: Book, c: Book) {
    c == b.(l := c.l) && Alike(b.l, c.l)
  }

  ghost predicate AlikeEngine(e: Engine, f: Engine) {
    f == e.(book := f.book) && AlikeBook(e.book, f.book)
  }

  lemma PayOutAlike(l: Ledger, n: Ledger, m: Market, owner: nat, a: AssetId, amount: nat)
    requires Alike(l, n)
    ensures Alike(PayOut(l, m, owner, a, amount), PayOut(n, m, owner, a, amount))
  {
    var k := Condition(owner, a, 0);
    assert SameRecord(BalanceOf(l, k), BalanceOf(n, k));
    BalanceStored(l, n, k, PayOut(l, m, owner, a, amount).balances[k]);
  }

  lemma BidAlike(m: Market, b: Book, c: Book, o: Order, paid: nat, received: nat)
    requires AlikeBook(b, c) && paid <= o.balance
    ensures AlikeBook(PayBid(b, m, o, paid, received), PayBid(c, m, o, paid, received))
  {
    var l, n := PayOut(b.l, m, o.key.owner, m.base, received), PayOut(c.l, m, o.key.owner, m.base, received);
    PayOutAlike(b.l, c.l, m, o.key.owner, m.base, received);
    Reconciled(l, n, PayBid(b, m, o, paid, received).l, PayBid(c, m, o, paid, received).l);
  }

  lemma ShortAlike(m: Market, b: Book, c: Book, o: Order, f: Fill)
    requires AlikeBook(b, c) && f.shortCollateral <= o.balance
    ensures PayShort(b, m, o, f).Some? <==> PayShort(c, m, o, f).Some?
    ensures PayShort(b, m, o, f).Some? ==> AlikeBook(PayShort(b, m, o, f).value, PayShort(c, m, o, f).value)
  {
    if PayShort(b, m, o, f).Some? {
      Reconciled(b.l, c.l, PayShort(b, m, o, f).value.l, PayShort(c, m, o, f).value.l);
    }
  }

  lemma AskAlike(m: Market, b: Book, c: Book, o: Order, paid: nat, received: nat, onQuote: bool)
    requires AlikeBook(b, c) && paid <= o.balance
    ensures AlikeBook(PayAsk(b, m, o, paid, received, onQuote), PayAsk(c, m, o, paid, received, onQuote))
  {
    var l, n := PayOut(b.l, m, o.key.owner, m.quote, received), PayOut(c.l, m, o.key.owner, m.quote, received);
    PayOutAlike(b.l, c.l, m, o.key.owner, m.quote, received);
    Reconciled(l, n, PayAsk(b, m, o, paid, received, onQuote).l, PayAsk(c, m, o, paid, received, onQuote).l);
  }

  lemma CloseAlike(m: Market, b: Book, c: Book, o: Order, left: nat, owed: nat, fee: nat)
    requires AlikeBook(b, c) && fee <= left
    ensures AlikeBook(CloseCover(b, m, o, left, owed, fee), CloseCover(c, m, o, left, owed, fee))
  {
    if left > 0 && owed == 0 {
      var l, n := PayOut(b.l, m, o.key.owner, m.base, left - fee), PayOut(c.l, m, o.key.owner, m.base, left - fee);
      PayOutAlike(b.l, c.l, m, o.key.owner, m.base, left - fee);
      Reconciled(l, n, StoreCover(l, o, 0, 0), StoreCover(n, o, 0, 0));
    } else {
      Reconciled(b.l, c.l, StoreCover(b.l, o, left, owed), StoreCover(c.l, o, left, owed));
    }
  }

  lemma ExchangeAlike(m: Market, e: Engine, f: Engine, x: Fill)
    requires AlikeEngine(e, f) && B.Paired(e)
    ensures match B.Exchange(m, e, x)
      case Continue(g) => B.Exchange(m, f, x).Continue? && AlikeEngine(g, B.Exchange(m, f, x).next)
      case r => B.Exchange(m, f, x).Fail? && r.Fail?
  {
    var bid, ask := e.bid.value, e.ask.value;
    if B.Affordable(bid, ask, x) {
      if bid.kind.ShortOrder? {
        ShortAlike(m, e.book, f.book, bid, x);
      } else {
        BidAlike(m, e.book, f.book, bid, x.bidPaid, x.bidReceived);
      }
      var b, c := B.PayBidSide(m, e.book, bid, ask, x), B.PayBidSide(m, f.book, bid, ask, x);
      if b.Some? {
        AskSideAlike(m, b.value, c.value, bid, ask, x);
      }
    }
  }

  lemma AskSideAlike(m: Market, b: Book, c: Book, bid: Order, ask: Order, x: Fill)
    requires AlikeBook(b, c) && B.Affordable(bid, ask, x)
    ensures AlikeBook(B.PayAskSide(m, b, bid, ask, x), B.PayAskSide(m, c, bid, ask, x))
  {
    if ask.kind.CoverOrder? {
      var principal := B.PaidPrincipal(m, ask, x);
      var unpaid, left := Underwater(ask, x.askPaid, principal), ask.collateral - x.askPaid;
      var quote := RetireDebt(b.quote, principal, x.askReceived - principal, unpaid);
      CloseAlike(m, b.(quote := quote), c.(quote := quote), ask, left, ask.balance - principal - unpaid, CallFee(m, ask, left));
    } else {
      AskAlike(m, b, c, ask, x.askPaid, x.askReceived, bid.kind.ShortOrder?);
    }
  }

  lemma MatchAlike(m: Market, e: Engine, f: Engine)
    requires AlikeEngine(e, f) && B.Paired(e)
    ensures match B.Match(m, e)
      case Continue(g) => B.Match(m, f).Continue? && AlikeEngine(g, B.Match(m, f).next)
      case Halt(g) => B.Match(m, f).Halt? && AlikeEngine(g, B.Match(m, f).end)
      case Fail => B.Match(m, f).Fail?
  {
    var d := Decide(m, e.bid.value, e.ask.value, e.book.quote.IsMarketIssued());
    if d.Trade? {
      ExchangeAlike(m, e, f, FillOf(m, e.bid.value, e.ask.value, d.bidRatio, d.askRatio));
    }
  }

  lemma NextAlike(m: Market, e: Engine, f: Engine)
    requires AlikeEngine(e, f)
    ensures AlikeEngine(B.NextPair(m, e), B.NextPair(m, f)) && AlikeEngine(B.Primed(m, e), B.Primed(m, f))
  {
    NextBidAlike(m, e, f);
    NextAskAlike(m, NextBid(m, e), NextBid(m, f));
  }

  lemma NextBidAlike(m: Market, e: Engine, f: Engine)
    requires AlikeEngine(e, f)
    ensures AlikeEngine(NextBid(m, e), NextBid(m, f))
  {
  }

  lemma NextAskAlike(m: Market, e: Engine, f: Engine)
    requires AlikeEngine(e, f)
    ensures AlikeEngine(NextAsk(m, e), NextAsk(m, f))
  {
  }

  lemma {:induction false} MatchingAlike(m: Market, e: Engine, f: Engine, last: Option<nat>)
    requires AlikeEngine(e, f) && (last.Some? ==> last.value == e.filled)
    ensures B.Run(m, e, last).Some? <==> B.Run(m, f, last).Some?
    ensures B.Run(m, e, last).Some? ==> AlikeEngine(B.Run(m, e, last).value, B.Run(m, f, last).value)
    decreases B.Orders(e) + if last.None? then 1 else 0
  {
    var p, q := B.NextPair(m, e), B.NextPair(m, f);
    NextAlike(m, e, f);
    if B.Paired(p) {
      MatchAlike(m, p, q);
    }
    if !B.Paired(p) || last == Some(p.filled) || !B.Match(m, p).Continue? {
    } else {
      var g, h := B.Match(m, p).next, B.Match(m, q).next;
      B.RunStep(m, e, last, p, g);
      B.RunStep(m, f, last, q, h);
      MatchingAlike(m, g, h, Some(p.filled));
    }
  }

  lemma StoredAlike(m: Market, b: Book, c: Book)
    requires AlikeBook(b, c)
    ensures Alike(B.Stored(m, b), B.Stored(m, c))
  {
    Reconciled(b.l, c.l, B.Stored(m, b), B.Stored(m, c));
  }

  lemma TurnAlike(l: Ledger, n: Ledger, t: Turn)
    requires Alike(l, n)
    ensures Alike(TakeTurn(l, t), TakeTurn(n, t))
  {
    var m := t.market;
    if m.quote in l.assets && m.base in l.assets {
      var e, f := StartOf(t, l), StartOf(t, n);
      NextAlike(m, e, f);
      MatchingAlike(m, B.Primed(m, e), B.Primed(m, f), None);
      if B.Execute(m, e).Some? {
        StoredAlike(m, B.Run(m, B.Primed(m, e), None).value.book, B.Run(m, B.Primed(m, f), None).value.book);
      }
    }
  }

  lemma {:induction false} TurnsAlike(l: Ledger, n: Ledger, turns: seq<Turn>)
    requires Alike(l, n)
    ensures Alike(TakeTurns(l, turns), TakeTurns(n, turns))
    decreases |turns|
  {
    if turns != [] {
      TurnAlike(l, n, turns[0]);
      TurnsAlike(TakeTurn(l, turns[0]), TakeTurn(n, turns[0]), turns[1..]);
    }
  }

  // ---------- blocks ----------

  /** Ledgers that differ in null records accept the same blocks, to the same effect. */
  lemma BlockAlike(l: Ledger, n: Ledger, x: Input)
    requires Alike(l, n)
    ensures ApplyBlock(l, x).Some? <==> ApplyBlock(n, x).Some?
    ensures ApplyBlock(l, x).Some? ==> Alike(ApplyBlock(l, x).value, ApplyBlock(n, x).value)
  {
    var p, q := T.PayDelegate(l, x.producer, x.maxPay), T.PayDelegate(n, x.producer, x.maxPay);
    if p.Some? {
      Reconciled(l, n, p.value, q.value);
      TurnsAlike(p.value, q.value, x.turns);
      TransactionsAlike(TakeTurns(p.value, x.turns), TakeTurns(q.value, x.turns), x.transactions, x.config);
      if EvaluateBlock(l, x).Some? {
        Reconciled(EvaluateBlock(l, x).value, EvaluateBlock(n, x).value, Purge(EvaluateBlock(l, x).value), Purge(EvaluateBlock(n, x).value));
      }
    }
  }

  // ---------- genesis balances ----------

  /** No balance becomes a genesis balance or stops being one. */
  ghost predicate GenesisKept(l: Ledger, n: Ledger) {
    forall k :: BalanceOf(n, k).genesis == BalanceOf(l, k).genesis
  }

  lemma GenesisOn(l: Ledger, o: Ledger, n: Ledger)
    requires GenesisKept(l, o) && GenesisKept(o, n)
    ensures GenesisKept(l, n)
  {
    forall k
      ensures BalanceOf(n, k).genesis == BalanceOf(l, k).genesis
    {
      assert BalanceOf(n, k).genesis == BalanceOf(o, k).genesis;
    }
  }

  lemma SameGenesis(l: Ledger, n: Ledger)
    requires n.balances == l.balances
    ensures GenesisKept(l, n)
  {
  }

  lemma GenesisStored(l: Ledger, n: Ledger, k: Condition, r: Balance)
    requires r.genesis == BalanceOf(l, k).genesis && n.balances == l.balances[k := r]
    ensures GenesisKept(l, n)
  {
  }

  lemma YieldGenesis(e: Evaluation, k: Condition, y: nat, now: nat)
    requires k in e.ledger.balances && k.asset in e.ledger.assets
    ensures k in PayYield(e, k, y, now).ledger.balances && GenesisKept(e.ledger, PayYield(e, k, y, now).ledger)
  {
    if y == 0 {
      SameGenesis(e.ledger, e.ledger);
    } else {
      var r := e.ledger.balances[k];
      GenesisStored(e.ledger, PayYield(e, k, y, now).ledger, k, Balance(r.amount + y, now, r.genesis));
    }
  }

  lemma ChangeGenesis(e: Evaluation, k: Condition, r: Balance, change: int, c: Config)
    requires ChangeBalance(e, k, r, change, c).Some? && r.genesis == BalanceOf(e.ledger, k).genesis
    ensures GenesisKept(e.ledger, ChangeBalance(e, k, r, change, c).value.ledger)
  {
    GenesisStored(e.ledger, ChangeBalance(e, k, r, change, c).value.ledger, k, r);
  }

  lemma WithdrawGenesis(e: Evaluation, k: Condition, amount: int, y: nat, c: Config)
    requires WithdrawPaying(e, k, amount, y, c).Some?
    ensures GenesisKept(e.ledger, WithdrawPaying(e, k, amount, y, c).value.ledger)
  {
    var p := PayYield(e, k, y, c.now);
    PayingIs(e, k, amount, y, c);
    YieldGenesis(e, k, y, c.now);
    ChangeGenesis(p, k, p.ledger.balances[k].(amount := p.ledger.balances[k].amount - amount), -amount, c);
    GenesisOn(e.ledger, p.ledger, WithdrawPaying(e, k, amount, y, c).value.ledger);
  }

  lemma BalancesUntouched(e: Evaluation, op: Operation, c: Config)
    requires !op.Deposit? && !op.Withdraw? && !op.Claim? && Apply(e, op, c).Some?
    ensures Apply(e, op, c).value.ledger.balances == e.ledger.balances
  {
    var balances := e.ledger.balances;
    if op.Cover? {
      CoverApart(e, balances, op.key, op.amount, op.newPrice, op.permitted, c);
    } else if op.AddCollateral? {
      AddCollateralApart(e, balances, op.key, op.amount);
    } else if op.Short? {
      ShortApart(e, balances, op.key, op.amount, op.permitted, c);
    } else if op.Bid? || op.Ask? {
      OrderApart(e, balances, op, c);
    } else if op.Burn? || op.IssueAsset? {
      IssuedApart(e, balances, op, c);
    } else if op.CreateAsset? || op.UpdateAsset? {
      AssetApart(e, balances, op, c);
    } else {
      AccountApart(e, balances, op, c);
    }
  }

  lemma ApplyGenesis(e: Evaluation, op: Operation, c: Config)
    requires Apply(e, op, c).Some?
    ensures GenesisKept(e.ledger, Apply(e, op, c).value.ledger)
  {
    var n := Apply(e, op, c).value.ledger;
    match op {
      case Deposit(k, amount) => GenesisStored(e.ledger, n, k, n.balances[k]);
      case Withdraw(k, amount, _) =>
        WithdrawGenesis(e, k, amount, YieldDue(e.ledger.assets[k.asset], e.ledger.balances[k], c.now).value, c);
      case Claim(k, amount, _) => GenesisStored(e.ledger, n, k, n.balances[k]);
      case _ =>
        BalancesUntouched(e, op, c);
        SameGenesis(e.ledger, n);
    }
  }

  lemma {:induction false} RunGenesis(e: Evaluation, ops: seq<Operation>, c: Config)
    requires T.Run(e, ops, c).Some?
    ensures GenesisKept(e.ledger, T.Run(e, ops, c).value.ledger)
    decreases |ops|
  {
    if ops == [] {
      SameGenesis(e.ledger, e.ledger);
    } else {
      var f := Apply(e, ops[0], c).value;
      ApplyGenesis(e, ops[0], c);
      RunGenesis(f, ops[1..], c);
      GenesisOn(e.ledger, f.ledger, T.Run(f, ops[1..], c).value.ledger);
    }
  }

  lemma TransactionGenesis(l: Ledger, ops: seq<Operation>, c: Config)
    requires T.Evaluate(l, ops, c).Some?
    ensures GenesisKept(l, T.Evaluate(l, ops, c).value)
  {
    var e := T.Run(T.Start(l), ops, c).value;
    RunGenesis(T.Start(l), ops, c);
    SameGenesis(e.ledger, T.Evaluate(l, ops, c).value);
    GenesisOn(l, e.ledger, T.Evaluate(l, ops, c).value);
  }

  lemma {:induction false} TransactionsGenesis(l: Ledger, transactions: seq<seq<Operation>>, c: Config)
    requires EvaluateAll(l, transactions, c).Some?
    ensures GenesisKept(l, EvaluateAll(l, transactions, c).value)
    decreases |transactions|
  {
    if transactions == [] {
      SameGenesis(l, l);
    } else {
      var n := T.Evaluate(l, transactions[0], c).value;
      TransactionGenesis(l, transactions[0], c);
      TransactionsGenesis(n, transactions[1..], c);
      GenesisOn(l, n, EvaluateAll(n, transactions[1..], c).value);
    }
  }

  lemma PayOutGenesis(l: Ledger, n: Ledger, m: Market, owner: nat, a: AssetId, amount: nat)
    requires n.balances == PayOut(l, m, owner, a, amount).balances
    ensures GenesisKept(l, n)
  {
    var k := Condition(owner, a, 0);
    GenesisStored(l, n, k, n.balances[k]);
  }

  lemma BidSideGenesis(m: Market, b: Book, bid: Order, ask: Order, x: Fill)
    requires B.Affordable(bid, ask, x) && B.PayBidSide(m, b, bid, ask, x).Some?
    ensures GenesisKept(b.l, B.PayBidSide(m, b, bid, ask, x).value.l)
  {
    var n := B.PayBidSide(m, b, bid, ask, x).value.l;
    if bid.kind.ShortOrder? {
      SameGenesis(b.l, n);
    } else {
      PayOutGenesis(b.l, n, m, bid.key.owner, m.base, x.bidReceived);
    }
  }

  lemma AskSideGenesis(m: Market, b: Book, bid: Order, ask: Order, x: Fill)
    requires B.Affordable(bid, ask, x)
    ensures GenesisKept(b.l, B.PayAskSide(m, b, bid, ask, x).l)
  {
    var n := B.PayAskSide(m, b, bid, ask, x).l;
    if ask.kind.CoverOrder? {
      CoverGenesis(m, b, ask, x.askPaid, x.askReceived, B.PaidPrincipal(m, ask, x));
    } else {
      PayOutGenesis(b.l, n, m, ask.key.owner, m.quote, x.askReceived);
    }
  }

  lemma CoverGenesis(m: Market, b: Book, o: Order, paid: nat, received: nat, principal: nat)
    requires paid <= o.collateral && principal <= o.balance && principal <= received
    ensures GenesisKept(b.l, Settlement.PayCover(b, m, o, paid, received, principal).l)
  {
    var n := Settlement.PayCover(b, m, o, paid, received, principal).l;
    var left := o.collateral - paid;
    if left > 0 && o.balance - principal - Underwater(o, paid, principal) == 0 {
      PayOutGenesis(b.l, n, m, o.key.owner, m.base, left - CallFee(m, o, left));
    } else {
      SameGenesis(b.l, n);
    }
  }

  lemma MatchGenesis(m: Market, e: Engine)
    requires B.Paired(e) && B.Match(m, e).Continue?
    ensures GenesisKept(e.book.l, B.Match(m, e).next.book.l)
  {
    var bid, ask := e.bid.value, e.ask.value;
    var d := Decide(m, bid, ask, e.book.quote.IsMarketIssued());
    if d.Trade? {
      var x := FillOf(m, bid, ask, d.bidRatio, d.askRatio);
      var n := B.PayBidSide(m, e.book, bid, ask, x).value;
      BidSideGenesis(m, e.book, bid, ask, x);
      AskSideGenesis(m, n, bid, ask, x);
      GenesisOn(e.book.l, n.l, B.PayAskSide(m, n, bid, ask, x).l);
    } else {
      SameGenesis(e.book.l, e.book.l);
    }
  }

  lemma {:induction false} MatchingGenesis(m: Market, e: Engine, last: Option<nat>)
    requires (last.Some? ==> last.value == e.filled) && B.Run(m, e, last).Some?
    ensures GenesisKept(e.book.l, B.Run(m, e, last).value.book.l)
    decreases B.Orders(e) + if last.None? then 1 else 0
  {
    var f := B.NextPair(m, e);
    B.NextPairTakes(m, e);
    if !B.Paired(f) || last == Some(f.filled) || !B.Match(m, f).Continue? {
      SameGenesis(e.book.l, B.Run(m, e, last).value.book.l);
    } else {
      var g := B.Match(m, f).next;
      B.RunStep(m, e, last, f, g);
      MatchGenesis(m, f);
      MatchingGenesis(m, g, Some(f.filled));
      GenesisOn(e.book.l, g.book.l, B.Run(m, g, Some(f.filled)).value.book.l);
    }
  }

  lemma TurnGenesis(l: Ledger, t: Turn)
    ensures GenesisKept(l, TakeTurn(l, t))
  {
    if Completes(l, t) {
      var e := B.Primed(t.market, StartOf(t, l));
      MatchingGenesis(t.market, e, None);
      SameGenesis(B.Run(t.market, e, None).value.book.l, TakeTurn(l, t));
      GenesisOn(l, B.Run(t.market, e, None).value.book.l, TakeTurn(l, t));
    } else {
      SameGenesis(l, l);
    }
  }

  lemma {:induction false} TurnsGenesis(l: Ledger, turns: seq<Turn>)
    ensures GenesisKept(l, TakeTurns(l, turns))
    decreases |turns|
  {
    if turns == [] {
      SameGenesis(l, l);
    } else {
      TurnGenesis(l, turns[0]);
      TurnsGenesis(TakeTurn(l, turns[0]), turns[1..]);
      GenesisOn(l, TakeTurn(l, turns[0]), TakeTurns(l, turns));
    }
  }

  /** A block opens no genesis balance. */
  lemma BlockGenesis(l: Ledger, x: Input)
    requires ApplyBlock(l, x).Some?
    ensures GenesisKept(l, ApplyBlock(l, x).value)
  {
    var p := T.PayDelegate(l, x.producer, x.maxPay).value;
    var q := TakeTurns(p, x.turns);
    var n := EvaluateBlock(l, x).value;
    SameGenesis(l, p);
    TurnsGenesis(p, x.turns);
    TransactionsGenesis(q, x.transactions, x.config);
    SameGenesis(n, ApplyBlock(l, x).value);
    GenesisOn(l, p, q);
    GenesisOn(l, q, n);
    GenesisOn(l, n, ApplyBlock(l, x).value);
  }

  // ---------- undoing blocks ----------

  /** The ledger after a block is undone: what it was, and a null record for every balance the block opened. */
  function UndoBlock(before: Ledger, after: Ledger): Ledger {
    before.(balances := map k | k in before.balances.Keys + after.balances.Keys ::
      if k in before.balances then before.balances[k] else after.balances[k].(amount := 0))
  }

  lemma UndoneAlike(before: Ledger, after: Ledger)
    requires GenesisKept(before, after)
    ensures Alike(before, UndoBlock(before, after)) && Alike(UndoBlock(before, after), before)
  {
    var n := UndoBlock(before, after);
    forall k
      ensures SameRecord(BalanceOf(before, k), BalanceOf(n, k))
    {
      assert BalanceOf(after, k).genesis == BalanceOf(before, k).genesis;
    }
  }

  lemma AlikeGenesis(l: Ledger, n: Ledger)
    requires Alike(l, n)
    ensures GenesisKept(l, n)
  {
    forall k
      ensures BalanceOf(n, k).genesis == BalanceOf(l, k).genesis
    {
      assert SameRecord(BalanceOf(l, k), BalanceOf(n, k));
    }
  }

  /** A ledger and the blocks applied to it that can still be undone. */
  datatype Tip = Genesis(start: Ledger) | After(parent: Tip, block: Input, ledger: Ledger)
  {
    function At(): Ledger {
      match this
      case Genesis(l) => l
      case After(_, _, l) => l
    }
  }

  datatype Step = Extend(block: Input) | Undo

  /** The tip with another ledger at it. */
  function Left(tip: Tip, l: Ledger): Tip {
    match tip
    case Genesis(_) => Genesis(l)
    case After(parent, x, _) => After(parent, x, l)
  }

  /** One step of a node: None where a block is refused or there is none to undo. Undoing leaves null records
      behind, or, ideally, does not. */
  ghost function Go(tip: Tip, step: Step, ideally: bool): Option<Tip> {
    match step
    case Extend(x) =>
      var n :- ApplyBlock(tip.At(), x);
      Some(After(tip, x, n))
    case Undo =>
      if tip.Genesis? then None
      else Some(if ideally then tip.parent else Left(tip.parent, UndoBlock(tip.parent.At(), tip.ledger)))
  }

  ghost function GoAll(tip: Tip, steps: seq<Step>, ideally: bool): Option<Tip>
    decreases |steps|
  {
    if steps == [] then Some(tip)
    else
      var next :- Go(tip, steps[0], ideally);
      GoAll(next, steps[1..], ideally)
  }

  /** The same blocks, and ledgers alike after each of them. */
  ghost predicate AlikeTips(r: Tip, t: Tip) {
    && Alike(r.At(), t.At())
    && match r
       case Genesis(_) => t.Genesis?
       case After(parent, x, _) => t.After? && t.block == x && AlikeTips(parent, t.parent)
  }

  /** No block on the way opened a genesis balance. */
  ghost predicate Opened(t: Tip) {
    t.After? ==> GenesisKept(t.parent.At(), t.ledger) && Opened(t.parent)
  }

  lemma LeftAlike(r: Tip, t: Tip, l: Ledger)
    requires AlikeTips(r, t) && Opened(r) && Alike(l, r.At()) && Alike(r.At(), l)
    ensures AlikeTips(Left(r, l), t) && Opened(Left(r, l))
  {
    AlikeOn(l, r.At(), t.At());
    AlikeGenesis(r.At(), l);
    if r.After? {
      GenesisOn(r.parent.At(), r.ledger, l);
    }
  }

  lemma StepAlike(r: Tip, t: Tip, step: Step)
    requires AlikeTips(r, t) && Opened(r)
    ensures Go(r, step, false).Some? <==> Go(t, step, true).Some?
    ensures Go(r, step, false).Some? ==> AlikeTips(Go(r, step, false).value, Go(t, step, true).value) && Opened(Go(r, step, false).value)
  {
    match step
    case Extend(x) =>
      BlockAlike(r.At(), t.At(), x);
      if ApplyBlock(r.At(), x).Some? {
        BlockGenesis(r.At(), x);
      }
    case Undo =>
      if r.After? {
        UndoneAlike(r.parent.At(), r.ledger);
        LeftAlike(r.parent, t.parent, UndoBlock(r.parent.At(), r.ledger));
      }
  }

  /** Whatever blocks are applied and undone, in whatever order: a node whose undo leaves null records accepts
      exactly the blocks one without them accepts, and their ledgers differ in null records alone. */
  lemma {:induction false} UndoLeavesNoTrace(r: Tip, t: Tip, steps: seq<Step>)
    requires AlikeTips(r, t) && Opened(r)
    ensures GoAll(r, steps, false).Some? <==> GoAll(t, steps, true).Some?
    ensures GoAll(r, steps, false).Some? ==> AlikeTips(GoAll(r, steps, false).value, GoAll(t, steps, true).value)
    decreases |steps|
  {
    if steps != [] {
      StepAlike(r, t, steps[0]);
      if Go(r, steps[0], false).Some? {
        UndoLeavesNoTrace(Go(r, steps[0], false).value, Go(t, steps[0], true).value, steps[1..]);
      }
    }
  }

  /** Null records hold nothing and support nobody: ledgers alike count alike. */
  lemma AlikeCounts(l: Ledger, n: Ledger, a: AssetId, d: AccountId, negatives: bool)
    requires Alike(l, n)
    ensures Supply(n, a) == Supply(l, a) && Holdings(n, a) == Holdings(l, a) && Debt(n, a) == Debt(l, a)
    ensures ExtraVotes(n, d, negatives) == ExtraVotes(l, d, negatives)
    ensures WellFormed(n) <==> WellFormed(l)
  {
    TotalsAlike(l, n, AmountOf(a));
    TotalsAlike(l, n, StakeOf(l.slates, d, negatives));
    SlatesAlike(l, n);
  }

  lemma SlatesAlike(l: Ledger, n: Ledger)
    requires Alike(l, n)
    ensures SlatesKnown(n) <==> SlatesKnown(l)
  {
    forall k
      ensures k in l.balances && l.balances[k].amount > 0 <==> k in n.balances && n.balances[k].amount > 0
    {
      assert SameRecord(BalanceOf(l, k), BalanceOf(n, k));
    }
  }

  function Funded(balances: map<Condition, Balance>): map<Condition, Balance> {
    map k | k in balances && balances[k].amount > 0 :: balances[k]
  }

  lemma TotalsAlike(l: Ledger, n: Ledger, f: (Condition, Balance) -> int)
    requires Alike(l, n) && forall k, r: Balance :: r.amount == 0 ==> f(k, r) == 0
    ensures Sums.Total(l.balances, f) == Sums.Total(n.balances, f)
  {
    forall k
      ensures k in Funded(l.balances) <==> k in Funded(n.balances)
      ensures k in Funded(l.balances) ==> Funded(l.balances)[k] == Funded(n.balances)[k]
    {
      assert SameRecord(BalanceOf(l, k), BalanceOf(n, k));
    }
    assert Funded(l.balances) == Funded(n.balances);
    Sums.TotalDropped(l.balances, Funded(l.balances), f);
    Sums.TotalDropped(n.balances, Funded(n.balances), f);
  }
}
