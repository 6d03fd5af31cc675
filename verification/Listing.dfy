/** What the market engine's iterators find: orders of one market as the ledger has them. The operations
    only store orders that are fit to be found, and committing a block drops the spent ones. */
module Listing {
  import opened Options
  import opened Prices
  import opened Sums
  import opened Ledgers
  import opened Operations
  import opened Conservation
  import opened Matching
  import T = Transactions
  import B = Backing

  // ---------- what the operations store ----------

  /** From l to n no order is stored and no asset created. */
  predicate NoneListed(l: Ledger, n: Ledger) {
    && n.bids == l.bids && n.asks == l.asks && n.shorts == l.shorts && n.lastAsset == l.lastAsset
    && forall a :: a in n.assets ==> a in l.assets
  }

  lemma NoneListedKeeps(l: Ledger, n: Ledger)
    requires NoneListed(l, n)
    ensures Listable(l) ==> Listable(n)
  {
  }

  lemma ListedOn(l: Ledger, o: Ledger, n: Ledger)
    requires NoneListed(l, o) && NoneListed(o, n)
    ensures NoneListed(l, n)
  {
  }

  lemma ChangeLists(e: Evaluation, k: Condition, r: Balance, change: int, c: Config)
    requires ChangeBalance(e, k, r, change, c).Some?
    ensures NoneListed(e.ledger, ChangeBalance(e, k, r, change, c).value.ledger)
  {
  }

  lemma YieldLists(e: Evaluation, k: Condition, y: nat, now: nat)
    requires k.asset in e.ledger.assets && k in e.ledger.balances
    ensures NoneListed(e.ledger, PayYield(e, k, y, now).ledger)
  {
    var l, n := e.ledger, PayYield(e, k, y, now).ledger;
    assert n == l.(assets := n.assets, balances := n.balances);
  }

  lemma WithdrawLists(e: Evaluation, k: Condition, amount: int, y: nat, c: Config)
    requires WithdrawPaying(e, k, amount, y, c).Some?
    ensures NoneListed(e.ledger, WithdrawPaying(e, k, amount, y, c).value.ledger)
  {
    YieldLists(e, k, y, c.now);
    var r := PayYield(e, k, y, c.now).ledger.balances[k];
    ChangeLists(PayYield(e, k, y, c.now), k, r.(amount := r.amount - amount), -amount, c);
    ListedOn(e.ledger, PayYield(e, k, y, c.now).ledger, WithdrawPaying(e, k, amount, y, c).value.ledger);
  }

  lemma BalanceLists(e: Evaluation, op: Operation, c: Config)
    requires (op.Deposit? || op.Withdraw? || op.Claim?) && Apply(e, op, c).Some?
    ensures NoneListed(e.ledger, Apply(e, op, c).value.ledger)
  {
    match op {
      case Deposit(k, amount) =>
        var r := BalanceOf(e.ledger, k);
        ChangeLists(e, k, Balance(r.amount + amount, AverageDate(r, amount, c.now), r.genesis), amount, c);
      case Withdraw(k, amount, _) =>
        WithdrawLists(e, k, amount, YieldDue(e.ledger.assets[k.asset], e.ledger.balances[k], c.now).value, c);
      case Claim(k, amount, _) => ChangeLists(e, k, e.ledger.balances[k].(amount := 0), -amount, c);
    }
  }

  lemma SettleLists(e: Evaluation, k: OrderKey, rest: Collateral, landing: Option<OrderKey>)
    ensures NoneListed(e.ledger, Settle(e, k, rest, landing).ledger)
  {
  }

  lemma PayDebtLists(e: Evaluation, q: AssetId, principal: int, interest: int)
    requires q in e.ledger.assets
    ensures NoneListed(e.ledger, PayDebt(e, q, principal, interest).ledger)
  {
  }

  lemma PayCoverLists(e: Evaluation, k: OrderKey, amount: int, principal: int, m: Relocation)
    requires k.price.quote in e.ledger.assets
    ensures NoneListed(e.ledger, Operations.PayCover(e, k, amount, principal, m).ledger)
  {
    PayDebtLists(e, k.price.quote, principal, amount - principal);
    SettleLists(PayDebt(e, k.price.quote, principal, amount - principal), k, m.rest, m.landing);
  }

  lemma CoverLists(e: Evaluation, k: OrderKey, amount: int, newPrice: Option<Price>, permitted: bool, c: Config)
    requires EvaluateCover(e, k, amount, newPrice, permitted, c).Some?
    ensures NoneListed(e.ledger, EvaluateCover(e, k, amount, newPrice, permitted, c).value.ledger)
  {
    var r := e.ledger.collateral[k];
    var principal := PrincipalPaid(r, amount, c);
    PayCoverLists(e, k, amount, principal, AfterPayment(k, r, principal, newPrice).value);
  }

  lemma AddCollateralLists(e: Evaluation, k: OrderKey, amount: int)
    requires EvaluateAddCollateral(e, k, amount).Some?
    ensures NoneListed(e.ledger, EvaluateAddCollateral(e, k, amount).value.ledger)
  {
    var m := AfterAdding(k, e.ledger.collateral[k], amount).value;
    SettleLists(Move(e, k.price.base, -amount), k, m.rest, m.landing);
  }

  lemma AssetLists(e: Evaluation, op: Operation, c: Config)
    requires (op.Burn? || op.UpdateAsset? || op.IssueAsset?) && Apply(e, op, c).Some?
    ensures NoneListed(e.ledger, Apply(e, op, c).value.ledger)
  {
  }

  lemma SlateLists(e: Evaluation, id: nat, slate: seq<AccountId>, c: Config)
    requires EvaluateDefineSlate(e, id, slate, c).Some?
    ensures NoneListed(e.ledger, EvaluateDefineSlate(e, id, slate, c).value.ledger)
  {
  }

  lemma RegisterLists(e: Evaluation, payRate: nat, permitted: bool, c: Config)
    requires EvaluateRegisterAccount(e, payRate, permitted, c).Some?
    ensures NoneListed(e.ledger, EvaluateRegisterAccount(e, payRate, permitted, c).value.ledger)
  {
  }

  lemma StoreLists(e: Evaluation, id: AccountId, r: Account, fee: int)
    ensures NoneListed(e.ledger, StoreAccountRecord(e, id, r, fee).ledger)
  {
  }

  lemma UpdateLists(e: Evaluation, id: AccountId, payRate: nat, permitted: bool, c: Config)
    requires EvaluateUpdateAccount(e, id, payRate, permitted, c).Some?
    ensures NoneListed(e.ledger, EvaluateUpdateAccount(e, id, payRate, permitted, c).value.ledger)
  {
    match e.ledger.accounts[id].delegate {
      case Some(r) => StoreLists(e, id, Account(Some(r.(payRate := payRate))), 0);
      case None => StoreLists(e, id, Account(Some(Delegate(0, payRate, 0))), DelegateFee(payRate, c));
    }
  }

  lemma WithdrawPayLists(e: Evaluation, account: AccountId, amount: int, permitted: bool)
    requires EvaluateWithdrawPay(e, account, amount, permitted).Some?
    ensures NoneListed(e.ledger, EvaluateWithdrawPay(e, account, amount, permitted).value.ledger)
  {
  }

  lemma AccountLists(e: Evaluation, op: Operation, c: Config)
    requires (op.DefineSlate? || op.RegisterAccount? || op.UpdateAccount? || op.WithdrawPay?) && Apply(e, op, c).Some?
    ensures NoneListed(e.ledger, Apply(e, op, c).value.ledger)
  {
    match op {
      case DefineSlate(id, slate) => SlateLists(e, id, slate, c);
      case RegisterAccount(payRate, permitted) => RegisterLists(e, payRate, permitted, c);
      case UpdateAccount(id, payRate, permitted) => UpdateLists(e, id, payRate, permitted, c);
      case WithdrawPay(account, amount, permitted) => WithdrawPayLists(e, account, amount, permitted);
    }
  }

  /** An order that is stored has passed the checks; a new asset takes the next id. */
  lemma OrderListable(e: Evaluation, op: Operation, c: Config)
    requires (op.Bid? || op.Ask? || op.Short?) && Listable(e.ledger) && Apply(e, op, c).Some?
    ensures Listable(Apply(e, op, c).value.ledger)
  {
  }

  lemma CreateListable(e: Evaluation, issuer: AccountId, maxSupply: int, permitted: bool, c: Config)
    requires Listable(e.ledger) && e.ledger.lastAsset >= -1 && EvaluateCreateAsset(e, issuer, maxSupply, permitted, c).Some?
    ensures Listable(EvaluateCreateAsset(e, issuer, maxSupply, permitted, c).value.ledger)
  {
  }

  lemma ApplyListable(e: Evaluation, op: Operation, c: Config)
    requires WellFormed(e.ledger) && Listable(e.ledger) && Apply(e, op, c).Some?
    ensures Listable(Apply(e, op, c).value.ledger)
  {
    if op.CreateAsset? {
      assert 0 in e.ledger.assets;
      CreateListable(e, op.issuer, op.maxSupply, op.permitted, c);
    } else if op.Bid? || op.Ask? || op.Short? {
      OrderListable(e, op, c);
    } else {
      if op.Deposit? || op.Withdraw? || op.Claim? {
        BalanceLists(e, op, c);
      } else if op.Cover? {
        CoverLists(e, op.key, op.amount, op.newPrice, op.permitted, c);
      } else if op.AddCollateral? {
        AddCollateralLists(e, op.key, op.amount);
      } else if op.Burn? || op.UpdateAsset? || op.IssueAsset? {
        AssetLists(e, op, c);
      } else {
        AccountLists(e, op, c);
      }
      NoneListedKeeps(e.ledger, Apply(e, op, c).value.ledger);
    }
  }

  lemma {:induction false} RunListable(e: Evaluation, ops: seq<Operation>, c: Config)
    requires WellFormed(e.ledger) && Listable(e.ledger) && T.Run(e, ops, c).Some?
    ensures Listable(T.Run(e, ops, c).value.ledger)
    decreases |ops|
  {
    if ops != [] {
      ApplyListable(e, ops[0], c);
      ApplyExtends(e, ops[0], c);
      RunListable(Apply(e, ops[0], c).value, ops[1..], c);
    }
  }

  lemma TransactionListable(l: Ledger, ops: seq<Operation>, c: Config)
    requires WellFormed(l) && Listable(l) && T.Evaluate(l, ops, c).Some?
    ensures Listable(T.Evaluate(l, ops, c).value)
  {
    RunListable(T.Start(l), ops, c);
    NoneListedKeeps(T.Run(T.Start(l), ops, c).value.ledger, T.Evaluate(l, ops, c).value);
  }

  // ---------- what the iterators find ----------

  /** A dirty market, and what its four iterators find in the database. */
  datatype Turn = Turn(market: Market, everFed: bool, bids: seq<Order>, asks: seq<Order>, shorts: seq<Order>, covers: seq<Order>)

  predicate Inside(m: Market, k: OrderKey) {
    k.price.quote == m.quote && k.price.base == m.base
  }

  /** Orders of this market out of one table, none of them twice. */
  ghost predicate ListsOrders(m: Market, table: map<OrderKey, nat>, s: seq<Order>, kind: OrderType) {
    && (forall i :: 0 <= i < |s| ==>
         s[i].kind == kind && Inside(m, s[i].key) && s[i].key in table && table[s[i].key] == s[i].balance)
    && (forall i, j :: 0 <= i < j < |s| ==> s[i].key != s[j].key)
  }

  ghost predicate ListsCovers(m: Market, table: map<OrderKey, Collateral>, s: seq<Order>) {
    && (forall i :: 0 <= i < |s| ==>
         && s[i].kind == CoverOrder && Inside(m, s[i].key) && s[i].key in table
         && table[s[i].key] == Collateral(s[i].collateral, s[i].balance, s[i].interest, s[i].expiration))
    && (forall i, j :: 0 <= i < j < |s| ==> s[i].key != s[j].key)
  }

  /** In whatever order, and whether or not all of them. */
  ghost predicate Lists(l: Ledger, t: Turn) {
    && ListsOrders(t.market, l.bids, t.bids, BidOrder) && ListsOrders(t.market, l.asks, t.asks, AskOrder)
    && ListsOrders(t.market, l.shorts, t.shorts, ShortOrder) && ListsCovers(t.market, l.collateral, t.covers)
  }

  /** The iterators are in step with the ledger, if this is a market that runs. */
  ghost predicate Loaded(l: Ledger, t: Turn) {
    var blank := Asset(0, 0, 0, 0);
    t.market.quote > t.market.base && t.market.quote in l.assets && t.market.base in l.assets ==>
      B.InSync(t.market, Engine(Book(l, blank, blank), t.bids, t.asks, t.shorts, t.covers, None, None, 0))
  }

  /** Whatever the iterators find in a ledger the operations have made is in step with it, and its covers are
      as the engine loads them. */
  lemma ListedLoaded(l: Ledger, t: Turn)
    requires Listable(l) && Lists(l, t)
    ensures Loaded(l, t)
    ensures forall i :: 0 <= i < |t.covers| ==> B.AsLoaded(l, t.covers[i])
  {
    assert t.shorts != [] ==> t.shorts[0].key in l.shorts;
  }

  function Keys(s: seq<Order>): set<OrderKey> {
    if s == [] then {} else {s[0].key} + Keys(s[1..])
  }

  lemma ListOneMore(m: Market, table: map<OrderKey, nat>, s: seq<Order>, kind: OrderType, o: Order)
    requires ListsOrders(m, table - {o.key}, s, kind)
    requires o.key in table && Inside(m, o.key) && o.kind == kind && o.balance == table[o.key]
    ensures ListsOrders(m, table, [o] + s, kind)
  {
    var r := [o] + s;
    forall i | 0 <= i < |s|
      ensures r[i + 1] == s[i] && s[i].key in table && s[i].key != o.key && table[s[i].key] == s[i].balance
    {
      assert s[i].key in table - {o.key};
    }
  }

  ghost function KeysOf(m: Market, table: map<OrderKey, nat>): set<OrderKey> {
    set k | k in table && Inside(m, k)
  }

  lemma KeysOfOneMore(m: Market, table: map<OrderKey, nat>, k: OrderKey)
    requires k in table
    ensures KeysOf(m, table) == (if Inside(m, k) then {k} else {}) + KeysOf(m, table - {k})
  {
  }

  /** There is always a listing of all orders of a market. */
  lemma {:induction false} WholeTable(m: Market, table: map<OrderKey, nat>, kind: OrderType) returns (s: seq<Order>)
    ensures ListsOrders(m, table, s, kind)
    ensures Keys(s) == KeysOf(m, table)
    decreases |table|
  {
    if table == map[] {
      s := [];
    } else {
      var k :| k in table;
      var rest := WholeTable(m, table - {k}, kind);
      var o := Order(kind, k, table[k], None, 0, NO_PRICE, 0);
      KeysOfOneMore(m, table, k);
      if Inside(m, k) {
        ListOneMore(m, table, rest, kind, o);
        s := [o] + rest;
        assert s[1..] == rest;
      } else {
        s := rest;
        ListWithout(m, table, s, kind, k);
      }
    }
  }

  lemma ListWithout(m: Market, table: map<OrderKey, nat>, s: seq<Order>, kind: OrderType, k: OrderKey)
    requires ListsOrders(m, table - {k}, s, kind)
    ensures ListsOrders(m, table, s, kind)
  {
    forall i | 0 <= i < |s|
      ensures s[i].key in table && table[s[i].key] == s[i].balance
    {
      assert s[i].key in table - {k};
    }
  }

  // ---------- committing a block ----------

  /** Storing a spent order or an empty cover in the database removes it. */
  function Purge(l: Ledger): Ledger {
    l.(bids := Unspent(l.bids), asks := Unspent(l.asks), shorts := Unspent(l.shorts),
       collateral := map k | k in l.collateral && Held(l.collateral[k]) :: l.collateral[k])
  }

  function Unspent(table: map<OrderKey, nat>): map<OrderKey, nat> {
    map k | k in table && table[k] > 0 :: table[k]
  }

  predicate Held(r: Collateral) {
    r.collateral > 0 || r.payoff > 0
  }

  /** Spent orders and empty covers are dropped, and nothing else. */
  lemma PurgeDrops(l: Ledger, k: OrderKey)
    ensures var n := Purge(l);
      && (k in n.bids <==> Get(l.bids, k) > 0) && (k in n.asks <==> Get(l.asks, k) > 0) && (k in n.shorts <==> Get(l.shorts, k) > 0)
      && Get(n.bids, k) == Get(l.bids, k) && Get(n.asks, k) == Get(l.asks, k) && Get(n.shorts, k) == Get(l.shorts, k)
      && (k in n.collateral <==> CollateralAt(l, k).collateral > 0 || CollateralAt(l, k).payoff > 0)
      && (k in n.collateral ==> n.collateral[k] == l.collateral[k])
  {
  }

  lemma PurgeCounts(l: Ledger, a: AssetId)
    ensures Supply(Purge(l), a) == Supply(l, a) && Holdings(Purge(l), a) == Holdings(l, a) && Debt(Purge(l), a) == Debt(l, a)
  {
    var n := Purge(l);
    TotalDropped(l.bids, n.bids, QuoteOrder(a));
    TotalDropped(l.asks, n.asks, BaseOrder(a));
    TotalDropped(l.shorts, n.shorts, AnyOrder());
    TotalDropped(l.collateral, n.collateral, CollateralOf());
    TotalDropped(l.collateral, n.collateral, PayoffOf(a));
  }

  /** Which moves no equation and makes no order. */
  lemma PurgeKeeps(l: Ledger, a: AssetId, d: AccountId, negatives: bool)
    ensures var n := Purge(l);
      && Supply(n, a) == Supply(l, a) && Holdings(n, a) == Holdings(l, a) && Debt(n, a) == Debt(l, a)
      && ExtraVotes(n, d, negatives) == ExtraVotes(l, d, negatives)
      && (WellFormed(l) ==> Extends(l, n)) && (Listable(l) ==> Listable(n))
  {
    PurgeCounts(l, a);
  }
}
