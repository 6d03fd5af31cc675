/** The block a node assembles for itself is one it can apply. The assembly evaluates transactions on a
    state in which the producer has not been paid, the application on one in which it has; the two states
    differ by the paycheck alone, and go on differing by it alone through markets and transactions. */
module Assembly {
  import opened Options
  import opened Prices
  import opened Ledgers
  import opened Operations
  import opened Conservation
  import opened Matching
  import opened Settlement
  import opened MarketFrame
  import opened Listing
  import opened Blocks
  import T = Transactions
  import B = Backing
  import Sums

  /** What a producer is paid out of the fees, and what of them leaves the supply. */
  datatype Paycheck = Paycheck(producer: AccountId, fee: nat, burnt: nat, pay: nat)

  function PaidAsset(s: Asset, y: Paycheck): Asset {
    s.(fees := s.fees - y.fee, supply := s.supply - y.burnt)
  }

  function PaidDelegate(r: Delegate, y: Paycheck): Delegate {
    r.(pay := r.pay + y.pay, votesFor := r.votesFor + y.pay)
  }

  /** Ledger n is ledger l with the paycheck paid. */
  ghost predicate Paid(l: Ledger, n: Ledger, y: Paycheck) {
    && n.(assets := l.assets, accounts := l.accounts) == l
    && n.assets.Keys == l.assets.Keys && n.accounts.Keys == l.accounts.Keys
    && 0 in l.assets && !l.assets[0].IsMarketIssued()
    && (forall a :: a in l.assets ==> n.assets[a] == if a == 0 then PaidAsset(l.assets[0], y) else l.assets[a])
    && y.producer in l.accounts && l.accounts[y.producer].delegate.Some?
    && (forall d :: d in l.accounts ==>
         n.accounts[d] == if d == y.producer then Account(Some(PaidDelegate(l.accounts[d].delegate.value, y))) else l.accounts[d])
  }

  function PaycheckOf(l: Ledger, producer: AccountId, maxPay: nat): Paycheck
    requires T.PayDelegate(l, producer, maxPay).Some?
  {
    var accepted := l.accounts[producer].delegate.value.payRate * maxPay / 100;
    assert accepted <= maxPay by { PercentWithin(l.accounts[producer].delegate.value.payRate, maxPay); }
    Paycheck(producer, maxPay, maxPay - accepted, accepted)
  }

  lemma PercentWithin(rate: nat, x: nat)
    requires rate <= 100
    ensures rate * x / 100 <= x
  {
    assert rate * x <= 100 * x;
  }

  lemma PayDelegatePays(l: Ledger, producer: AccountId, maxPay: nat)
    requires WellFormed(l) && T.PayDelegate(l, producer, maxPay).Some?
    ensures Paid(l, T.PayDelegate(l, producer, maxPay).value, PaycheckOf(l, producer, maxPay))
  {
  }

  // ---------- markets ----------

  ghost predicate PaidBook(m: Market, b: Book, c: Book, y: Paycheck) {
    && Paid(b.l, c.l, y) && c.quote == b.quote
    && c.base == (if m.base == 0 then PaidAsset(b.base, y) else b.base)
    && (m.base == 0 ==> !b.base.IsMarketIssued())
  }

  ghost predicate PaidEngine(m: Market, e: Engine, f: Engine, y: Paycheck) {
    f == e.(book := f.book) && PaidBook(m, e.book, f.book, y)
  }

  lemma BidSidePaid(m: Market, b: Book, c: Book, bid: Order, ask: Order, f: Fill, y: Paycheck)
    requires PaidBook(m, b, c, y) && B.Affordable(bid, ask, f)
    ensures B.PayBidSide(m, c, bid, ask, f).Some? <==> B.PayBidSide(m, b, bid, ask, f).Some?
    ensures B.PayBidSide(m, b, bid, ask, f).Some? ==>
      PaidBook(m, B.PayBidSide(m, b, bid, ask, f).value, B.PayBidSide(m, c, bid, ask, f).value, y)
  {
  }

  lemma AskPaid(m: Market, b: Book, c: Book, o: Order, paid: nat, received: nat, onQuote: bool, y: Paycheck)
    requires PaidBook(m, b, c, y) && paid <= o.balance
    ensures PaidBook(m, PayAsk(b, m, o, paid, received, onQuote), PayAsk(c, m, o, paid, received, onQuote), y)
  {
  }

  lemma CoverPaid(m: Market, b: Book, c: Book, o: Order, paid: nat, received: nat, principal: nat, y: Paycheck)
    requires PaidBook(m, b, c, y) && paid <= o.collateral && principal <= o.balance && principal <= received
    ensures PaidBook(m, Settlement.PayCover(b, m, o, paid, received, principal), Settlement.PayCover(c, m, o, paid, received, principal), y)
  {
  }

  lemma AskSidePaid(m: Market, b: Book, c: Book, bid: Order, ask: Order, f: Fill, y: Paycheck)
    requires PaidBook(m, b, c, y) && B.Affordable(bid, ask, f)
    ensures PaidBook(m, B.PayAskSide(m, b, bid, ask, f), B.PayAskSide(m, c, bid, ask, f), y)
  {
    if ask.kind.CoverOrder? {
      CoverPaid(m, b, c, ask, f.askPaid, f.askReceived, B.PaidPrincipal(m, ask, f), y);
    } else {
      AskPaid(m, b, c, ask, f.askPaid, f.askReceived, bid.kind.ShortOrder?, y);
    }
  }

  lemma MatchPaid(m: Market, e: Engine, f: Engine, y: Paycheck)
    requires PaidEngine(m, e, f, y) && B.Paired(e)
    ensures match B.Match(m, e)
      case Continue(g) => B.Match(m, f).Continue? && PaidEngine(m, g, B.Match(m, f).next, y)
      case Halt(g) => B.Match(m, f).Halt? && PaidEngine(m, g, B.Match(m, f).end, y)
      case Fail => B.Match(m, f).Fail?
  {
    var bid, ask := e.bid.value, e.ask.value;
    var d := Decide(m, bid, ask, e.book.quote.IsMarketIssued());
    if d.Trade? {
      var x := FillOf(m, bid, ask, d.bidRatio, d.askRatio);
      if B.Affordable(bid, ask, x) {
        BidSidePaid(m, e.book, f.book, bid, ask, x, y);
        var n := B.PayBidSide(m, e.book, bid, ask, x);
        if n.Some? {
          AskSidePaid(m, n.value, B.PayBidSide(m, f.book, bid, ask, x).value, bid, ask, x, y);
        }
      }
    }
  }

  lemma NextPairPaid(m: Market, e: Engine, f: Engine, y: Paycheck)
    requires PaidEngine(m, e, f, y)
    ensures PaidEngine(m, B.NextPair(m, e), B.NextPair(m, f), y)
  {
    NextBidPaid(m, e, f, y);
    NextAskPaid(m, NextBid(m, e), NextBid(m, f), y);
  }

  lemma NextBidPaid(m: Market, e: Engine, f: Engine, y: Paycheck)
    requires PaidEngine(m, e, f, y)
    ensures PaidEngine(m, NextBid(m, e), NextBid(m, f), y)
  {
  }

  lemma NextAskPaid(m: Market, e: Engine, f: Engine, y: Paycheck)
    requires PaidEngine(m, e, f, y)
    ensures PaidEngine(m, NextAsk(m, e), NextAsk(m, f), y)
  {
  }

  lemma PrimedPaid(m: Market, e: Engine, f: Engine, y: Paycheck)
    requires PaidEngine(m, e, f, y)
    ensures PaidEngine(m, B.Primed(m, e), B.Primed(m, f), y)
  {
    NextBidPaid(m, e, f, y);
    NextAskPaid(m, NextBid(m, e), NextBid(m, f), y);
  }

  lemma {:induction false} RunPaid(m: Market, e: Engine, f: Engine, last: Option<nat>, y: Paycheck)
    requires PaidEngine(m, e, f, y) && (last.Some? ==> last.value == e.filled)
    ensures B.Run(m, e, last).Some? <==> B.Run(m, f, last).Some?
    ensures B.Run(m, e, last).Some? ==> PaidEngine(m, B.Run(m, e, last).value, B.Run(m, f, last).value, y)
    decreases B.Orders(e) + if last.None? then 1 else 0
  {
    var p, q := B.NextPair(m, e), B.NextPair(m, f);
    NextPairPaid(m, e, f, y);
    B.NextPairTakes(m, e);
    B.NextPairTakes(m, f);
    if B.Paired(p) && last != Some(p.filled) {
      MatchPaid(m, p, q, y);
      if B.Match(m, p).Continue? {
        B.MatchTakesNone(m, p);
        B.MatchTakesNone(m, q);
        RunPaid(m, B.Match(m, p).next, B.Match(m, q).next, Some(p.filled), y);
      }
    }
  }

  lemma StoredPaid(m: Market, b: Book, c: Book, y: Paycheck)
    requires PaidBook(m, b, c, y) && m.quote > m.base >= 0 && m.quote in b.l.assets && m.base in b.l.assets
    ensures Paid(B.Stored(m, b), B.Stored(m, c), y)
  {
  }

  lemma {:induction false} RunKeepsAssets(m: Market, e: Engine, last: Option<nat>)
    requires B.InSync(m, e) && (last.Some? ==> last.value == e.filled) && B.Run(m, e, last).Some?
    ensures B.Run(m, e, last).value.book.l.assets == e.book.l.assets
  {
    RunLeaves(m, e, last, OrderKey(NO_PRICE, 0), 0, false);
  }

  lemma StartPaid(l: Ledger, n: Ledger, t: Turn, y: Paycheck)
    requires Paid(l, n, y) && t.market.quote in l.assets && t.market.base in l.assets
    requires t.market.quote > t.market.base >= 0
    ensures PaidEngine(t.market, StartOf(t, l), StartOf(t, n), y)
  {
  }

  /** The run from the paid ledger completes exactly if the other does, and ends alike. */
  lemma ExecutePaid(l: Ledger, n: Ledger, t: Turn, y: Paycheck)
    requires Paid(l, n, y) && Loaded(l, t) && t.market.quote in l.assets && t.market.base in l.assets
    requires t.market.quote > t.market.base
    ensures var r, s := B.Execute(t.market, StartOf(t, l)), B.Execute(t.market, StartOf(t, n));
      (r.Some? <==> s.Some?) && (r.Some? ==> Paid(r.value, s.value, y))
  {
    var m := t.market;
    var e, f := StartOf(t, l), StartOf(t, n);
    StartPaid(l, n, t, y);
    PrimedPaid(m, e, f, y);
    RunPaid(m, B.Primed(m, e), B.Primed(m, f), None, y);
    if B.Execute(m, e).Some? {
      B.PrimedSync(m, e);
      RunKeepsAssets(m, B.Primed(m, e), None);
      StoredPaid(m, B.Run(m, B.Primed(m, e), None).value.book, B.Run(m, B.Primed(m, f), None).value.book, y);
    }
  }

  lemma TurnPaid(l: Ledger, n: Ledger, t: Turn, y: Paycheck)
    requires Paid(l, n, y) && Loaded(l, t) && t.market.quote > t.market.base
    ensures Paid(TakeTurn(l, t), TakeTurn(n, t), y)
  {
    if t.market.quote in l.assets && t.market.base in l.assets {
      ExecutePaid(l, n, t, y);
    }
  }

  lemma {:induction false} TurnsPaid(l: Ledger, n: Ledger, turns: seq<Turn>, y: Paycheck)
    requires Paid(l, n, y) && WellFormed(l) && AllLoaded(l, turns) && Ordered(turns)
    ensures Paid(TakeTurns(l, turns), TakeTurns(n, turns), y)
    decreases |turns|
  {
    if turns != [] {
      TurnPaid(l, n, turns[0], y);
      TurnKeeps(l, turns[0], 0, 0, false);
      TurnMovesItsOwn(l, turns[0]);
      AllStillLoaded(l, TakeTurn(l, turns[0]), turns);
      TurnsPaid(TakeTurn(l, turns[0]), TakeTurn(n, turns[0]), turns[1..], y);
    }
  }

  // ---------- operations ----------

  ghost predicate PaidEval(e: Evaluation, f: Evaluation, y: Paycheck) {
    f == e.(ledger := f.ledger) && Paid(e.ledger, f.ledger, y)
  }

  /** What one evaluation gives without the paycheck the other gives with it. */
  ghost predicate PaidResult(r: Option<Evaluation>, t: Option<Evaluation>, y: Paycheck) {
    r.Some? ==> t.Some? && PaidEval(r.value, t.value, y)
  }

  lemma AccountStored(l: Ledger, n: Ledger, id: AccountId, r: Account, s: Account, y: Paycheck)
    requires Paid(l, n, y) && (id == y.producer ==> r.delegate.Some?)
    requires s == if id == y.producer then Account(Some(PaidDelegate(r.delegate.value, y))) else r
    ensures Paid(l.(accounts := l.accounts[id := r]), n.(accounts := n.accounts[id := s]), y)
  {
  }

  lemma AssetStored(l: Ledger, n: Ledger, a: AssetId, r: Asset, s: Asset, y: Paycheck)
    requires Paid(l, n, y) && (a == 0 ==> !r.IsMarketIssued())
    requires s == if a == 0 then PaidAsset(r, y) else r
    ensures Paid(l.(assets := l.assets[a := r]), n.(assets := n.assets[a := s]), y)
  {
  }

  lemma ChangePaid(e: Evaluation, f: Evaluation, k: Condition, r: Balance, change: int, c: Config, y: Paycheck)
    requires PaidEval(e, f, y)
    ensures PaidResult(ChangeBalance(e, k, r, change, c), ChangeBalance(f, k, r, change, c), y)
  {
  }

  lemma BalancesStored(l: Ledger, n: Ledger, balances: map<Condition, Balance>, y: Paycheck)
    requires Paid(l, n, y)
    ensures Paid(l.(balances := balances), n.(balances := balances), y)
  {
  }

  lemma YieldPaid(e: Evaluation, f: Evaluation, k: Condition, x: nat, c: Config, y: Paycheck)
    requires PaidEval(e, f, y) && k.asset in e.ledger.assets && k in e.ledger.balances
    ensures PaidEval(PayYield(e, k, x, c.now), PayYield(f, k, x, c.now), y)
  {
    if x != 0 {
      var r := e.ledger.balances[k];
      var balances := e.ledger.balances[k := Balance(r.amount + x, c.now, r.genesis)];
      YieldStored(e.ledger, f.ledger, k.asset, balances, x, y);
    }
  }

  lemma YieldStored(l: Ledger, n: Ledger, a: AssetId, balances: map<Condition, Balance>, x: nat, y: Paycheck)
    requires Paid(l, n, y) && a in l.assets
    ensures a in n.assets
    ensures Paid(l.(assets := l.assets[a := l.assets[a].(fees := l.assets[a].fees - x)], balances := balances),
                 n.(assets := n.assets[a := n.assets[a].(fees := n.assets[a].fees - x)], balances := balances), y)
  {
    BalancesStored(l, n, balances, y);
    AssetStored(l.(balances := balances), n.(balances := balances), a,
                l.assets[a].(fees := l.assets[a].fees - x), n.assets[a].(fees := n.assets[a].fees - x), y);
  }

  lemma WithdrawPaid(e: Evaluation, f: Evaluation, k: Condition, amount: int, permitted: bool, c: Config, y: Paycheck)
    requires PaidEval(e, f, y)
    ensures PaidResult(EvaluateWithdraw(e, k, amount, permitted, c), EvaluateWithdraw(f, k, amount, permitted, c), y)
  {
    if EvaluateWithdraw(e, k, amount, permitted, c).Some? {
      var x := YieldDue(e.ledger.assets[k.asset], e.ledger.balances[k], c.now).value;
      assert YieldDue(f.ledger.assets[k.asset], f.ledger.balances[k], c.now) == Some(x);
      YieldPaid(e, f, k, x, c, y);
      var r := PayYield(e, k, x, c.now).ledger.balances[k];
      ChangePaid(PayYield(e, k, x, c.now), PayYield(f, k, x, c.now), k, r.(amount := r.amount - amount), -amount, c, y);
    }
  }

  lemma BalanceOpPaid(e: Evaluation, f: Evaluation, op: Operation, c: Config, y: Paycheck)
    requires PaidEval(e, f, y) && (op.Deposit? || op.Withdraw? || op.Claim?)
    ensures PaidResult(Apply(e, op, c), Apply(f, op, c), y)
  {
    match op {
      case Deposit(k, amount) =>
        if amount > 0 {
          var r := BalanceOf(e.ledger, k);
          ChangePaid(e, f, k, Balance(r.amount + amount, AverageDate(r, amount, c.now), r.genesis), amount, c, y);
        }
      case Withdraw(k, amount, permitted) => WithdrawPaid(e, f, k, amount, permitted, c, y);
      case Claim(k, amount, permitted) =>
        if EvaluateClaim(e, k, amount, permitted, c).Some? {
          ChangePaid(e, f, k, e.ledger.balances[k].(amount := 0), -amount, c, y);
        }
    }
  }

  lemma OrderOpPaid(e: Evaluation, f: Evaluation, op: Operation, c: Config, y: Paycheck)
    requires PaidEval(e, f, y) && (op.Bid? || op.Ask? || op.Short?)
    ensures PaidResult(Apply(e, op, c), Apply(f, op, c), y)
  {
  }

  lemma SlatePaid(e: Evaluation, f: Evaluation, id: nat, slate: seq<AccountId>, c: Config, y: Paycheck)
    requires PaidEval(e, f, y)
    ensures PaidResult(EvaluateDefineSlate(e, id, slate, c), EvaluateDefineSlate(f, id, slate, c), y)
  {
    assert AreDelegates(e.ledger, slate) ==> AreDelegates(f.ledger, slate);
  }

  lemma PayDebtPaid(e: Evaluation, f: Evaluation, q: AssetId, principal: int, interest: int, y: Paycheck)
    requires PaidEval(e, f, y) && q in e.ledger.assets
    ensures PaidEval(PayDebt(e, q, principal, interest), PayDebt(f, q, principal, interest), y)
  {
  }

  lemma SettlePaid(e: Evaluation, f: Evaluation, k: OrderKey, rest: Collateral, landing: Option<OrderKey>, y: Paycheck)
    requires PaidEval(e, f, y)
    ensures PaidEval(Settle(e, k, rest, landing), Settle(f, k, rest, landing), y)
  {
  }

  lemma CoverOpPaid(e: Evaluation, f: Evaluation, k: OrderKey, amount: int, newPrice: Option<Price>, permitted: bool, c: Config, y: Paycheck)
    requires PaidEval(e, f, y)
    ensures PaidResult(EvaluateCover(e, k, amount, newPrice, permitted, c), EvaluateCover(f, k, amount, newPrice, permitted, c), y)
  {
    if EvaluateCover(e, k, amount, newPrice, permitted, c).Some? {
      var r := e.ledger.collateral[k];
      var principal := PrincipalPaid(r, amount, c);
      CoverPayPaid(e, f, k, amount, principal, AfterPayment(k, r, principal, newPrice).value, y);
    }
  }

  lemma CoverPayPaid(e: Evaluation, f: Evaluation, k: OrderKey, amount: int, principal: int, m: Relocation, y: Paycheck)
    requires PaidEval(e, f, y) && k.price.quote in e.ledger.assets
    ensures PaidEval(Operations.PayCover(e, k, amount, principal, m), Operations.PayCover(f, k, amount, principal, m), y)
  {
    PayDebtPaid(e, f, k.price.quote, principal, amount - principal, y);
    SettlePaid(PayDebt(e, k.price.quote, principal, amount - principal), PayDebt(f, k.price.quote, principal, amount - principal),
               k, m.rest, m.landing, y);
  }

  lemma AddCollateralPaid(e: Evaluation, f: Evaluation, k: OrderKey, amount: int, y: Paycheck)
    requires PaidEval(e, f, y)
    ensures PaidResult(EvaluateAddCollateral(e, k, amount), EvaluateAddCollateral(f, k, amount), y)
  {
    if EvaluateAddCollateral(e, k, amount).Some? {
      var m := AfterAdding(k, e.ledger.collateral[k], amount).value;
      SettlePaid(Move(e, k.price.base, -amount), Move(f, k.price.base, -amount), k, m.rest, m.landing, y);
    }
  }

  /** The account numbers of the producer and of a new account differ. */
  lemma RegisterPaid(e: Evaluation, f: Evaluation, payRate: nat, permitted: bool, c: Config, y: Paycheck)
    requires PaidEval(e, f, y) && WellFormed(e.ledger)
    ensures PaidResult(EvaluateRegisterAccount(e, payRate, permitted, c), EvaluateRegisterAccount(f, payRate, permitted, c), y)
  {
    var id := e.ledger.lastAccount + 1;
    var r := if payRate <= 100 then Account(Some(Delegate(0, payRate, 0))) else Account(None);
    AccountStored(e.ledger.(lastAccount := id), f.ledger.(lastAccount := id), id, r, r, y);
  }

  lemma UpdatePaid(e: Evaluation, f: Evaluation, id: AccountId, payRate: nat, permitted: bool, c: Config, y: Paycheck)
    requires PaidEval(e, f, y)
    ensures PaidResult(EvaluateUpdateAccount(e, id, payRate, permitted, c), EvaluateUpdateAccount(f, id, payRate, permitted, c), y)
  {
    if EvaluateUpdateAccount(e, id, payRate, permitted, c).Some? {
      var was, now := e.ledger.accounts[id].delegate, f.ledger.accounts[id].delegate;
      if was.Some? {
        AccountStored(e.ledger, f.ledger, id, Account(Some(was.value.(payRate := payRate))),
                      Account(Some(now.value.(payRate := payRate))), y);
      } else {
        AccountStored(e.ledger, f.ledger, id, Account(Some(Delegate(0, payRate, 0))), Account(Some(Delegate(0, payRate, 0))), y);
      }
    }
  }

  /** There is only more pay to withdraw. */
  lemma WithdrawPayPaid(e: Evaluation, f: Evaluation, account: AccountId, amount: int, permitted: bool, y: Paycheck)
    requires PaidEval(e, f, y)
    ensures PaidResult(EvaluateWithdrawPay(e, account, amount, permitted), EvaluateWithdrawPay(f, account, amount, permitted), y)
  {
    if EvaluateWithdrawPay(e, account, amount, permitted).Some? {
      PayTaken(e.ledger, f.ledger, Abs(account), amount, y);
    }
  }

  lemma PayTaken(l: Ledger, n: Ledger, id: AccountId, amount: int, y: Paycheck)
    requires Paid(l, n, y) && id in l.accounts && l.accounts[id].delegate.Some?
    ensures id in n.accounts && n.accounts[id].delegate.Some?
    ensures n.accounts[id].delegate.value.pay >= l.accounts[id].delegate.value.pay
    ensures var r, s := l.accounts[id].delegate.value, n.accounts[id].delegate.value;
      Paid(l.(accounts := l.accounts[id := Account(Some(r.(pay := r.pay - amount)))]),
           n.(accounts := n.accounts[id := Account(Some(s.(pay := s.pay - amount)))]), y)
  {
    var r, s := l.accounts[id].delegate.value, n.accounts[id].delegate.value;
    AccountStored(l, n, id, Account(Some(r.(pay := r.pay - amount))), Account(Some(s.(pay := s.pay - amount))), y);
  }

  lemma BurnPaid(e: Evaluation, f: Evaluation, a: AssetId, amount: int, hasMessage: bool, account: AccountId, c: Config, y: Paycheck)
    requires PaidEval(e, f, y)
    ensures PaidResult(EvaluateBurn(e, a, amount, hasMessage, account, c), EvaluateBurn(f, a, amount, hasMessage, account, c), y)
  {
    if EvaluateBurn(e, a, amount, hasMessage, account, c).Some? {
      var r, s := e.ledger.assets[a], f.ledger.assets[a];
      AssetStored(e.ledger, f.ledger, a, r.(supply := r.supply - amount), s.(supply := s.supply - amount), y);
    }
  }

  lemma CreatePaid(e: Evaluation, f: Evaluation, issuer: AccountId, maxSupply: int, permitted: bool, c: Config, y: Paycheck)
    requires PaidEval(e, f, y)
    ensures PaidResult(EvaluateCreateAsset(e, issuer, maxSupply, permitted, c), EvaluateCreateAsset(f, issuer, maxSupply, permitted, c), y)
  {
    var id := e.ledger.lastAsset + 1;
    if id != 0 {
      AssetStored(e.ledger.(lastAsset := id), f.ledger.(lastAsset := id), id, Asset(issuer, 0, maxSupply, 0), Asset(issuer, 0, maxSupply, 0), y);
    }
  }

  /** An issuer is an account, so asset 0 stays user-issued; and there is only less supply to issue on. */
  lemma IssuerPaid(e: Evaluation, f: Evaluation, op: Operation, c: Config, y: Paycheck)
    requires PaidEval(e, f, y) && WellFormed(e.ledger) && (op.UpdateAsset? || op.IssueAsset?)
    ensures PaidResult(Apply(e, op, c), Apply(f, op, c), y)
  {
    if Apply(e, op, c).Some? {
      var r, s := e.ledger.assets[op.asset], f.ledger.assets[op.asset];
      match op {
        case UpdateAsset(a, issuer, _) => AssetStored(e.ledger, f.ledger, a, r.(issuer := issuer), s.(issuer := issuer), y);
        case IssueAsset(a, amount, _) => AssetStored(e.ledger, f.ledger, a, r.(supply := r.supply + amount), s.(supply := s.supply + amount), y);
      }
    }
  }

  lemma RecordOpPaid(e: Evaluation, f: Evaluation, op: Operation, c: Config, y: Paycheck)
    requires PaidEval(e, f, y) && WellFormed(e.ledger)
    requires op.RegisterAccount? || op.UpdateAccount? || op.WithdrawPay? || op.Burn? || op.CreateAsset?
    ensures PaidResult(Apply(e, op, c), Apply(f, op, c), y)
  {
    match op {
      case RegisterAccount(payRate, permitted) => RegisterPaid(e, f, payRate, permitted, c, y);
      case UpdateAccount(id, payRate, permitted) => UpdatePaid(e, f, id, payRate, permitted, c, y);
      case WithdrawPay(account, amount, permitted) => WithdrawPayPaid(e, f, account, amount, permitted, y);
      case Burn(a, amount, hasMessage, account) => BurnPaid(e, f, a, amount, hasMessage, account, c, y);
      case CreateAsset(issuer, maxSupply, permitted) => CreatePaid(e, f, issuer, maxSupply, permitted, c, y);
    }
  }

  lemma ApplyPaid(e: Evaluation, f: Evaluation, op: Operation, c: Config, y: Paycheck)
    requires PaidEval(e, f, y) && WellFormed(e.ledger)
    ensures PaidResult(Apply(e, op, c), Apply(f, op, c), y)
  {
    if op.Deposit? || op.Withdraw? || op.Claim? {
      BalanceOpPaid(e, f, op, c, y);
    } else if op.UpdateAsset? || op.IssueAsset? {
      IssuerPaid(e, f, op, c, y);
    } else if op.RegisterAccount? || op.UpdateAccount? || op.WithdrawPay? || op.Burn? || op.CreateAsset? {
      RecordOpPaid(e, f, op, c, y);
    } else if op.Cover? {
      CoverOpPaid(e, f, op.key, op.amount, op.newPrice, op.permitted, c, y);
    } else if op.AddCollateral? {
      AddCollateralPaid(e, f, op.key, op.amount, y);
    } else if op.DefineSlate? {
      SlatePaid(e, f, op.id, op.delegates, c, y);
    } else {
      OrderOpPaid(e, f, op, c, y);
    }
  }

  lemma {:induction false} RunOpsPaid(e: Evaluation, f: Evaluation, ops: seq<Operation>, c: Config, y: Paycheck)
    requires PaidEval(e, f, y) && WellFormed(e.ledger)
    ensures PaidResult(T.Run(e, ops, c), T.Run(f, ops, c), y)
    decreases |ops|
  {
    if ops != [] && Apply(e, ops[0], c).Some? {
      ApplyPaid(e, f, ops[0], c, y);
      ApplyExtends(e, ops[0], c);
      RunOpsPaid(Apply(e, ops[0], c).value, Apply(f, ops[0], c).value, ops[1..], c, y);
    }
  }

  // ---------- transactions ----------

  lemma AltFeesPaid(l: Ledger, n: Ledger, balance: map<AssetId, int>, c: Config, y: Paycheck)
    requires Paid(l, n, y)
    ensures T.AltFees(l, balance, c) == T.AltFees(n, balance, c)
  {
    forall a | a in balance
      ensures T.AltFeeOf(l, c)(a, balance[a]) == T.AltFeeOf(n, c)(a, balance[a])
    {
      assert a != 0 ==> (MarketIssued(l, a) <==> MarketIssued(n, a));
    }
    Sums.TotalSame(balance, T.AltFeeOf(l, c), balance, T.AltFeeOf(n, c));
  }

  lemma CollectPaid(l: Ledger, n: Ledger, balance: map<AssetId, int>, y: Paycheck)
    requires Paid(l, n, y)
    ensures Paid(T.CollectFees(l, balance), T.CollectFees(n, balance), y)
    ensures T.Payable(l, balance) <==> T.Payable(n, balance)
  {
  }

  lemma VotesPaid(l: Ledger, n: Ledger, votes: map<AccountId, int>, y: Paycheck)
    requires Paid(l, n, y)
    ensures Paid(T.AddVotes(l, votes), T.AddVotes(n, votes), y)
    ensures T.Electable(l, votes) <==> T.Electable(n, votes)
  {
  }

  /** A transaction accepted before the producer is paid is accepted after, to the same effect. */
  lemma TransactionPaid(l: Ledger, n: Ledger, ops: seq<Operation>, c: Config, y: Paycheck)
    requires Paid(l, n, y) && WellFormed(l) && T.Evaluate(l, ops, c).Some?
    ensures T.Evaluate(n, ops, c).Some? && Paid(T.Evaluate(l, ops, c).value, T.Evaluate(n, ops, c).value, y)
  {
    RunOpsPaid(T.Start(l), T.Start(n), ops, c, y);
    var e, f := T.Run(T.Start(l), ops, c).value, T.Run(T.Start(n), ops, c).value;
    AltFeesPaid(e.ledger, f.ledger, e.balance, c, y);
    CollectPaid(e.ledger, f.ledger, e.balance, y);
    VotesPaid(e.ledger, f.ledger, e.votes, y);
    VotesPaid(T.CollectFees(e.ledger, e.balance), T.CollectFees(f.ledger, e.balance), e.votes, y);
  }

  lemma {:induction false} TransactionsPaid(l: Ledger, n: Ledger, transactions: seq<seq<Operation>>, c: Config, y: Paycheck)
    requires Paid(l, n, y) && WellFormed(l) && EvaluateAll(l, transactions, c).Some?
    ensures EvaluateAll(n, transactions, c).Some?
    ensures Paid(EvaluateAll(l, transactions, c).value, EvaluateAll(n, transactions, c).value, y)
    decreases |transactions|
  {
    if transactions != [] {
      TransactionPaid(l, n, transactions[0], c, y);
      T.TransactionKeeps(l, transactions[0], c, 0, 0);
      TransactionsPaid(T.Evaluate(l, transactions[0], c).value, T.Evaluate(n, transactions[0], c).value, transactions[1..], c, y);
    }
  }

  // ---------- the block ----------

  /** generate_block's choice from the transactions it tries: each is kept exactly if it is accepted after
      those kept before it. */
  ghost function Assemble(l: Ledger, tried: seq<seq<Operation>>, c: Config): seq<seq<Operation>>
    decreases |tried|
  {
    if tried == [] then []
    else
      match T.Evaluate(l, tried[0], c)
      case None => Assemble(l, tried[1..], c)
      case Some(n) => [tried[0]] + Assemble(n, tried[1..], c)
  }

  lemma {:induction false} AssembledEvaluates(l: Ledger, tried: seq<seq<Operation>>, c: Config)
    ensures EvaluateAll(l, Assemble(l, tried, c), c).Some?
    decreases |tried|
  {
    if tried != [] {
      match T.Evaluate(l, tried[0], c)
      case None => AssembledEvaluates(l, tried[1..], c);
      case Some(n) =>
        AssembledEvaluates(n, tried[1..], c);
        assert Assemble(l, tried, c)[1..] == Assemble(n, tried[1..], c);
    }
  }

  /** The block a node assembles on its head, from whatever transactions it tried after running the markets,
      applies to that head whenever its producer can be paid; and the ledger it leaves is the one the
      node had at the end of the assembly, with the paycheck paid. */
  lemma AssembledBlockApplies(l: Ledger, x: Input, tried: seq<seq<Operation>>)
    requires WellFormed(l) && AllLoaded(l, x.turns) && Ordered(x.turns)
    requires T.PayDelegate(l, x.producer, x.maxPay).Some?
    ensures var block := Assemble(TakeTurns(l, x.turns), tried, x.config);
      && EvaluateAll(TakeTurns(l, x.turns), block, x.config).Some?
      && ApplyBlock(l, x.(transactions := block)).Some?
      && Paid(EvaluateAll(TakeTurns(l, x.turns), block, x.config).value, EvaluateBlock(l, x.(transactions := block)).value,
              PaycheckOf(l, x.producer, x.maxPay))
  {
    var y := PaycheckOf(l, x.producer, x.maxPay);
    var n := T.PayDelegate(l, x.producer, x.maxPay).value;
    var block := Assemble(TakeTurns(l, x.turns), tried, x.config);
    PayDelegatePays(l, x.producer, x.maxPay);
    TurnsPaid(l, n, x.turns, y);
    TurnsKeep(l, x.turns, 0, 0, false);
    AssembledEvaluates(TakeTurns(l, x.turns), tried, x.config);
    TransactionsPaid(TakeTurns(l, x.turns), TakeTurns(n, x.turns), block, x.config, y);
  }
}
