/** Concrete states in which each of the stated conditions fails, so that none of them is empty. */
module Witnesses {
  import opened Options
  import opened Prices
  import opened Ledgers
  import opened Matching
  import opened Settlement
  import opened Backing
  import opened Operations
  import opened Conservation
  import O = Overlay
  import T = Transactions
  import F = RequiredFees
  import E = Earnings

  const NATIVE := Asset(0, 1000, 1000, 0)
  const ISSUED := Asset(MARKET_ISSUED_ASSET, 1000, 1000, 100)

  const EMPTY := Ledger(map[0 := NATIVE, 1 := ISSUED], map[], map[], map[], map[], map[], map[], map[], 1, 0)

  /** The market of asset 1 in asset 0, fed two to one, at time 10. */
  const MARKET := Market(1, 0, Some(2 * PRECISION), 10, 5, 0)

  function Place(kind: OrderType, ratio: nat, balance: nat): Order {
    Order(kind, OrderKey(Price(ratio, 1, 0), if kind.BidOrder? || kind.ShortOrder? then 7 else 8), balance, None, 0, NO_PRICE, 0)
  }

  function Meeting(l: Ledger, bid: Order, ask: Order): Engine {
    Engine(Book(l, ISSUED, NATIVE), [], [], [], [], Some(bid), Some(ask), 0)
  }

  /** In step with the book, and about to trade. */
  ghost predicate Trades(m: Market, e: Engine) {
    Paired(e) && InSync(m, e) && Meets(m, e.book.l, e.bid.value, e.ask.value) && Match(m, e).Continue?
    && Decide(m, e.bid.value, e.ask.value, e.book.quote.IsMarketIssued()).Trade?
  }

  // ---------- what a fill loses ----------

  /** An ask of 15 at a tenth, sold to a short of 1: 10 pay for it, and the 5 left, worth nothing in the
      quote asset, are booked as quote fees. */
  lemma DustIsMisbooked()
    ensures var short, ask := Place(ShortOrder, 0, 1), Place(AskOrder, PRECISION / 10, 15);
      var e := Meeting(EMPTY.(shorts := map[short.key := 1], asks := map[ask.key := 15]), short, ask);
      Trades(MARKET, e) && RoundLosses(MARKET, e) == Losses(0, 5, 0, 0, 0, 0)
  {
    var short, ask := Place(ShortOrder, 0, 1), Place(AskOrder, PRECISION / 10, 15);
    assert FillOf(MARKET, short, ask, 2 * PRECISION, PRECISION / 10) == Fill(1, 10, 10, 1, 1);
    assert AskLeft(ask, 10) == 0;
  }

  /** An ask of one share at the lowest ratio, sold to a short of 1000: it pays the share for nothing, and
      nobody gets it. */
  lemma ShareIsDestroyed()
    ensures var short, ask := Place(ShortOrder, 0, 1000), Place(AskOrder, 1, 1);
      var e := Meeting(EMPTY.(shorts := map[short.key := 1000], asks := map[ask.key := 1]), short, ask);
      Trades(MARKET, e) && RoundLosses(MARKET, e) == Losses(0, 0, 1, 0, 0, 0)
  {
    var short, ask := Place(ShortOrder, 0, 1000), Place(AskOrder, 1, 1);
    assert FillOf(MARKET, short, ask, 2 * PRECISION, 1) == Fill(0, 1, 1, 0, 0);
    assert AskLeft(ask, 1) == 0;
  }

  /** No interest, in the market's own pair. */
  const RATE := Price(0, 1, 0)

  function Margin(key: OrderKey, owed: nat, collateral: nat): Order {
    Order(CoverOrder, key, owed, None, collateral, RATE, 0)
  }

  /** A cover that owes 100 against one share of collateral, bought out by a bid at the feed: 98 of the
      debt are forgiven, and stay in the supply. */
  lemma DebtIsForgiven()
    ensures var bid, cover := Place(BidOrder, 2 * PRECISION, 50), Margin(OrderKey(Price(3 * PRECISION, 1, 0), 8), 100, 1);
      var e := Meeting(EMPTY.(bids := map[bid.key := 50], collateral := map[cover.key := Collateral(1, 100, RATE, 0)]), bid, cover);
      Trades(MARKET, e) && RoundLosses(MARKET, e) == Losses(98, 0, 0, 0, 0, 0)
  {
  }

  /** A short of 10 and an expired cover of the same owner: what the short buys and puts up opens a cover at
      that very key, and paying the old cover stores over 15 of collateral and 10 of debt. */
  lemma CoverIsStoredOver()
    ensures var short, cover := Place(ShortOrder, 0, 10), Margin(OrderKey(Price(PRECISION, 1, 0), 7), 20, 30);
      var e := Meeting(EMPTY.(shorts := map[short.key := 10], collateral := map[cover.key := Collateral(30, 20, RATE, 0)]), short, cover);
      Trades(MARKET, e) && RoundLosses(MARKET, e) == Losses(0, 0, 0, 15, 10, 0)
  {
    var short, cover := Place(ShortOrder, 0, 10), Margin(OrderKey(Price(PRECISION, 1, 0), 7), 20, 30);
    var l := EMPTY.(shorts := map[short.key := 10], collateral := map[cover.key := Collateral(30, 20, RATE, 0)]);
    var f := FillOf(MARKET, short, cover, 2 * PRECISION, 2 * PRECISION);
    assert f == Fill(10, 5, 5, 10, 10);
    assert CoverKeyOf(MARKET, short, 10, 15) == Some(cover.key);
    var n := PayShort(Book(l, ISSUED, NATIVE), MARKET, short, f);
    assert n.Some? && CollateralAt(n.value.l, cover.key) == Collateral(45, 30, short.key.price, 15);
  }

  /** A run of one round. */
  predicate OneRound(m: Market, e: Engine, g: Engine, h: Engine) {
    Paired(e) && NextPair(m, e) == e && Match(m, e) == Continue(g) && NextPair(m, g) == h && !Paired(h) && g.filled == e.filled
  }

  lemma OneRoundRuns(m: Market, e: Engine, g: Engine, h: Engine)
    requires OneRound(m, e, g, h)
    ensures Run(m, e, None) == Some(h)
  {
    RunStep(m, e, None, e, g);
    LastRound(m, g, h, Some(e.filled));
  }

  lemma OneRoundLoses(m: Market, e: Engine, g: Engine, h: Engine)
    requires OneRound(m, e, g, h)
    ensures RunLosses(m, e, None) == RoundLosses(m, e)
  {
    RunStep(m, e, None, e, g);
    LastRound(m, g, h, Some(e.filled));
    NothingMore(RoundLosses(m, e));
  }

  lemma OneRoundSeen(m: Market, e: Engine, g: Engine, h: Engine)
    requires OneRound(m, e, g, h)
    ensures Seen(m, e, None) == [e]
  {
    RunStep(m, e, None, e, g);
    LastRound(m, g, h, Some(e.filled));
  }

  lemma LastRound(m: Market, g: Engine, h: Engine, last: Option<nat>)
    requires (last.Some? ==> last.value == g.filled) && NextPair(m, g) == h && !Paired(h)
    ensures Run(m, g, last) == Some(h) && RunLosses(m, g, last) == NOTHING && Seen(m, g, last) == []
  {
  }

  lemma NothingMore(x: Losses)
    ensures x.Plus(NOTHING) == x
  {
  }

  lemma ShortIsSpent()
    ensures var short, ask := Place(ShortOrder, 0, 1), Place(AskOrder, PRECISION / 10, 15);
      var e := Meeting(EMPTY.(shorts := map[short.key := 1], asks := map[ask.key := 15]), short, ask).(filled := 2);
      && Paired(e) && Match(MARKET, e).Continue?
      && NextPair(MARKET, e) == e && !Paired(NextPair(MARKET, Match(MARKET, e).next))
  {
    var short, ask := Place(ShortOrder, 0, 1), Place(AskOrder, PRECISION / 10, 15);
    assert FillOf(MARKET, short, ask, 2 * PRECISION, PRECISION / 10) == Fill(1, 10, 10, 1, 1);
  }

  /** A whole market run, from the pending state to the pending state, that takes 5 of the base asset out of
      what is held of it. */
  lemma MarketRunLoses()
    ensures var short, ask := Place(ShortOrder, 0, 1), Place(AskOrder, PRECISION / 10, 15);
      var l := EMPTY.(shorts := map[short.key := 1], asks := map[ask.key := 15]);
      var e := Engine(Book(l, ISSUED, NATIVE), [], [ask], [short], [], None, None, 0);
      && Ready(MARKET, e) && Execute(MARKET, e).Some? && !ShortsIdle(MARKET, e)
      && Supply(Execute(MARKET, e).value, 0) - Holdings(Execute(MARKET, e).value, 0) == Supply(l, 0) - Holdings(l, 0) + 5
  {
    var short, ask := Place(ShortOrder, 0, 1), Place(AskOrder, PRECISION / 10, 15);
    var l := EMPTY.(shorts := map[short.key := 1], asks := map[ask.key := 15]);
    var e := Engine(Book(l, ISSUED, NATIVE), [], [ask], [short], [], None, None, 0);
    var f := Meeting(l, short, ask).(filled := 2);
    assert Primed(MARKET, e) == f;
    DustIsMisbooked();
    ShortIsSpent();
    assert RoundLosses(MARKET, f) == Losses(0, 5, 0, 0, 0, 0);
    var g := Match(MARKET, f).next;
    MatchTakesNone(MARKET, f);
    OneRoundRuns(MARKET, f, g, NextPair(MARKET, g));
    OneRoundLoses(MARKET, f, g, NextPair(MARKET, g));
    RunReaches(MARKET, e, Losses(0, 5, 0, 0, 0, 0));
  }

  lemma RunReaches(m: Market, e: Engine, x: Losses)
    requires Ready(m, e) && m.quote != 0 && m.base == 0
    requires Run(m, Primed(m, e), None).Some? && RunLosses(m, Primed(m, e), None) == x
    ensures Execute(m, e).Some?
    ensures Supply(Execute(m, e).value, 0) - Holdings(Execute(m, e).value, 0) ==
      Supply(e.book.l, 0) - Holdings(e.book.l, 0) + x.misbooked + x.destroyed + x.staleCollateral
  {
    ExecuteKeeps(m, e, 0);
  }

  // ---------- an expired cover waits ----------

  const UNCALLED := Margin(OrderKey(Price(2 * PRECISION, 1, 0), 9), 100, 200).(expiration := 20)
  const EXPIRED := Margin(OrderKey(Price(PRECISION, 1, 0), 9), 100, 200)

  function Waiting(): Engine {
    var bid, ask := Place(BidOrder, 2 * PRECISION, 2), Place(AskOrder, PRECISION, 1);
    var l := EMPTY.(bids := map[bid.key := 2], asks := map[ask.key := 1],
                    collateral := map[UNCALLED.key := Collateral(200, 100, RATE, 20), EXPIRED.key := Collateral(200, 100, RATE, 0)]);
    Engine(Book(l, ISSUED, NATIVE), [bid], [ask], [], [UNCALLED, EXPIRED], None, None, 0)
  }

  lemma AskTrades()
    ensures var e := Primed(MARKET, Waiting());
      && Paired(e) && e.ask == Some(Place(AskOrder, PRECISION, 1)) && NextPair(MARKET, e) == e && Match(MARKET, e).Continue?
      && !Paired(NextPair(MARKET, Match(MARKET, e).next))
      && Match(MARKET, e).next.book.l.collateral == Waiting().book.l.collateral
  {
    var bid, ask := Place(BidOrder, 2 * PRECISION, 2), Place(AskOrder, PRECISION, 1);
    assert FillOf(MARKET, bid, ask, 2 * PRECISION, PRECISION) == Fill(2, 1, 1, 1, 0);
  }

  /** A cover whose term is over stands behind one that is not called: the run sells to the bid from a plain ask,
      and ends with the expired cover as it was. */
  lemma ExpiredCoverWaits()
    ensures var e := Waiting();
      && InSync(MARKET, e) && Callable(MARKET, EXPIRED) && EXPIRED in e.covers
      && |Seen(MARKET, Primed(MARKET, e), None)| == 1
      && Seen(MARKET, Primed(MARKET, e), None)[0].ask == Some(Place(AskOrder, PRECISION, 1))
      && Match(MARKET, Seen(MARKET, Primed(MARKET, e), None)[0]).Continue?
      && Execute(MARKET, e).Some? && Execute(MARKET, e).value.collateral == e.book.l.collateral
  {
    var e := Waiting();
    AskTrades();
    var g := Match(MARKET, Primed(MARKET, e)).next;
    MatchTakesNone(MARKET, Primed(MARKET, e));
    OneRoundRuns(MARKET, Primed(MARKET, e), g, NextPair(MARKET, g));
    OneRoundSeen(MARKET, Primed(MARKET, e), g, NextPair(MARKET, g));
    NextPairTakes(MARKET, g);
    WaitingInSync();
  }

  lemma WaitingInSync()
    ensures InSync(MARKET, Waiting()) && Callable(MARKET, EXPIRED) && EXPIRED in Waiting().covers
  {
    assert EXPIRED == Waiting().covers[1];
  }

  /** The same run pays owner 7, who bid, a unit of the base asset, and owner 8, who asked, one of the quote asset; and
      owner 9, whose covers both wait, nothing. */
  lemma ProceedsArePaid()
    ensures var n := Execute(MARKET, Waiting());
      && n.Some?
      && BalanceAt(n.value, Condition(7, 0, 0)) == 1 && BalanceAt(n.value, Condition(8, 1, 0)) == 1
      && BalanceAt(n.value, Condition(9, 0, 0)) == 0 && BalanceAt(n.value, Condition(0, 0, 0)) == 0
  {
    var e := Waiting();
    ExpiredCoverWaits();
    FirstRoundEarns(Condition(7, 0, 0));
    FirstRoundEarns(Condition(8, 1, 0));
    FirstRoundEarns(Condition(9, 0, 0));
    FirstRoundEarns(Condition(0, 0, 0));
  }

  lemma OnlyRound()
    ensures var first := Primed(MARKET, Waiting()); Paired(first) && Seen(MARKET, first, None) == [first]
  {
    var first := Primed(MARKET, Waiting());
    AskTrades();
    var g := Match(MARKET, first).next;
    MatchTakesNone(MARKET, first);
    OneRoundSeen(MARKET, first, g, NextPair(MARKET, g));
  }

  lemma OnlyRoundEarns(k: Condition)
    ensures Paired(Primed(MARKET, Waiting()))
    ensures E.RoundEarned(MARKET, Primed(MARKET, Waiting()), k) ==
      (if k == Condition(7, 0, 0) then 1 else 0) + (if k == Condition(8, 1, 0) then 1 else 0)
  {
    var bid, ask := Place(BidOrder, 2 * PRECISION, 2), Place(AskOrder, PRECISION, 1);
    var first := Primed(MARKET, Waiting());
    assert first.bid == Some(bid) && first.ask == Some(ask);
    assert FillOf(MARKET, bid, ask, 2 * PRECISION, PRECISION) == Fill(2, 1, 1, 1, 0);
  }

  lemma FirstRoundEarns(k: Condition)
    ensures Execute(MARKET, Waiting()).Some?
    ensures BalanceAt(Execute(MARKET, Waiting()).value, k) ==
      (if k == Condition(7, 0, 0) then 1 else 0) + (if k == Condition(8, 1, 0) then 1 else 0)
  {
    ExpiredCoverWaits();
    OnlyRound();
    OnlyRoundEarns(k);
    E.ExecutePays(MARKET, Waiting(), k);
  }

  // ---------- covers in other markets, and without a rate ----------

  /** A cover whose rate of interest is no price of a market makes the round throw, and with it the run. */
  lemma RateIsRefused()
    ensures var bid, cover := Place(BidOrder, 2 * PRECISION, 50), Margin(OrderKey(Price(3 * PRECISION, 1, 0), 8), 100, 1).(interest := NO_PRICE);
      var e := Meeting(EMPTY.(bids := map[bid.key := 50], collateral := map[cover.key := Collateral(1, 100, NO_PRICE, 0)]), bid, cover);
      Paired(e) && InSync(MARKET, e) && Meets(MARKET, e.book.l, bid, cover) && Fails(MARKET, e)
  {
  }

  /** The market of asset 3 in asset 2. */
  const FAR := Market(3, 2, Some(2 * PRECISION), 10, 5, 0)

  /** A cover in it, paid off: its collateral of 30 is counted at asset 0, and leaves in asset 2. */
  lemma CollateralIsShifted()
    ensures var bid := Order(BidOrder, OrderKey(Price(2 * PRECISION, 3, 2), 7), 50, None, 0, NO_PRICE, 0);
      var cover := Margin(OrderKey(Price(3 * PRECISION, 3, 2), 8), 10, 30);
      var l := EMPTY.(bids := map[bid.key := 50], collateral := map[cover.key := Collateral(30, 10, RATE, 0)]);
      Trades(FAR, Meeting(l, bid, cover)) && RoundLosses(FAR, Meeting(l, bid, cover)) == Losses(0, 0, 0, 0, 0, 30)
  {
    var bid := Order(BidOrder, OrderKey(Price(2 * PRECISION, 3, 2), 7), 50, None, 0, NO_PRICE, 0);
    var cover := Margin(OrderKey(Price(3 * PRECISION, 3, 2), 8), 10, 30);
    assert FillOf(FAR, bid, cover, 2 * PRECISION, 2 * PRECISION) == Fill(10, 5, 5, 10, 0);
  }

  // ---------- what an operation loses ----------

  const CONFIG := Config(10, false, 0, 10, MAX_SHARES, 1, 1, 1, 5, PRECISION, map[])

  /** Adding collateral to a cover moves it onto another cover of its owner: that one's collateral of 100 is
      lost and its debt of 7 forgiven. */
  lemma CoverIsDisplaced()
    ensures var one, two := OrderKey(Price(PRECISION / 2, 1, 0), 7), OrderKey(Price(PRECISION / 4, 1, 0), 7);
      var l := EMPTY.(collateral := map[one := Collateral(3, 1, RATE, 0), two := Collateral(100, 7, RATE, 0)]);
      var e, op := Evaluation(l, map[], map[], 0, 0), AddCollateral(one, 3);
      && WellFormed(l) && Apply(e, op, CONFIG).Some?
      && Lost(l, op, CONFIG, 0) == 100 && Forgiven(l, op, CONFIG, 1) == 7
  {
  }

  /** And a cover gets there by asking for a price there: its debt of 10 is then counted at asset 3. */
  lemma CoverLeavesMarket()
    ensures var one, far := OrderKey(Price(PRECISION, 1, 0), 7), OrderKey(Price(1, 3, 2), 7);
      var l := EMPTY.(collateral := map[one := Collateral(30, 10, RATE, 0)]);
      var e, op := Evaluation(l, map[], map[], 0, 0), Cover(one, 0, Some(far.price), true);
      && WellFormed(l) && Listable(l) && Apply(e, op, CONFIG).Some?
      && CollateralAt(Apply(e, op, CONFIG).value.ledger, far) == Collateral(30, 10, RATE, 0)
      && Forgiven(l, op, CONFIG, 1) == 10 && Forgiven(l, op, CONFIG, 3) == -10
  {
  }

  /** A bid quoted in the base asset: what it offers is in no holdings. */
  lemma BidIsNotHeld()
    ensures var op := Bid(OrderKey(Price(PRECISION, 0, 1), 7), 5, true);
      Apply(Evaluation(EMPTY, map[], map[], 0, 0), op, CONFIG).Some? && Lost(EMPTY, op, CONFIG, 0) == 5
  {
  }

  // ---------- what a registration costs ----------

  /** Registering a delegate that takes all of its pay, with nothing to pay the two fees from: it runs, and is refused. */
  lemma RegistrationIsNotFree()
    ensures var ops := [RegisterAccount(100, true)];
      && F.Due(ops, F.Delegates(EMPTY), EMPTY.lastAccount, CONFIG) == 2
      && T.Run(T.Start(EMPTY), ops, CONFIG).Some? && T.Evaluate(EMPTY, ops, CONFIG).None?
  {
    var ops := [RegisterAccount(100, true)];
    assert WellFormed(EMPTY);
    F.AcceptedIffPaid(EMPTY, ops, CONFIG);
    var f := Apply(T.Start(EMPTY), ops[0], CONFIG).value;
    assert T.Run(f, ops[1..], CONFIG) == Some(f);
    assert T.Run(T.Start(EMPTY), ops, CONFIG) == Some(f);
    assert F.Offered(f.ledger, f.balance, CONFIG) == 0;
  }

  // ---------- what an undo does not restore ----------

  const BLANK := O.Tables(map[], map[], map[], map[], map[], map[], map[], map[], map[], map[], map[], {})

  /** A burn already on record is gone once a block that burned more is undone; a balance that block opened
      is still there, null; and a market that was dirty no longer is. */
  lemma UndoFallsShort()
    ensures var db := BLANK.(burns := map[1 := O.BurnRecord(5, 0)], dirty := {(1, 0)});
      var p := BLANK.(burns := map[1 := O.BurnRecord(9, 0)], balances := map[3 := O.BalanceRecord(4, 0)]);
      var now := O.Apply(O.Apply(db, p), O.UndoOf(db, p));
      && O.NullFree(db)
      && now.burns != db.burns && now.balances != db.balances && now.dirty != db.dirty
  {
    var db := BLANK.(burns := map[1 := O.BurnRecord(5, 0)], dirty := {(1, 0)});
    var p := BLANK.(burns := map[1 := O.BurnRecord(9, 0)], balances := map[3 := O.BalanceRecord(4, 0)]);
    O.UndoRestores(db, p);
    assert 1 in p.burns.Keys && 1 in db.burns.Keys;
    assert 3 in p.balances.Keys && 3 !in db.balances.Keys;
    assert (1, 0) in db.dirty && (1, 0) !in O.Touched(p);
  }
}
