/** What a market's run leaves behind: no bid that can still buy something, and no ask, at prices that cross. */
module Clearing {
  import opened Options
  import opened Prices
  import opened Ledgers
  import opened Matching
  import opened Settlement
  import opened Backing

  // ---------- the lists an engine starts with ----------

  /** Best first: bids from the highest price down, asks from the lowest up. */
  ghost predicate BestFirst(bids: seq<Order>, asks: seq<Order>) {
    && (forall i, j :: 0 <= i < j < |bids| ==> bids[i].key.price.ratio >= bids[j].key.price.ratio)
    && (forall i, j :: 0 <= i < j < |asks| ==> asks[i].key.price.ratio <= asks[j].key.price.ratio)
  }

  function StoredAt(orders: map<OrderKey, nat>, k: OrderKey): nat {
    if k in orders then orders[k] else 0
  }

  /** A bid that has become too small to buy a unit, and an ask that is used up. */
  predicate BidDone(l: Ledger, o: Order) {
    Quantity(o.(balance := StoredAt(l.bids, o.key))) == 0
  }

  predicate AskDone(l: Ledger, o: Order) {
    StoredAt(l.asks, o.key) == 0
  }

  // ---------- how far the lists have been worked off ----------

  /** An order of the given kind is at hand. */
  predicate Has(hand: Option<Order>, kind: OrderType) {
    hand.Some? && hand.value.kind == kind
  }

  /** Position i of the start list is neither still to come nor at hand. */
  predicate Passed(all: seq<Order>, left: seq<Order>, hand: Option<Order>, kind: OrderType, i: nat) {
    i < |all| - |left| - if Has(hand, kind) then 1 else 0
  }

  /** The list is what is left of the one at the start, and the order at hand the one before. */
  ghost predicate Cut(all: seq<Order>, left: seq<Order>, hand: Option<Order>, kind: OrderType) {
    && |left| <= |all| && all[|all| - |left|..] == left
    && (Has(hand, kind) ==> |left| < |all| && all[|all| - |left| - 1].(balance := 0) == hand.value.(balance := 0))
  }

  /** Bids that have been passed are done; a short is at hand only ahead of bids below the feed. */
  ghost predicate BidsDone(m: Market, all: seq<Order>, left: seq<Order>, hand: Option<Order>, l: Ledger) {
    && Cut(all, left, hand, BidOrder)
    && (forall i: nat :: Passed(all, left, hand, BidOrder, i) ==> BidDone(l, all[i]))
    && (Has(hand, BidOrder) ==> StoredAt(l.bids, hand.value.key) == hand.value.balance)
    && (Has(hand, ShortOrder) ==> left == [] || (m.feed.Some? && left[0].key.price.ratio < m.feed.value))
  }

  ghost predicate AsksDone(all: seq<Order>, left: seq<Order>, hand: Option<Order>, l: Ledger) {
    && Cut(all, left, hand, AskOrder)
    && (forall i: nat :: Passed(all, left, hand, AskOrder, i) ==> AskDone(l, all[i]))
    && (Has(hand, AskOrder) ==> StoredAt(l.asks, hand.value.key) == hand.value.balance)
  }

  ghost predicate DistinctKeys(s: seq<Order>) {
    forall i, j :: 0 <= i < j < |s| ==> s[i].key != s[j].key
  }

  // ---------- taking the next ----------

  lemma TakeFirst(all: seq<Order>, left: seq<Order>, kind: OrderType)
    requires Cut(all, left, None, kind) && left != [] && left[0].kind == kind
    ensures Cut(all, left[1..], Some(left[0]), kind)
  {
    assert all[|all| - |left|] == left[0];
    assert all[|all| - |left| + 1..] == left[1..];
  }

  /** The bid at hand has been used: it is one of those that are done. */
  lemma BidUsed(m: Market, all: seq<Order>, left: seq<Order>, hand: Option<Order>, l: Ledger)
    requires BidsDone(m, all, left, hand, l) && (hand.Some? ==> Quantity(hand.value) == 0)
    ensures BidsDone(m, all, left, None, l)
  {
    if Has(hand, BidOrder) {
      var p := |all| - |left| - 1;
      assert BidDone(l, all[p]) by {
        assert all[p].(balance := hand.value.balance) == hand.value;
      }
      assert forall i: nat :: Passed(all, left, None, BidOrder, i) ==> i == p || Passed(all, left, hand, BidOrder, i);
    }
  }

  /** Taking the next order passes none that was not. */
  lemma SamePassed(all: seq<Order>, left: seq<Order>, hand: Option<Order>, kind: OrderType)
    requires left != [] && |left| <= |all| && Has(hand, kind)
    ensures forall i: nat :: Passed(all, left[1..], hand, kind, i) <==> Passed(all, left, None, kind, i)
  {
  }

  /** The next bid of the list comes to hand. */
  lemma BidTaken(m: Market, all: seq<Order>, left: seq<Order>, l: Ledger)
    requires BidsDone(m, all, left, None, l) && left != [] && left[0].kind.BidOrder? && StoredAt(l.bids, left[0].key) == left[0].balance
    ensures BidsDone(m, all, left[1..], Some(left[0]), l)
  {
    TakeFirst(all, left, BidOrder);
    SamePassed(all, left, Some(left[0]), BidOrder);
  }

  lemma ShortTaken(m: Market, all: seq<Order>, left: seq<Order>, short: Order, l: Ledger)
    requires BidsDone(m, all, left, None, l) && short.kind.ShortOrder?
    requires left == [] || (m.feed.Some? && left[0].key.price.ratio < m.feed.value)
    ensures BidsDone(m, all, left, Some(short), l)
  {
    assert forall i: nat :: Passed(all, left, Some(short), BidOrder, i) <==> Passed(all, left, None, BidOrder, i);
  }

  lemma NextBidDone(m: Market, all: seq<Order>, e: Engine)
    requires BidsDone(m, all, e.bids, e.bid, e.book.l) && InSync(m, e)
    ensures BidsDone(m, all, NextBid(m, e).bids, NextBid(m, e).bid, e.book.l)
  {
    if !(e.bid.Some? && Quantity(e.bid.value) > 0) {
      BidUsed(m, all, e.bids, e.bid, e.book.l);
      var g := NextBid(m, e);
      if g.bids != e.bids {
        BidTaken(m, all, e.bids, e.book.l);
      } else if g.bid.Some? {
        ShortTaken(m, all, e.bids, g.bid.value, e.book.l);
      }
    }
  }

  lemma AskUsed(all: seq<Order>, left: seq<Order>, hand: Option<Order>, l: Ledger)
    requires AsksDone(all, left, hand, l) && (hand.Some? ==> hand.value.balance == 0)
    ensures AsksDone(all, left, None, l)
  {
    if Has(hand, AskOrder) {
      var p := |all| - |left| - 1;
      assert AskDone(l, all[p]) by {
        assert all[p].(balance := 0) == hand.value.(balance := 0);
      }
      assert forall i: nat :: Passed(all, left, None, AskOrder, i) ==> i == p || Passed(all, left, hand, AskOrder, i);
    }
  }

  lemma AskTaken(all: seq<Order>, left: seq<Order>, l: Ledger)
    requires AsksDone(all, left, None, l) && left != [] && left[0].kind.AskOrder? && StoredAt(l.asks, left[0].key) == left[0].balance
    ensures AsksDone(all, left[1..], Some(left[0]), l)
  {
    TakeFirst(all, left, AskOrder);
    SamePassed(all, left, Some(left[0]), AskOrder);
  }

  lemma CoverTaken(all: seq<Order>, left: seq<Order>, cover: Order, l: Ledger)
    requires AsksDone(all, left, None, l) && cover.kind.CoverOrder?
    ensures AsksDone(all, left, Some(cover), l)
  {
    assert forall i: nat :: Passed(all, left, Some(cover), AskOrder, i) <==> Passed(all, left, None, AskOrder, i);
  }

  lemma NextAskDone(m: Market, all: seq<Order>, e: Engine)
    requires AsksDone(all, e.asks, e.ask, e.book.l) && InSync(m, e)
    ensures AsksDone(all, NextAsk(m, e).asks, NextAsk(m, e).ask, e.book.l)
  {
    if !(e.ask.Some? && e.ask.value.balance > 0) {
      AskUsed(all, e.asks, e.ask, e.book.l);
      var g := NextAsk(m, e);
      if g.asks != e.asks {
        AskTaken(all, e.asks, e.book.l);
      } else if g.ask.Some? {
        CoverTaken(all, e.asks, g.ask.value, e.book.l);
      }
    }
  }

  /** The engine with both lists so far worked off. */
  ghost predicate Cleared(m: Market, start: Engine, e: Engine) {
    BidsDone(m, start.bids, e.bids, e.bid, e.book.l) && AsksDone(start.asks, e.asks, e.ask, e.book.l)
  }

  lemma NextBidLeaves(m: Market, e: Engine)
    ensures var b := NextBid(m, e); b.asks == e.asks && b.ask == e.ask && b.book == e.book
  {
  }

  lemma NextAskLeaves(m: Market, e: Engine)
    ensures var a := NextAsk(m, e); a.bids == e.bids && a.bid == e.bid && a.book == e.book
  {
  }

  lemma NextBidCleared(m: Market, start: Engine, e: Engine)
    requires InSync(m, e) && Cleared(m, start, e)
    ensures Cleared(m, start, NextBid(m, e))
  {
    NextBidDone(m, start.bids, e);
    NextBidLeaves(m, e);
  }

  lemma NextAskCleared(m: Market, start: Engine, e: Engine)
    requires InSync(m, e) && Cleared(m, start, e)
    ensures Cleared(m, start, NextAsk(m, e))
  {
    NextAskDone(m, start.asks, e);
    NextAskLeaves(m, e);
  }

  lemma NextPairCleared(m: Market, start: Engine, e: Engine)
    requires InSync(m, e) && Cleared(m, start, e)
    ensures Cleared(m, start, NextPair(m, e))
  {
    NextBidCleared(m, start, e);
    if NextBid(m, e).bid.Some? {
      NextBidSync(m, e);
      NextAskCleared(m, start, NextBid(m, e));
    }
  }

  // ---------- a round ----------

  /** A fill changes the bids and asks of the ledger only for the plain orders at hand. */
  lemma FillCleared(m: Market, start: Engine, e: Engine, f: Fill, n: Book)
    requires Paired(e) && Cleared(m, start, e) && DistinctKeys(start.bids) && DistinctKeys(start.asks)
    requires Meets(m, e.book.l, e.bid.value, e.ask.value) && Affordable(e.bid.value, e.ask.value, f)
    requires PayBidSide(m, e.book, e.bid.value, e.ask.value, f) == Some(n)
    ensures var bid, ask := e.bid.value, e.ask.value;
      Cleared(m, start, e.(book := PayAskSide(m, n, bid, ask, f), bid := Some(BidAfter(m, bid, ask, f)), ask := Some(AskAfter(m, bid, ask, f))))
  {
    var bid, ask := e.bid.value, e.ask.value;
    BidSideStores(m, e.book, bid, ask, f);
    AskSideStores(m, n, bid, ask, f);
    var l := PayAskSide(m, n, bid, ask, f).l;
    StoredBids(m, start.bids, e.bids, bid, BidAfter(m, bid, ask, f), e.book.l, l);
    StoredAsks(start.asks, e.asks, ask, AskAfter(m, bid, ask, f), e.book.l, l);
  }

  /** Storing the bid at hand leaves those that are done. */
  lemma StoredBids(m: Market, all: seq<Order>, left: seq<Order>, hand: Order, after: Order, l: Ledger, n: Ledger)
    requires BidsDone(m, all, left, Some(hand), l) && DistinctKeys(all) && after == hand.(balance := after.balance)
    requires n.bids == if hand.kind.BidOrder? then l.bids[hand.key := after.balance] else l.bids
    ensures BidsDone(m, all, left, Some(after), n)
  {
    forall i: nat | Passed(all, left, Some(after), BidOrder, i) ensures BidDone(n, all[i]) {
      assert Passed(all, left, Some(hand), BidOrder, i);
      if hand.kind.BidOrder? {
        assert all[|all| - |left| - 1].(balance := 0).key == hand.key;
      }
    }
  }

  lemma StoredAsks(all: seq<Order>, left: seq<Order>, hand: Order, after: Order, l: Ledger, n: Ledger)
    requires AsksDone(all, left, Some(hand), l) && DistinctKeys(all) && after.kind == hand.kind
    requires hand.kind.AskOrder? ==> after == hand.(balance := after.balance)
    requires n.asks == if hand.kind.AskOrder? then l.asks[hand.key := after.balance] else l.asks
    ensures AsksDone(all, left, Some(after), n)
  {
    forall i: nat | Passed(all, left, Some(after), AskOrder, i) ensures AskDone(n, all[i]) {
      assert Passed(all, left, Some(hand), AskOrder, i);
      if hand.kind.AskOrder? {
        assert all[|all| - |left| - 1].(balance := 0).key == hand.key;
      }
    }
  }

  lemma MatchCleared(m: Market, start: Engine, e: Engine)
    requires Paired(e) && Cleared(m, start, e) && DistinctKeys(start.bids) && DistinctKeys(start.asks)
    requires Meets(m, e.book.l, e.bid.value, e.ask.value) && Match(m, e).Continue?
    ensures Cleared(m, start, Match(m, e).next)
  {
    var bid, ask := e.bid.value, e.ask.value;
    var d := Decide(m, bid, ask, e.book.quote.IsMarketIssued());
    if d.Trade? {
      var f := FillOf(m, bid, ask, d.bidRatio, d.askRatio);
      FillCleared(m, start, e, f, PayBidSide(m, e.book, bid, ask, f).value);
    }
  }

  // ---------- where a run ends ----------

  /** The bid can still buy a unit, the ask is not used up, and the bid is no lower. */
  predicate Crosses(l: Ledger, bid: Order, ask: Order) {
    !BidDone(l, bid) && !AskDone(l, ask) && bid.key.price.ratio >= ask.key.price.ratio
  }

  ghost predicate Uncrossed(start: Engine, l: Ledger) {
    forall i, j :: 0 <= i < |start.bids| && 0 <= j < |start.asks| ==> !Crosses(l, start.bids[i], start.asks[j])
  }

  lemma NoBidLeft(m: Market, all: seq<Order>, l: Ledger)
    requires BidsDone(m, all, [], None, l)
    ensures forall i :: 0 <= i < |all| ==> BidDone(l, all[i])
  {
    forall i | 0 <= i < |all| ensures BidDone(l, all[i]) {
      assert Passed(all, [], None, BidOrder, i);
    }
  }

  lemma NoAskLeft(all: seq<Order>, l: Ledger)
    requires AsksDone(all, [], None, l)
    ensures forall i :: 0 <= i < |all| ==> AskDone(l, all[i])
  {
    forall i | 0 <= i < |all| ensures AskDone(l, all[i]) {
      assert Passed(all, [], None, AskOrder, i);
    }
  }

  /** The loop stops at a pair that does not meet: everything after it is further apart. */
  lemma StoppedShort(m: Market, start: Engine, e: Engine)
    requires Paired(e) && Cleared(m, start, e) && BestFirst(start.bids, start.asks)
    requires Decide(m, e.bid.value, e.ask.value, e.book.quote.IsMarketIssued()).Stop?
    requires (e.bid.value.kind.BidOrder? || e.bid.value.kind.ShortOrder?) && (e.ask.value.kind.AskOrder? || e.ask.value.kind.CoverOrder?)
    ensures Uncrossed(start, e.book.l)
  {
    forall i, j | 0 <= i < |start.bids| && 0 <= j < |start.asks| ensures !Crosses(e.book.l, start.bids[i], start.asks[j]) {
      if !BidDone(e.book.l, start.bids[i]) && !AskDone(e.book.l, start.asks[j]) {
        assert !Passed(start.bids, e.bids, e.bid, BidOrder, i) && !Passed(start.asks, e.asks, e.ask, AskOrder, j);
        LaterAsk(start, e, j);
        LaterBid(m, start, e, i);
      }
    }
  }

  lemma LaterAsk(start: Engine, e: Engine, j: nat)
    requires AsksDone(start.asks, e.asks, e.ask, e.book.l) && BestFirst(start.bids, start.asks) && Has(e.ask, AskOrder)
    requires j < |start.asks| && !Passed(start.asks, e.asks, e.ask, AskOrder, j)
    ensures e.ask.value.key.price.ratio <= start.asks[j].key.price.ratio
  {
    var p := |start.asks| - |e.asks| - 1;
    assert start.asks[p].(balance := 0) == e.ask.value.(balance := 0);
    assert start.asks[p].key == e.ask.value.key;
  }

  /** A bid still to come is no higher than the bid at hand, or than the feed if a short is. */
  lemma LaterBid(m: Market, start: Engine, e: Engine, i: nat)
    requires BidsDone(m, start.bids, e.bids, e.bid, e.book.l) && BestFirst(start.bids, start.asks) && (Has(e.bid, BidOrder) || Has(e.bid, ShortOrder))
    requires i < |start.bids| && !Passed(start.bids, e.bids, e.bid, BidOrder, i)
    ensures Has(e.bid, BidOrder) ==> start.bids[i].key.price.ratio <= e.bid.value.key.price.ratio
    ensures Has(e.bid, ShortOrder) ==> m.feed.Some? && start.bids[i].key.price.ratio < m.feed.value
  {
    var p := |start.bids| - |e.bids|;
    if Has(e.bid, BidOrder) {
      assert start.bids[p - 1].(balance := 0) == e.bid.value.(balance := 0);
      assert start.bids[p - 1].key == e.bid.value.key;
    } else {
      assert start.bids[p] == e.bids[0];
    }
  }

  /** A pair cannot be had: one side has run out. */
  lemma RunsOut(m: Market, e: Engine)
    requires !Paired(NextPair(m, e))
    ensures var f := NextPair(m, e); (f.bid.None? && f.bids == []) || (f.ask.None? && f.asks == [])
  {
  }

  lemma OutOfOrders(m: Market, start: Engine, f: Engine)
    requires Cleared(m, start, f) && ((f.bid.None? && f.bids == []) || (f.ask.None? && f.asks == []))
    ensures Uncrossed(start, f.book.l)
  {
    if f.bid.None? && f.bids == [] {
      NoBidLeft(m, start.bids, f.book.l);
    } else {
      NoAskLeft(start.asks, f.book.l);
    }
  }

  lemma HaltStops(m: Market, f: Engine)
    requires Paired(f) && Match(m, f).Halt?
    ensures Decide(m, f.bid.value, f.ask.value, f.book.quote.IsMarketIssued()).Stop?
    ensures Match(m, f).end == f
  {
  }

  lemma HaltUncrossed(m: Market, start: Engine, f: Engine)
    requires Paired(f) && Match(m, f).Halt? && Cleared(m, start, f) && BestFirst(start.bids, start.asks)
    requires Meets(m, f.book.l, f.bid.value, f.ask.value)
    ensures Uncrossed(start, f.book.l)
  {
    HaltStops(m, f);
    StoppedShort(m, start, f);
  }

  lemma RoundCleared(m: Market, start: Engine, e: Engine, f: Engine, g: Engine)
    requires InSync(m, e) && Cleared(m, start, e) && DistinctKeys(start.bids) && DistinctKeys(start.asks)
    requires f == NextPair(m, e) && Paired(f) && Match(m, f) == Continue(g)
    ensures InSync(m, g) && Cleared(m, start, g)
  {
    NextPairCleared(m, start, e);
    NextPairSync(m, e);
    MatchSync(m, f);
    MatchCleared(m, start, f);
  }

  lemma EndsUncrossed(m: Market, start: Engine, e: Engine, f: Engine)
    requires InSync(m, e) && Cleared(m, start, e) && BestFirst(start.bids, start.asks)
    requires f == NextPair(m, e) && (!Paired(f) || Match(m, f).Halt?)
    ensures Uncrossed(start, f.book.l)
  {
    NextPairCleared(m, start, e);
    if Paired(f) {
      NextPairSync(m, e);
      HaltUncrossed(m, start, f);
    } else {
      RunsOut(m, e);
      OutOfOrders(m, start, f);
    }
  }

  lemma RunEnds(m: Market, e: Engine, last: Option<nat>, f: Engine)
    requires last.Some? ==> last.value == e.filled
    requires f == NextPair(m, e) && (!Paired(f) || Match(m, f).Halt?) && Run(m, e, last).Some?
    ensures Run(m, e, last) == Some(f)
  {
  }

  lemma {:induction false} RunUncrosses(m: Market, start: Engine, e: Engine, last: Option<nat>)
    requires InSync(m, e) && (last.Some? ==> last.value == e.filled) && Run(m, e, last).Some?
    requires Cleared(m, start, e) && BestFirst(start.bids, start.asks) && DistinctKeys(start.bids) && DistinctKeys(start.asks)
    ensures Uncrossed(start, Run(m, e, last).value.book.l)
    decreases Orders(e) + if last.None? then 1 else 0
  {
    var f := NextPair(m, e);
    if !Paired(f) || Match(m, f).Halt? {
      RunEnds(m, e, last, f);
      EndsUncrossed(m, start, e, f);
    } else {
      RunFails(m, e, last, f);
      var g := Match(m, f).next;
      RunStep(m, e, last, f, g);
      RoundCleared(m, start, e, f, g);
      RunUncrosses(m, start, g, Some(f.filled));
    }
  }

  lemma RunFails(m: Market, e: Engine, last: Option<nat>, f: Engine)
    requires last.Some? ==> last.value == e.filled
    requires f == NextPair(m, e) && Paired(f) && Run(m, e, last).Some?
    ensures last != Some(f.filled) && !Match(m, f).Fail?
  {
  }

  lemma PrimedCleared(m: Market, e: Engine)
    requires Fresh(e) && InSync(m, e)
    ensures Cleared(m, e, Primed(m, e))
  {
    assert Cleared(m, e, e);
    NextBidCleared(m, e, e);
    NextBidSync(m, e);
    NextAskCleared(m, e, NextBid(m, e));
  }

  lemma KeysOnce(m: Market, l: Ledger, s: seq<Order>, kind: OrderType, hand: Option<Order>)
    requires InStep(m, l, s, kind, hand)
    ensures DistinctKeys(s)
  {
  }

  lemma SameOrdersUncrossed(start: Engine, l: Ledger, n: Ledger)
    requires Uncrossed(start, l) && n.bids == l.bids && n.asks == l.asks
    ensures Uncrossed(start, n)
  {
    forall i, j | 0 <= i < |start.bids| && 0 <= j < |start.asks| ensures !Crosses(n, start.bids[i], start.asks[j]) {
      assert !Crosses(l, start.bids[i], start.asks[j]);
    }
  }

  /** A market's run that gets to its end leaves no bid that can still buy a unit and no ask at crossing prices. */
  lemma ExecuteUncrosses(m: Market, e: Engine)
    requires Ready(m, e) && BestFirst(e.bids, e.asks) && Execute(m, e).Some?
    ensures Uncrossed(e, Execute(m, e).value)
  {
    KeysOnce(m, e.book.l, e.bids, BidOrder, e.bid);
    KeysOnce(m, e.book.l, e.asks, AskOrder, e.ask);
    PrimedCleared(m, e);
    PrimedSync(m, e);
    RunUncrosses(m, e, Primed(m, e), None);
    SameOrdersUncrossed(e, Run(m, Primed(m, e), None).value.book.l, Execute(m, e).value);
  }
}
