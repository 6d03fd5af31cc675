/** market_engine: the object that runs one market in one block. It works on a pending state of its own
    and on its own copies of the two asset records, and hands them over only when it gets to the end. */
module MarketEngines {
  import opened Options
  import opened Prices
  import opened Ledgers
  import opened Matching
  import opened Settlement
  import opened Backing

  class MarketEngine {
    const market: Market
    /** Whether the market has had a feed before. */
    const everFed: bool
    var prior: Ledger
    var pending: Ledger
    var quoteAsset: Asset
    var baseAsset: Asset
    var bidItr: seq<Order>
    var askItr: seq<Order>
    var shortItr: seq<Order>
    var collateralItr: seq<Order>
    var currentBid: Option<Order>
    var currentAsk: Option<Order>
    var ordersFilled: nat

    ghost function Value(): Engine
      reads this
    {
      Engine(CurrentBook(), bidItr, askItr, shortItr, collateralItr, currentBid, currentAsk, ordersFilled)
    }

    function CurrentBook(): Book
      reads this
    {
      Book(pending, quoteAsset, baseAsset)
    }

    constructor (market: Market, everFed: bool, prior: Ledger, bids: seq<Order>, asks: seq<Order>, shorts: seq<Order>, covers: seq<Order>)
      ensures this.market == market && this.everFed == everFed && this.prior == prior && pending == prior
      ensures bidItr == bids && askItr == asks && shortItr == shorts && collateralItr == covers
      ensures Fresh(Value()) && ordersFilled == 0
    {
      this.market, this.everFed, this.prior, pending := market, everFed, prior, prior;
      quoteAsset, baseAsset := Asset(0, 0, 0, 0), Asset(0, 0, 0, 0);
      bidItr, askItr, shortItr, collateralItr := bids, asks, shorts, covers;
      currentBid, currentAsk, ordersFilled := None, None, 0;
    }

    // ---------- the next orders ----------

    method GetNextShort() returns (ok: bool)
      modifies this
      ensures prior == old(prior) && Value() == NextShort(old(Value())) && (ok <==> old(shortItr) != [])
    {
      ok := shortItr != [];
      if ok {
        currentBid := Some(shortItr[0]);
        shortItr := shortItr[1..];
      }
    }

    method GetNextBid() returns (ok: bool)
      modifies this
      ensures prior == old(prior) && Value() == NextBid(market, old(Value())) && ok == currentBid.Some?
    {
      if currentBid.Some? && Quantity(currentBid.value) > 0 {
        return true;
      }
      ordersFilled := ordersFilled + 1;
      currentBid := None;
      if bidItr != [] {
        var bid := bidItr[0];
        if market.feed.Some? && bid.key.price.ratio < market.feed.value {
          var short := GetNextShort();
          if short {
            return true;
          }
        }
        currentBid := Some(bid);
        bidItr := bidItr[1..];
        return true;
      }
      ok := GetNextShort();
    }

    method GetNextAsk() returns (ok: bool)
      modifies this
      ensures prior == old(prior) && Value() == NextAsk(market, old(Value())) && ok == currentAsk.Some?
    {
      if currentAsk.Some? && currentAsk.value.balance > 0 {
        return true;
      }
      currentAsk := None;
      ordersFilled := ordersFilled + 1;
      if currentBid.Some? && collateralItr != [] {
        var cover := collateralItr[0];
        if (market.feed.Some? && cover.key.price.ratio > market.feed.value) || cover.expiration <= market.now {
          currentAsk := Some(cover);
          collateralItr := collateralItr[1..];
          return true;
        }
        collateralItr := [];
      }
      if askItr != [] {
        currentAsk := Some(askItr[0]);
        askItr := askItr[1..];
      }
      ok := currentAsk.Some?;
    }

    method GetNextPair() returns (ok: bool)
      modifies this
      ensures prior == old(prior) && Value() == NextPair(market, old(Value())) && ok == Paired(Value())
    {
      ok := GetNextBid();
      if ok {
        ok := GetNextAsk();
      }
    }

    // ---------- payments ----------

    method PayCurrentBid(f: Fill)
      requires currentBid.Some? && f.bidPaid <= currentBid.value.balance
      modifies this`pending, this`quoteAsset, this`currentBid
      ensures CurrentBook() == PayBid(old(CurrentBook()), market, old(currentBid).value, f.bidPaid, f.bidReceived)
      ensures currentBid == Some(old(currentBid).value.(balance := BidLeft(old(currentBid).value, f.bidPaid)))
    {
      var bid := currentBid.value;
      bid := bid.(balance := bid.balance - f.bidPaid);
      pending := PayOut(pending, market, bid.key.owner, market.base, f.bidReceived);
      if Quantity(bid) == 0 {
        quoteAsset := quoteAsset.(fees := quoteAsset.fees + bid.balance);
        bid := bid.(balance := 0);
      }
      pending := pending.(bids := pending.bids[bid.key := bid.balance]);
      currentBid := Some(bid);
    }

    method PayCurrentAsk(f: Fill, onQuote: bool)
      requires currentAsk.Some? && f.askPaid <= currentAsk.value.balance
      modifies this`pending, this`quoteAsset, this`baseAsset, this`currentAsk
      ensures CurrentBook() == PayAsk(old(CurrentBook()), market, old(currentAsk).value, f.askPaid, f.askReceived, onQuote)
      ensures currentAsk == Some(old(currentAsk).value.(balance := AskLeft(old(currentAsk).value, f.askPaid)))
    {
      var ask := currentAsk.value;
      ask := ask.(balance := ask.balance - f.askPaid);
      pending := PayOut(pending, market, ask.key.owner, market.quote, f.askReceived);
      if ToQuote(ask.balance, ask.key.price.ratio) == 0 {
        if onQuote {
          quoteAsset := quoteAsset.(fees := quoteAsset.fees + ask.balance);
        } else {
          baseAsset := baseAsset.(fees := baseAsset.fees + ask.balance);
        }
        ask := ask.(balance := 0);
      }
      pending := pending.(asks := pending.asks[ask.key := ask.balance]);
      currentAsk := Some(ask);
    }

    method PayCurrentShort(f: Fill) returns (ok: bool)
      requires currentBid.Some? && f.shortCollateral <= currentBid.value.balance
      modifies this`pending, this`quoteAsset, this`currentBid
      ensures ok <==> PayShort(old(CurrentBook()), market, old(currentBid).value, f).Some?
      ensures ok ==> CurrentBook() == PayShort(old(CurrentBook()), market, old(currentBid).value, f).value
      ensures ok ==> currentBid == Some(old(currentBid).value.(balance := old(currentBid).value.balance - ShortGives(market, old(currentBid).value, f.shortCollateral)))
    {
      var short, given := currentBid.value, f.shortCollateral;
      if short.balance - given < market.dust {
        if short.balance > given {
          given := given + (short.balance - given);
        }
      }
      var left := short.(balance := short.balance - given);
      if f.bidPaid == 0 {
        currentBid := Some(left);
        return true;
      }
      var key := CoverKeyOf(market, short, f.bidPaid, given + f.askPaid);
      if key.None? {
        return false;
      }
      quoteAsset := quoteAsset.(supply := quoteAsset.supply + f.bidPaid);
      var cover := CollateralAt(pending, key.value);
      cover := cover.(collateral := cover.collateral + given + f.askPaid);
      cover := cover.(payoff := cover.payoff + f.bidPaid);
      cover := cover.(interest := short.key.price, expiration := market.now + market.shortPeriod);
      pending := pending.(collateral := pending.collateral[key.value := cover]);
      pending := pending.(shorts := pending.shorts[short.key := left.balance]);
      currentBid := Some(left);
      ok := true;
    }

    /** The fee goes with the transaction, and is booked after it is accepted. */
    method PayCurrentCover(f: Fill) returns (ok: bool, fee: nat)
      requires currentAsk.Some? && currentAsk.value.kind.CoverOrder? && f.askPaid <= currentAsk.value.collateral
      modifies this`pending, this`quoteAsset, this`currentAsk
      ensures ok <==> RateOrdered(old(currentAsk).value)
      ensures ok ==> var ask, principal := old(currentAsk).value, PaidPrincipal(market, old(currentAsk).value, f);
        && AddBaseFees(CurrentBook(), fee) == PayCover(old(CurrentBook()), market, ask, f.askPaid, f.askReceived, principal)
        && var owed := ask.balance - principal - Underwater(ask, f.askPaid, principal);
           currentAsk == Some(ask.(balance := owed, collateral := if owed == 0 then 0 else ask.collateral - f.askPaid))
    {
      ok, fee := true, 0;
      var ask := currentAsk.value;
      if ask.interest.quote <= ask.interest.base {
        return false, 0;
      }
      var principal := PaidPrincipal(market, ask, f);
      var cover := ask.(balance := ask.balance - principal, collateral := ask.collateral - f.askPaid);
      quoteAsset := quoteAsset.(supply := quoteAsset.supply - principal);
      quoteAsset := quoteAsset.(fees := quoteAsset.fees + (f.askReceived - principal));
      if cover.collateral == 0 {
        quoteAsset := quoteAsset.(fees := quoteAsset.fees - cover.balance);
        cover := cover.(balance := 0);
      }
      if cover.balance == 0 && cover.collateral > 0 {
        fee := CallFee(market, ask, cover.collateral);
        pending := PayOut(pending, market, ask.key.owner, market.base, cover.collateral - fee);
        cover := cover.(collateral := 0);
      }
      pending := StoreCover(pending, ask, cover.collateral, cover.balance);
      currentAsk := Some(cover);
    }

    /** The checks on a transaction before it is recorded. */
    method PushMarketTransaction(f: Fill, fees: int) returns (ok: bool)
      ensures ok <==> f.bidPaid >= f.askReceived && f.askPaid >= f.bidReceived && fees >= 0
    {
      ok := f.bidPaid >= f.askReceived && f.askPaid >= f.bidReceived && fees >= 0;
    }

    /** One fill of the orders at hand. The ask's dust goes to the quote record where a short buys. */
    method Fill(bidRatio: nat, askRatio: nat) returns (ok: bool)
      requires currentBid.Some? && currentAsk.Some? && Meets(market, pending, currentBid.value, currentAsk.value)
      requires Decide(market, currentBid.value, currentAsk.value, quoteAsset.IsMarketIssued()) == Trade(bidRatio, askRatio)
      modifies this
      ensures prior == old(prior)
      ensures var f := FillOf(market, old(currentBid).value, old(currentAsk).value, bidRatio, askRatio);
        && (ok <==> Exchange(market, old(Value()), f).Continue?)
        && (ok ==> Value() == Exchange(market, old(Value()), f).next)
    {
      var f := FillOf(market, currentBid.value, currentAsk.value, bidRatio, askRatio);
      TermsHold(market, Value(), bidRatio, askRatio);
      ok := Pay(f);
    }

    method Pay(f: Fill) returns (ok: bool)
      requires currentBid.Some? && currentAsk.Some? && Meets(market, pending, currentBid.value, currentAsk.value)
      requires Affordable(currentBid.value, currentAsk.value, f)
      requires f.askReceived == f.bidPaid || (currentBid.value.kind.BidOrder? && currentAsk.value.kind.AskOrder?)
      modifies this
      ensures prior == old(prior)
      ensures ok <==> Exchange(market, old(Value()), f).Continue?
      ensures ok ==> Value() == Exchange(market, old(Value()), f).next
    {
      var bid := currentBid.value;
      ok := PayBidder(f, currentAsk.value);
      if ok {
        ok := PayAsker(f, bid);
      }
    }

    method PayBidder(f: Fill, ask: Order) returns (ok: bool)
      requires currentBid.Some? && Affordable(currentBid.value, ask, f)
      requires currentBid.value.kind.BidOrder? || currentBid.value.kind.ShortOrder?
      modifies this`pending, this`quoteAsset, this`currentBid
      ensures ok <==> PayBidSide(market, old(CurrentBook()), old(currentBid).value, ask, f).Some?
      ensures ok ==> CurrentBook() == PayBidSide(market, old(CurrentBook()), old(currentBid).value, ask, f).value
      ensures ok ==> currentBid == Some(BidAfter(market, old(currentBid).value, ask, f))
    {
      if currentBid.value.kind.ShortOrder? {
        ok := PayCurrentShort(f);
      } else {
        PayCurrentBid(f);
        ok := true;
      }
    }

    method PayAsker(f: Fill, bid: Order) returns (ok: bool)
      requires currentAsk.Some? && Affordable(bid, currentAsk.value, f)
      requires currentAsk.value.kind.CoverOrder? ==> f.askReceived == f.bidPaid
      modifies this`pending, this`quoteAsset, this`baseAsset, this`currentAsk
      ensures ok <==> RateOrdered(old(currentAsk).value)
      ensures ok ==> CurrentBook() == PayAskSide(market, old(CurrentBook()), bid, old(currentAsk).value, f)
      ensures ok ==> currentAsk == Some(AskAfter(market, bid, old(currentAsk).value, f))
    {
      var accepted;
      if currentAsk.value.kind.CoverOrder? {
        var fee;
        ok, fee := PayCurrentCover(f);
        if !ok {
          return;
        }
        accepted := PushMarketTransaction(f, fee);
        baseAsset := baseAsset.(fees := baseAsset.fees + fee);
      } else {
        PayCurrentAsk(f, bid.kind.ShortOrder?);
        accepted := PushMarketTransaction(f, f.bidPaid - f.askReceived);
        quoteAsset := quoteAsset.(fees := quoteAsset.fees + (f.bidPaid - f.askReceived));
      }
      assert accepted;
      ok := true;
    }

    /** The whole run. The prior state changes only when the run gets to its end, and then to what the
        matching leaves. */
    method Execute() returns (ok: bool)
      requires pending == prior && Fresh(Value()) && ordersFilled == 0
      requires market.quote in prior.assets && market.base in prior.assets ==>
        Ready(market, Value().(book := Book(prior, prior.assets[market.quote], prior.assets[market.base])))
      modifies this
      ensures ok <==>
        && market.quote in old(prior).assets && market.base in old(prior).assets
        && (old(prior).assets[market.quote].IsMarketIssued() && !everFed ==> market.feed.Some?)
        && Backing.Execute(market, old(Value()).(book := Book(old(prior), old(prior).assets[market.quote], old(prior).assets[market.base]))).Some?
      ensures prior == if !ok then old(prior) else
        Backing.Execute(market, old(Value()).(book := Book(old(prior), old(prior).assets[market.quote], old(prior).assets[market.base]))).value
    {
      if market.quote !in pending.assets || market.base !in pending.assets {
        return false;
      }
      quoteAsset, baseAsset := pending.assets[market.quote], pending.assets[market.base];
      if quoteAsset.IsMarketIssued() && !everFed && market.feed.None? {
        return false;
      }
      ghost var start := Value();
      var primed := GetNextBid();
      primed := GetNextAsk();
      PrimedSync(market, start);
      ok := MatchOrders();
      if ok {
        pending := pending.(assets := pending.assets[market.quote := quoteAsset]);
        pending := pending.(assets := pending.assets[market.base := baseAsset]);
        prior := pending;
      }
    }

    method MatchOrders() returns (ok: bool)
      requires InSync(market, Value())
      modifies this
      ensures prior == old(prior)
      ensures ok <==> Run(market, old(Value()), None).Some?
      ensures ok ==> CurrentBook() == Run(market, old(Value()), None).value.book
    {
      var lastOrdersFilled: Option<nat> := None;
      var going := true;
      while going
        invariant prior == old(prior)
        invariant going ==> InSync(market, Value()) && (lastOrdersFilled.Some? ==> lastOrdersFilled.value == ordersFilled)
        invariant going ==> Run(market, Value(), lastOrdersFilled) == Run(market, old(Value()), None)
        invariant !going ==> Run(market, old(Value()), None).Some? && CurrentBook() == Run(market, old(Value()), None).value.book
        decreases going, Orders(Value()) + if lastOrdersFilled.None? then 1 else 0
      {
        ghost var e := Value();
        NextPairTakes(market, e);
        NextPairSync(market, e);
        var paired := GetNextPair();
        if !paired {
          going := false;
        } else {
          if lastOrdersFilled == Some(ordersFilled) {
            return false;
          }
          lastOrdersFilled := Some(ordersFilled);
          ok, going := MatchCurrent();
          if !ok {
            return;
          }
        }
      }
      ok := true;
    }

    /** One round, with both orders at hand. */
    method MatchCurrent() returns (ok: bool, going: bool)
      requires Paired(Value()) && InSync(market, Value()) && Meets(market, pending, currentBid.value, currentAsk.value)
      modifies this
      ensures prior == old(prior)
      ensures ok <==> !Match(market, old(Value())).Fail?
      ensures ok ==> (going <==> Match(market, old(Value())).Continue?)
      ensures ok ==> Value() == (if going then Match(market, old(Value())).next else Match(market, old(Value())).end)
      ensures ok && going ==> InSync(market, Value()) && Orders(Value()) == Orders(old(Value())) && ordersFilled == old(ordersFilled)
    {
      MatchSync(market, Value());
      if Match(market, Value()).Continue? {
        MatchTakesNone(market, Value());
      }
      ok, going := true, true;
      match Decide(market, currentBid.value, currentAsk.value, quoteAsset.IsMarketIssued()) {
        case DropBid => currentBid := None;
        case DropAsk => currentAsk := None;
        case Stop => going := false;
        case Throw => ok := false;
        case Trade(bidRatio, askRatio) => ok := Fill(bidRatio, askRatio);
      }
    }
  }
}
