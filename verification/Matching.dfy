/** The order matching of one market: which orders meet, on what terms, and what each of them pays. */
module Matching {
  import opened Options
  import opened Arithmetic
  import opened Prices
  import opened Ledgers

  /** One market in one block. `dust` is a hundredth of a whole unit of the base asset. */
  datatype Market = Market(quote: AssetId, base: AssetId, feed: Option<Positive>, now: nat, shortPeriod: int, dust: int)

  datatype OrderType = BidOrder | AskOrder | ShortOrder | CoverOrder

  /** An order as the engine holds it. A cover's balance is what it still owes; a short's price is its
      interest rate, and its limit, if it has one, a ratio in its own market. */
  datatype Order = Order(kind: OrderType, key: OrderKey, balance: nat, limit: Option<nat>, collateral: nat, interest: Price, expiration: int)

  /** The pending state, and the engine's own copies of the market's two asset records. */
  datatype Book = Book(l: Ledger, quote: Asset, base: Asset)

  /** The book and what is left of the four iterators over it, each in the order it is taken. */
  datatype Engine = Engine(
    book: Book,
    bids: seq<Order>, asks: seq<Order>, shorts: seq<Order>, covers: seq<Order>,
    bid: Option<Order>, ask: Option<Order>,
    filled: nat)

  // ---------- the next orders ----------

  /** What a bid buys or a short offers, in the base asset. */
  function Quantity(o: Order): nat {
    if o.kind.BidOrder? then if o.key.price.ratio == 0 then 0 else ToBase(o.balance, o.key.price.ratio)
    else o.balance
  }

  function NextShort(e: Engine): Engine {
    if e.shorts == [] then e else e.(shorts := e.shorts[1..], bid := Some(e.shorts[0]))
  }

  /** Shorts come before bids below the feed. */
  function NextBid(m: Market, e: Engine): Engine {
    if e.bid.Some? && Quantity(e.bid.value) > 0 then e
    else
      var f := e.(filled := e.filled + 1, bid := None);
      if f.bids == [] || (m.feed.Some? && f.bids[0].key.price.ratio < m.feed.value && f.shorts != []) then NextShort(f)
      else f.(bids := f.bids[1..], bid := Some(f.bids[0]))
  }

  predicate Callable(m: Market, o: Order) {
    (m.feed.Some? && o.key.price.ratio > m.feed.value) || o.expiration <= m.now
  }

  /** Covers that are called come before asks; the first that is not ends the covers. */
  function NextAsk(m: Market, e: Engine): Engine {
    if e.ask.Some? && e.ask.value.balance > 0 then e
    else
      var f := e.(filled := e.filled + 1, ask := None);
      if f.bid.Some? && f.covers != [] && Callable(m, f.covers[0]) then f.(covers := f.covers[1..], ask := Some(f.covers[0]))
      else
        var g := if f.bid.Some? then f.(covers := []) else f;
        if g.asks == [] then g else g.(asks := g.asks[1..], ask := Some(g.asks[0]))
  }

  // ---------- the terms ----------

  datatype Decision = DropBid | DropAsk | Stop | Throw | Trade(bidRatio: nat, askRatio: nat)

  /** Whether a bid and an ask meet, and the ratios they trade at. */
  function Decide(m: Market, bid: Order, ask: Order, marketIssued: bool): Decision {
    if bid.kind.ShortOrder? && !marketIssued then Throw
    else if bid.kind.ShortOrder? && (m.feed.None? || (bid.limit.Some? && bid.limit.value < ask.key.price.ratio)) then DropBid
    else
      var bidRatio := if bid.kind.ShortOrder? then
                        if bid.limit.Some? then Min(bid.limit.value, m.feed.value) else m.feed.value
                      else bid.key.price.ratio;
      if ask.kind.CoverOrder? then
        if !marketIssued then Throw
        else if m.feed.None? || (ask.key.price.ratio < bidRatio && ask.expiration > m.now) || bidRatio < m.feed.value * 9 / 10 then DropAsk
        else Trade(bidRatio, bidRatio)
      else if bidRatio < ask.key.price.ratio then Stop
      else Trade(bidRatio, ask.key.price.ratio)
  }

  /** Nobody trades past what they asked for: a bid at its price, an ask at its price and no higher than
      the bid's; a short no higher than the feed or its limit; a cover no lower than nine tenths of the
      feed, and only once it is called by the bid or its term is over. */
  lemma TermsRespectLimits(m: Market, bid: Order, ask: Order, marketIssued: bool)
    requires Decide(m, bid, ask, marketIssued).Trade?
    ensures var d := Decide(m, bid, ask, marketIssued);
      && d.askRatio <= d.bidRatio
      && (!bid.kind.ShortOrder? ==> d.bidRatio == bid.key.price.ratio)
      && (!ask.kind.CoverOrder? ==> d.askRatio == ask.key.price.ratio)
      && (bid.kind.ShortOrder? ==> m.feed.Some? && d.bidRatio <= m.feed.value && (bid.limit.Some? ==> d.bidRatio <= bid.limit.value))
      && (ask.kind.CoverOrder? ==> m.feed.Some? && d.askRatio == d.bidRatio >= m.feed.value * 9 / 10)
      && (ask.kind.CoverOrder? ==> d.bidRatio <= ask.key.price.ratio || ask.expiration <= m.now)
  {
  }

  /** And whoever meets trades: a bid and an ask exactly when the bid is no lower; a short exactly when neither the feed
      nor its limit is below the ask; and with a cover, which its limit lets it meet, exactly when the cover is called by
      the bid or its term is over, and the bid is no lower than nine tenths of the feed. */
  lemma MeetWhen(m: Market, bid: Order, ask: Order)
    requires bid.kind.BidOrder? || bid.kind.ShortOrder?
    requires ask.kind.AskOrder? || ask.kind.CoverOrder?
    ensures var offered :=
        if bid.kind.BidOrder? then bid.key.price.ratio
        else if m.feed.None? then 0
        else if bid.limit.Some? && bid.limit.value < m.feed.value then bid.limit.value else m.feed.value;
      Decide(m, bid, ask, true).Trade? <==>
        && (bid.kind.ShortOrder? || ask.kind.CoverOrder? ==> m.feed.Some?)
        && (bid.kind.ShortOrder? && bid.limit.Some? ==> bid.limit.value >= ask.key.price.ratio)
        && if ask.kind.AskOrder? then offered >= ask.key.price.ratio
           else (offered <= ask.key.price.ratio || ask.expiration <= m.now) && offered >= m.feed.value * 9 / 10
  {
  }

  // ---------- what is exchanged ----------

  datatype Fill = Fill(bidPaid: nat, bidReceived: nat, askPaid: nat, askReceived: nat, shortCollateral: nat)

  function Age(m: Market, cover: Order): nat {
    var age := m.shortPeriod - (cover.expiration - m.now);
    if age < 0 then 0 else age
  }

  function Rate(m: Market, cover: Order): nat {
    RateNumerator(cover.interest.ratio, Age(m, cover))
  }

  function CoverDebt(m: Market, cover: Order): nat {
    cover.balance + InterestOwed(cover.balance, Rate(m, cover), RATE_DENOMINATOR)
  }

  /** A cover buys no more than is for sale, than it can afford, and than it owes. */
  function CoverBuys(cover: Order, debt: nat, forSale: nat, ratio: nat): nat {
    Min(Min(forSale, ToQuote(cover.collateral, ratio)), debt)
  }

  /** Collateral that is exhausted pays whole, whatever the rounding. */
  function CoverPays(cover: Order, usd: nat, ratio: nat): nat {
    if usd == ToQuote(cover.collateral, ratio) || ratio == 0 then cover.collateral else ToBase(usd, ratio)
  }

  /** A short matches at half the feed: its own collateral is twice what it sells for. */
  function CollateralRatio(m: Market): nat {
    if m.feed.None? then 0 else m.feed.value / 2
  }

  function ShortPuts(m: Market, short: Order, usd: nat): nat {
    if usd == ToQuote(short.balance, CollateralRatio(m)) || CollateralRatio(m) == 0 then short.balance
    else ToBase(usd, CollateralRatio(m))
  }

  function FillCoverShort(m: Market, short: Order, cover: Order, ratio: nat): Fill {
    var usd := CoverBuys(cover, CoverDebt(m, cover), ToQuote(short.balance, CollateralRatio(m)), ratio);
    var paid := CoverPays(cover, usd, ratio);
    Fill(usd, paid, paid, usd, ShortPuts(m, short, usd))
  }

  function FillCoverBid(m: Market, bid: Order, cover: Order, ratio: nat): Fill {
    var usd := CoverBuys(cover, CoverDebt(m, cover), bid.balance, ratio);
    var paid := CoverPays(cover, usd, ratio);
    Fill(usd, paid, paid, usd, 0)
  }

  function FillAskShort(m: Market, short: Order, ask: Order, ratio: nat): Fill {
    var usd := Min(ToQuote(short.balance, CollateralRatio(m)), ToQuote(ask.balance, ratio));
    var paid := if usd == ToQuote(short.balance, CollateralRatio(m)) && ratio > 0 then ToBase(usd, ratio) else ask.balance;
    Fill(usd, paid, paid, usd, ShortPuts(m, short, usd))
  }

  /** Everyone gets the price they asked for. */
  function FillBidAsk(bid: Order, ask: Order, bidRatio: nat, askRatio: nat): Fill {
    var quantity := Min(Quantity(bid), ask.balance);
    Fill(if quantity == Quantity(bid) then bid.balance else ToQuote(quantity, bidRatio),
         quantity, quantity, ToQuote(quantity, askRatio), 0)
  }

  function FillOf(m: Market, bid: Order, ask: Order, bidRatio: nat, askRatio: nat): Fill {
    if ask.kind.CoverOrder? && bid.kind.ShortOrder? then FillCoverShort(m, bid, ask, bidRatio)
    else if ask.kind.CoverOrder? then FillCoverBid(m, bid, ask, bidRatio)
    else if bid.kind.ShortOrder? then FillAskShort(m, bid, ask, askRatio)
    else FillBidAsk(bid, ask, bidRatio, askRatio)
  }

  // ---------- nobody pays what they do not have ----------

  predicate CanMeet(m: Market, bid: Order, ask: Order) {
    && (bid.kind.BidOrder? || bid.kind.ShortOrder?)
    && (ask.kind.AskOrder? || ask.kind.CoverOrder?)
    && (bid.kind.BidOrder? ==> bid.key.price.ratio > 0)
    && (ask.kind.AskOrder? ==> ask.key.price.ratio > 0)
  }

  lemma CoverPaysWithin(cover: Order, usd: nat, ratio: nat)
    requires usd <= ToQuote(cover.collateral, ratio)
    ensures CoverPays(cover, usd, ratio) <= cover.collateral
  {
    if ratio > 0 {
      FitsBack(usd, cover.collateral, ratio);
    }
  }

  lemma ShortPutsWithin(m: Market, short: Order, usd: nat)
    requires usd <= ToQuote(short.balance, CollateralRatio(m))
    ensures ShortPuts(m, short, usd) <= short.balance
  {
    if CollateralRatio(m) > 0 {
      FitsBack(usd, short.balance, CollateralRatio(m));
    }
  }

  lemma BidAskWithin(bid: Order, ask: Order, askRatio: nat)
    requires bid.kind.BidOrder? && bid.key.price.ratio > 0 && askRatio <= bid.key.price.ratio
    ensures var f := FillBidAsk(bid, ask, bid.key.price.ratio, askRatio);
      f.bidPaid <= bid.balance && f.askPaid <= ask.balance && f.askReceived <= f.bidPaid
  {
    var bidRatio := bid.key.price.ratio;
    var q := Min(Quantity(bid), ask.balance);
    FitsForth(q, bid.balance, bidRatio);
    QuoteMono(q, q, askRatio, bidRatio);
  }

  lemma AskShortWithin(m: Market, short: Order, ask: Order, ratio: nat)
    requires ratio > 0
    ensures FillAskShort(m, short, ask, ratio).askPaid <= ask.balance
  {
    var usd := Min(ToQuote(short.balance, CollateralRatio(m)), ToQuote(ask.balance, ratio));
    FitsBack(usd, ask.balance, ratio);
  }

  /** On the terms two orders meet at: neither side pays more than it holds, a short puts up no more
      than it offers, a cover is paid no more than it owes, the bid pays at least what the ask gets
      (all of it unless both are plain orders), and the bid gets all the ask pays. So none of the
      engine's checks on a fill can fail. */
  lemma FillWithin(m: Market, bid: Order, ask: Order, marketIssued: bool)
    requires CanMeet(m, bid, ask) && Decide(m, bid, ask, marketIssued).Trade?
    ensures var d := Decide(m, bid, ask, marketIssued);
      var f := FillOf(m, bid, ask, d.bidRatio, d.askRatio);
      && f.askPaid <= (if ask.kind.CoverOrder? then ask.collateral else ask.balance)
      && (if bid.kind.ShortOrder? then f.shortCollateral else f.bidPaid) <= bid.balance
      && (ask.kind.CoverOrder? ==> f.askReceived <= CoverDebt(m, ask))
      && f.askReceived <= f.bidPaid
      && (f.askReceived == f.bidPaid || (bid.kind.BidOrder? && ask.kind.AskOrder?))
      && f.bidReceived == f.askPaid
  {
    var d := Decide(m, bid, ask, marketIssued);
    var f := FillOf(m, bid, ask, d.bidRatio, d.askRatio);
    if ask.kind.CoverOrder? {
      CoverPaysWithin(ask, f.askReceived, d.bidRatio);
    } else if bid.kind.BidOrder? {
      BidAskWithin(bid, ask, d.askRatio);
    } else {
      AskShortWithin(m, bid, ask, d.askRatio);
    }
    if bid.kind.ShortOrder? {
      ShortPutsWithin(m, bid, f.askReceived);
    }
  }

  // ---------- everyone gets the price they trade at ----------

  /** An amount at a price, there and back, as inequalities without quotients. */
  lemma QuoteWorth(x: nat, r: nat)
    ensures ToQuote(x, r) * PRECISION <= x * r < (ToQuote(x, r) + 1) * PRECISION
  {
    DivBounds(x * r, PRECISION);
  }

  lemma BaseWorth(y: nat, r: nat)
    requires r > 0
    ensures ToBase(y, r) * r <= y * PRECISION < (ToBase(y, r) + 1) * r
  {
    DivBounds(y * PRECISION, r);
    assert (ToBase(y, r) + 1) * r == ToBase(y, r) * r + r;
  }

  /** What x of the base asset fetches at ratio r is y of the quote asset, but for less than a unit of either. */
  predicate Fetches(x: nat, y: nat, r: nat) {
    x * r < (y + 1) * PRECISION && (y == 0 || y * PRECISION < (x + 1) * r)
  }

  lemma FetchesQuote(x: nat, r: nat)
    ensures Fetches(x, ToQuote(x, r), r)
  {
    QuoteWorth(x, r);
    assert (x + 1) * r == x * r + r;
  }

  lemma FetchesBase(y: nat, r: nat)
    requires r > 0
    ensures Fetches(ToBase(y, r), y, r)
  {
    BaseWorth(y, r);
  }

  lemma CoverFetches(cover: Order, usd: nat, ratio: nat)
    requires usd <= ToQuote(cover.collateral, ratio)
    ensures Fetches(CoverPays(cover, usd, ratio), usd, ratio)
  {
    if usd == ToQuote(cover.collateral, ratio) || ratio == 0 {
      FetchesQuote(cover.collateral, ratio);
    } else {
      FetchesBase(usd, ratio);
    }
  }

  lemma ShortFetches(m: Market, short: Order, usd: nat)
    requires usd <= ToQuote(short.balance, CollateralRatio(m))
    ensures Fetches(ShortPuts(m, short, usd), usd, CollateralRatio(m))
  {
    if usd == ToQuote(short.balance, CollateralRatio(m)) || CollateralRatio(m) == 0 {
      FetchesQuote(short.balance, CollateralRatio(m));
    } else {
      FetchesBase(usd, CollateralRatio(m));
    }
  }

  lemma AskShortFetches(m: Market, short: Order, ask: Order, ratio: nat)
    requires ratio > 0
    ensures var f := FillAskShort(m, short, ask, ratio); Fetches(f.askPaid, f.askReceived, ratio)
  {
    var f := FillAskShort(m, short, ask, ratio);
    if f.askReceived == ToQuote(short.balance, CollateralRatio(m)) {
      FetchesBase(f.askReceived, ratio);
    } else {
      FetchesQuote(ask.balance, ratio);
    }
  }

  lemma BidFetches(bid: Order, ask: Order, askRatio: nat)
    requires bid.kind.BidOrder? && bid.key.price.ratio > 0
    ensures var f := FillBidAsk(bid, ask, bid.key.price.ratio, askRatio); Fetches(f.bidReceived, f.bidPaid, bid.key.price.ratio)
  {
    var q := Min(Quantity(bid), ask.balance);
    if q == Quantity(bid) {
      FetchesBase(bid.balance, bid.key.price.ratio);
    } else {
      FetchesQuote(q, bid.key.price.ratio);
    }
  }

  /** On the terms they trade at, the ask gets what it pays at its ratio, and the bid what it pays at its own, but
      for less than a unit; a short's is the ask's, whatever the short would have gone to. And the short puts up
      what fetches what it sells at half the feed: twice its value. */
  lemma EveryoneGetsTheirPrice(m: Market, bid: Order, ask: Order, marketIssued: bool)
    requires CanMeet(m, bid, ask) && Decide(m, bid, ask, marketIssued).Trade?
    ensures var d := Decide(m, bid, ask, marketIssued);
      var f := FillOf(m, bid, ask, d.bidRatio, d.askRatio);
      && Fetches(f.askPaid, f.askReceived, d.askRatio)
      && Fetches(f.bidReceived, f.bidPaid, if bid.kind.BidOrder? then d.bidRatio else d.askRatio)
      && (bid.kind.ShortOrder? ==> m.feed.Some? && Fetches(f.shortCollateral, f.bidPaid, m.feed.value / 2))
  {
    var d := Decide(m, bid, ask, marketIssued);
    var f := FillOf(m, bid, ask, d.bidRatio, d.askRatio);
    if ask.kind.CoverOrder? {
      CoverFetches(ask, f.askReceived, d.bidRatio);
    } else if bid.kind.BidOrder? {
      BidFetches(bid, ask, d.askRatio);
      FetchesQuote(f.askPaid, d.askRatio);
    } else {
      AskShortFetches(m, bid, ask, d.askRatio);
    }
    if bid.kind.ShortOrder? {
      ShortFetches(m, bid, f.bidPaid);
    }
  }
}
