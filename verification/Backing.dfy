/** A whole run of the matching loop: it ends, none of its checks on a fill fails, and it keeps supply
    against holdings and against cover debt, but for what is listed as lost. */
module Backing {
  import opened Options
  import opened Prices
  import opened Ledgers
  import opened Matching
  import opened Settlement

  // ---------- one fill ----------

  /** The engine's checks on what the sides hold after paying. */
  predicate Affordable(bid: Order, ask: Order, f: Fill) {
    && (if bid.kind.ShortOrder? then f.shortCollateral else f.bidPaid) <= bid.balance
    && f.askPaid <= (if ask.kind.CoverOrder? then ask.collateral else ask.balance)
    && f.askReceived <= f.bidPaid && f.bidReceived == f.askPaid
  }

  /** The bid's side of a fill: None where the new cover would have no call price. */
  function PayBidSide(m: Market, b: Book, bid: Order, ask: Order, f: Fill): Option<Book>
    requires Affordable(bid, ask, f)
  {
    if bid.kind.ShortOrder? then PayShort(b, m, bid, f) else Some(PayBid(b, m, bid, f.bidPaid, f.bidReceived))
  }

  function PaidPrincipal(m: Market, ask: Order, f: Fill): (principal: nat)
    ensures principal <= ask.balance && principal <= f.askReceived
  {
    RetiresWithin(m, ask, f.askReceived);
    PrincipalOf(m, ask, f.askReceived)
  }

  /** The ask's side, and what the bid paid more than the ask asked for. An ask sold to a short is paid
      with the quote record where the base record belongs. */
  function PayAskSide(m: Market, b: Book, bid: Order, ask: Order, f: Fill): Book
    requires Affordable(bid, ask, f)
  {
    if ask.kind.CoverOrder? then PayCover(b, m, ask, f.askPaid, f.askReceived, PaidPrincipal(m, ask, f))
    else AddQuoteFees(PayAsk(b, m, ask, f.askPaid, f.askReceived, bid.kind.ShortOrder?), f.bidPaid - f.askReceived)
  }

  function BidAfter(m: Market, bid: Order, ask: Order, f: Fill): Order
    requires Affordable(bid, ask, f)
  {
    bid.(balance := if bid.kind.ShortOrder? then bid.balance - ShortGives(m, bid, f.shortCollateral) else BidLeft(bid, f.bidPaid))
  }

  function AskAfter(m: Market, bid: Order, ask: Order, f: Fill): Order
    requires Affordable(bid, ask, f)
  {
    if ask.kind.CoverOrder? then
      var principal := PaidPrincipal(m, ask, f);
      var owed := ask.balance - principal - Underwater(ask, f.askPaid, principal);
      ask.(balance := owed, collateral := if owed == 0 then 0 else ask.collateral - f.askPaid)
    else ask.(balance := AskLeft(ask, f.askPaid))
  }

  // ---------- what a fill loses ----------

  /** underwater: debt forgiven, with supply left as it was; misbooked: an ask's remainder in the base
      asset booked as quote fees; destroyed: what an ask pays to a short that sells nothing; stale: what
      the book holds at a cover's key beyond what the engine loaded; shifted: collateral counted at asset
      0 and let go of in another base. */
  datatype Losses = Losses(underwater: nat, misbooked: nat, destroyed: nat, staleCollateral: int, stalePayoff: int, shifted: nat)
  {
    function Plus(x: Losses): Losses {
      Losses(underwater + x.underwater, misbooked + x.misbooked, destroyed + x.destroyed,
             staleCollateral + x.staleCollateral, stalePayoff + x.stalePayoff, shifted + x.shifted)
    }
  }

  const NOTHING := Losses(0, 0, 0, 0, 0, 0)

  function LossesOf(m: Market, b: Book, bid: Order, ask: Order, f: Fill): Losses
    requires Affordable(bid, ask, f)
  {
    var n := PayBidSide(m, b, bid, ask, f);
    var r := if n.Some? then CollateralAt(n.value.l, ask.key) else NO_COLLATERAL;
    var destroyed := if bid.kind.ShortOrder? && f.bidPaid == 0 then f.askPaid else 0;
    if ask.kind.CoverOrder? then
      Losses(Underwater(ask, f.askPaid, PaidPrincipal(m, ask, f)), 0, destroyed, r.collateral - ask.collateral, r.payoff - ask.balance,
             if m.base == 0 then 0 else Released(ask, f.askPaid, PaidPrincipal(m, ask, f)))
    else
      Losses(0, if bid.kind.ShortOrder? then ask.balance - f.askPaid - AskLeft(ask, f.askPaid) else 0, destroyed, 0, 0, 0)
  }

  /** What x takes out of asset a's holdings, and out of its debt, without taking it out of supply. */
  function LostOf(m: Market, x: Losses, a: AssetId): int {
    if a == m.quote then x.underwater - x.misbooked
    else (if a == m.base then x.misbooked + x.destroyed - x.shifted else 0) + (if a == 0 then x.staleCollateral + x.shifted else 0)
  }

  function ForgivenOf(m: Market, x: Losses, a: AssetId): int {
    if a == m.quote then x.underwater + x.stalePayoff else 0
  }

  /** The book at asset a, after what x lists is lost. */
  ghost predicate Moved(m: Market, b: Book, n: Book, a: AssetId, x: Losses) {
    Moves(b, n, m, a, LostOf(m, x, a), ForgivenOf(m, x, a))
  }

  /** An ask sold to a short leaves nothing or something worth a unit of quote; a short that sells
      nothing is sold nothing; the book has a cover as the engine loaded it; and one in a base other than
      asset 0 lets go of nothing. */
  predicate Clean(m: Market, b: Book, bid: Order, ask: Order, f: Fill)
    requires Affordable(bid, ask, f)
  {
    && (bid.kind.ShortOrder? && !ask.kind.CoverOrder? ==>
        ask.balance == f.askPaid || ToQuote(ask.balance - f.askPaid, ask.key.price.ratio) > 0)
    && (bid.kind.ShortOrder? && f.bidPaid == 0 ==> f.askPaid == 0)
    && (ask.kind.CoverOrder? && m.base != 0 ==> Released(ask, f.askPaid, PaidPrincipal(m, ask, f)) == 0)
    && (ask.kind.CoverOrder? ==>
        match PayBidSide(m, b, bid, ask, f)
        case None => ask.collateral == 0 && ask.balance == 0
        case Some(n) => CollateralAt(n.l, ask.key).collateral == ask.collateral && CollateralAt(n.l, ask.key).payoff == ask.balance)
  }

  /** A fill loses nothing but forgiven debt exactly when it is clean. */
  lemma CleanLosesNothing(m: Market, b: Book, bid: Order, ask: Order, f: Fill)
    requires Affordable(bid, ask, f)
    ensures LossesOf(m, b, bid, ask, f).(underwater := 0) == NOTHING <==> Clean(m, b, bid, ask, f)
  {
    if bid.kind.ShortOrder? && !ask.kind.CoverOrder? {
      assert AskLeft(ask, f.askPaid) in {0, ask.balance - f.askPaid};
    }
  }

  // ---------- orders in step with the book ----------

  predicate Belongs(m: Market, o: Order) {
    && o.key.price.quote == m.quote && o.key.price.base == m.base
    && (o.kind.BidOrder? || o.kind.AskOrder? ==> o.key.price.ratio > 0)
  }

  /** A cover may be changed behind the engine's back; the others may not. */
  predicate InBook(l: Ledger, o: Order) {
    match o.kind
    case BidOrder => Get(l.bids, o.key) == o.balance
    case AskOrder => Get(l.asks, o.key) == o.balance
    case ShortOrder => Get(l.shorts, o.key) == o.balance
    case CoverOrder => true
  }

  predicate Meets(m: Market, l: Ledger, bid: Order, ask: Order) {
    && Priced(m) && Belongs(m, bid) && Belongs(m, ask) && InBook(l, bid) && InBook(l, ask)
    && (bid.kind.BidOrder? || bid.kind.ShortOrder?)
    && (ask.kind.AskOrder? || ask.kind.CoverOrder?)
    && (m.base != 0 ==> bid.kind.BidOrder?)
  }

  lemma BidSideCounts(m: Market, b: Book, bid: Order, ask: Order, f: Fill, a: AssetId)
    requires Meets(m, b.l, bid, ask) && Affordable(bid, ask, f) && PayBidSide(m, b, bid, ask, f).Some?
    ensures Moves(b, PayBidSide(m, b, bid, ask, f).value, m, a,
                  if a == m.quote then f.bidPaid
                  else if a == m.base && (bid.kind.BidOrder? || f.bidPaid > 0) then 0 - f.askPaid else 0, 0)
  {
    if bid.kind.ShortOrder? {
      PayShortCounts(b, m, bid, f, a);
    } else {
      PayBidCounts(b, m, bid, f.bidPaid, f.bidReceived, a);
    }
  }

  lemma AskSideCounts(m: Market, b: Book, bid: Order, ask: Order, f: Fill, a: AssetId)
    requires Priced(m) && Belongs(m, ask) && InBook(b.l, ask) && Affordable(bid, ask, f)
    requires ask.kind.AskOrder? || ask.kind.CoverOrder?
    ensures var n, r := PayAskSide(m, b, bid, ask, f), CollateralAt(b.l, ask.key);
      if ask.kind.CoverOrder? then
        var unpaid := Underwater(ask, f.askPaid, PaidPrincipal(m, ask, f));
        var released := Released(ask, f.askPaid, PaidPrincipal(m, ask, f));
        Moves(b, n, m, a,
              if a == m.quote then unpaid - f.askReceived
              else (if a == 0 then r.collateral - ask.collateral + released else 0) + (if a == m.base then f.askPaid - released else 0),
              if a == m.quote then unpaid + r.payoff - ask.balance else 0)
      else
        var dust := if bid.kind.ShortOrder? then ask.balance - f.askPaid - AskLeft(ask, f.askPaid) else 0;
        Moves(b, n, m, a, if a == m.base then f.askPaid + dust else if a == m.quote then 0 - f.bidPaid - dust else 0, 0)
  {
    if ask.kind.CoverOrder? {
      PayCoverCounts(b, m, ask, f.askPaid, f.askReceived, PaidPrincipal(m, ask, f), a);
    } else {
      PayAskCounts(b, m, ask, f.askPaid, f.askReceived, bid.kind.ShortOrder?, a);
    }
  }

  /** The bid's side touches nothing of the ask's. */
  lemma BidSideLeaves(m: Market, b: Book, bid: Order, ask: Order, f: Fill)
    requires Affordable(bid, ask, f) && PayBidSide(m, b, bid, ask, f).Some?
    ensures PayBidSide(m, b, bid, ask, f).value.l.asks == b.l.asks
  {
    if bid.kind.ShortOrder? {
      PayShortLeaves(b, m, bid, f);
    } else {
      PayBidLeaves(b, m, bid, f.bidPaid, f.bidReceived);
    }
  }

  /** One fill keeps both sides of the books but for its losses. */
  lemma ExchangeCounts(m: Market, b: Book, bid: Order, ask: Order, f: Fill, a: AssetId)
    requires Meets(m, b.l, bid, ask) && Affordable(bid, ask, f) && PayBidSide(m, b, bid, ask, f).Some?
    requires f.askReceived == f.bidPaid || (bid.kind.BidOrder? && ask.kind.AskOrder?)
    ensures Moved(m, b, PayAskSide(m, PayBidSide(m, b, bid, ask, f).value, bid, ask, f), a, LossesOf(m, b, bid, ask, f))
  {
    BidSideCounts(m, b, bid, ask, f, a);
    BidSideLeaves(m, b, bid, ask, f);
    AskSideCounts(m, PayBidSide(m, b, bid, ask, f).value, bid, ask, f, a);
  }

  // ---------- one round ----------

  datatype Round = Continue(next: Engine) | Halt(end: Engine) | Fail

  /** One round of the loop, with both orders at hand. */
  function Match(m: Market, e: Engine): Round
    requires e.bid.Some? && e.ask.Some?
  {
    var bid, ask := e.bid.value, e.ask.value;
    match Decide(m, bid, ask, e.book.quote.IsMarketIssued())
    case DropBid => Continue(e.(bid := None))
    case DropAsk => Continue(e.(ask := None))
    case Stop => Halt(e)
    case Throw => Fail
    case Trade(bidRatio, askRatio) => Exchange(m, e, FillOf(m, bid, ask, bidRatio, askRatio))
  }

  /** What paying a cover starts by checking. */
  predicate RateOrdered(o: Order) {
    o.kind.CoverOrder? ==> o.interest.quote > o.interest.base
  }

  function Exchange(m: Market, e: Engine, f: Fill): Round
    requires e.bid.Some? && e.ask.Some?
  {
    var bid, ask := e.bid.value, e.ask.value;
    if !Affordable(bid, ask, f) || !RateOrdered(ask) then Fail
    else
      match PayBidSide(m, e.book, bid, ask, f)
      case None => Fail
      case Some(n) =>
        Continue(e.(book := PayAskSide(m, n, bid, ask, f), bid := Some(BidAfter(m, bid, ask, f)), ask := Some(AskAfter(m, bid, ask, f))))
  }

  function ExchangeLosses(m: Market, e: Engine, f: Fill): Losses
    requires e.bid.Some? && e.ask.Some?
  {
    if Affordable(e.bid.value, e.ask.value, f) then LossesOf(m, e.book, e.bid.value, e.ask.value, f) else NOTHING
  }

  function RoundLosses(m: Market, e: Engine): Losses
    requires e.bid.Some? && e.ask.Some?
  {
    match Decide(m, e.bid.value, e.ask.value, e.book.quote.IsMarketIssued())
    case Trade(bidRatio, askRatio) => ExchangeLosses(m, e, FillOf(m, e.bid.value, e.ask.value, bidRatio, askRatio))
    case _ => NOTHING
  }

  // ---------- the loop ----------

  function Orders(e: Engine): nat {
    |e.bids| + |e.asks| + |e.shorts| + |e.covers|
  }

  function NextPair(m: Market, e: Engine): Engine {
    var b := NextBid(m, e);
    if b.bid.None? then b else NextAsk(m, b)
  }

  predicate Paired(e: Engine) {
    e.bid.Some? && e.ask.Some?
  }

  /** Getting the next two orders either finds both still at hand or takes at least one. */
  lemma NextPairTakes(m: Market, e: Engine)
    ensures var f := NextPair(m, e);
      && Orders(f) <= Orders(e)
      && (Paired(f) && f.filled != e.filled ==> Orders(f) < Orders(e))
      && f.book == e.book
  {
  }

  lemma MatchTakesNone(m: Market, e: Engine)
    requires Paired(e) && Match(m, e).Continue?
    ensures var g := Match(m, e).next;
      g.filled == e.filled && Orders(g) == Orders(e)
  {
  }

  /** The matching loop: None where it throws. `last` is the number of orders filled when the previous
      round began, None before the first. */
  function Run(m: Market, e: Engine, last: Option<nat>): Option<Engine>
    requires last.Some? ==> last.value == e.filled
    decreases Orders(e) + if last.None? then 1 else 0
  {
    var f := NextPair(m, e);
    NextPairTakes(m, e);
    if !Paired(f) then Some(f)
    else if last == Some(f.filled) then None
    else
      match Match(m, f)
      case Fail => None
      case Halt(g) => Some(g)
      case Continue(g) =>
        MatchTakesNone(m, f);
        Run(m, g, Some(f.filled))
  }

  function RunLosses(m: Market, e: Engine, last: Option<nat>): Losses
    requires last.Some? ==> last.value == e.filled
    decreases Orders(e) + if last.None? then 1 else 0
  {
    var f := NextPair(m, e);
    NextPairTakes(m, e);
    if !Paired(f) || last == Some(f.filled) then NOTHING
    else
      match Match(m, f)
      case Continue(g) =>
        MatchTakesNone(m, f);
        RoundLosses(m, f).Plus(RunLosses(m, g, Some(f.filled)))
      case _ => NOTHING
  }

  /** How often the loop body is entered. */
  function Rounds(m: Market, e: Engine, last: Option<nat>): nat
    requires last.Some? ==> last.value == e.filled
    decreases Orders(e) + if last.None? then 1 else 0
  {
    var f := NextPair(m, e);
    NextPairTakes(m, e);
    if !Paired(f) then 0
    else if last == Some(f.filled) then 1
    else
      match Match(m, f)
      case Continue(g) =>
        MatchTakesNone(m, f);
        1 + Rounds(m, g, Some(f.filled))
      case _ => 1
  }

  /** The engine at each entry of the loop body. */
  function Seen(m: Market, e: Engine, last: Option<nat>): (r: seq<Engine>)
    requires last.Some? ==> last.value == e.filled
    ensures forall i :: 0 <= i < |r| ==> Paired(r[i])
    decreases Orders(e) + if last.None? then 1 else 0
  {
    var f := NextPair(m, e);
    NextPairTakes(m, e);
    if !Paired(f) then []
    else if last == Some(f.filled) then [f]
    else
      [f] + match Match(m, f)
            case Continue(g) =>
              MatchTakesNone(m, f);
              Seen(m, g, Some(f.filled))
            case _ => []
  }

  /** A run that goes on is a round and a run. */
  lemma RunStep(m: Market, e: Engine, last: Option<nat>, f: Engine, g: Engine)
    requires last.Some? ==> last.value == e.filled
    requires f == NextPair(m, e) && Paired(f) && last != Some(f.filled) && Match(m, f) == Continue(g)
    ensures g.filled == f.filled && Orders(g) == Orders(f) <= Orders(e)
    ensures last.Some? ==> Orders(f) < Orders(e)
    ensures Run(m, e, last) == Run(m, g, Some(f.filled))
    ensures RunLosses(m, e, last) == RoundLosses(m, f).Plus(RunLosses(m, g, Some(f.filled)))
    ensures Seen(m, e, last) == [f] + Seen(m, g, Some(f.filled))
  {
    NextPairTakes(m, e);
    MatchTakesNone(m, f);
  }

  /** One that stops has no losses any more. */
  lemma RunStops(m: Market, e: Engine, last: Option<nat>, f: Engine)
    requires last.Some? ==> last.value == e.filled
    requires f == NextPair(m, e) && (!Paired(f) || last == Some(f.filled) || !Match(m, f).Continue?)
    ensures RunLosses(m, e, last) == NOTHING
    ensures Seen(m, e, last) == if Paired(f) then [f] else []
    ensures Run(m, e, last).None? <==> Paired(f) && (last == Some(f.filled) || Match(m, f).Fail?)
  {
  }

  /** After the first round each round but one that throws has taken an order. */
  lemma {:induction false} RoundsBounded(m: Market, e: Engine, last: Option<nat>)
    requires last.Some? ==> last.value == e.filled
    ensures Rounds(m, e, last) <= Orders(e) + if last.None? then 2 else 1
    decreases Orders(e) + if last.None? then 1 else 0
  {
    var f := NextPair(m, e);
    NextPairTakes(m, e);
    if Paired(f) && last != Some(f.filled) && Match(m, f).Continue? {
      MatchTakesNone(m, f);
      RoundsBounded(m, Match(m, f).next, Some(f.filled));
    }
  }

  /** The engine before any order is taken, and after the first bid and ask are. */
  predicate Fresh(e: Engine) {
    e.bid.None? && e.ask.None?
  }

  function Primed(m: Market, e: Engine): Engine {
    NextAsk(m, NextBid(m, e))
  }

  lemma PrimedTakes(m: Market, e: Engine)
    requires Fresh(e)
    ensures var f := Primed(m, e);
      && f.book == e.book && Orders(f) <= Orders(e)
      && (Paired(f) ==> Orders(f) <= Orders(e) - 2)
      && (!Paired(f) ==> !Paired(NextPair(m, f)))
  {
  }

  /** The loop body is entered at most once for each order of the market. */
  lemma LoopEnds(m: Market, e: Engine)
    requires Fresh(e)
    ensures Primed(m, e).book == e.book && Rounds(m, Primed(m, e), None) <= Orders(e)
  {
    PrimedTakes(m, e);
    RoundsBounded(m, Primed(m, e), None);
  }

  // ---------- orders stay in step with the book ----------

  /** What is left of one iterator: this market's orders, as the book has them, none of them twice and
      none of them the one at hand. */
  ghost predicate InStep(m: Market, l: Ledger, s: seq<Order>, kind: OrderType, hand: Option<Order>) {
    && (forall i :: 0 <= i < |s| ==> s[i].kind == kind && Belongs(m, s[i]) && InBook(l, s[i]))
    && (forall i, j :: 0 <= i < j < |s| ==> s[i].key != s[j].key)
    && (hand.Some? && hand.value.kind == kind ==> forall i :: 0 <= i < |s| ==> s[i].key != hand.value.key)
  }

  /** The order at hand is as the book has it, or spent. */
  predicate AtHand(m: Market, l: Ledger, o: Order) {
    Belongs(m, o) && (o.balance == 0 || InBook(l, o))
  }

  ghost predicate InSync(m: Market, e: Engine) {
    && Priced(m)
    && InStep(m, e.book.l, e.bids, BidOrder, e.bid) && InStep(m, e.book.l, e.shorts, ShortOrder, e.bid)
    && InStep(m, e.book.l, e.asks, AskOrder, e.ask) && InStep(m, e.book.l, e.covers, CoverOrder, e.ask)
    && (e.bid.Some? ==> AtHand(m, e.book.l, e.bid.value) && (e.bid.value.kind.BidOrder? || e.bid.value.kind.ShortOrder?))
    && (e.ask.Some? ==> AtHand(m, e.book.l, e.ask.value) && (e.ask.value.kind.AskOrder? || e.ask.value.kind.CoverOrder?))
    && (m.base != 0 ==> NoShorts(e))
  }

  /** Shorts are in the base asset 0. */
  predicate NoShorts(e: Engine) {
    e.shorts == [] && (e.bid.Some? ==> e.bid.value.kind.BidOrder?)
  }

  lemma TakeHead(m: Market, l: Ledger, s: seq<Order>, kind: OrderType)
    requires s != [] && InStep(m, l, s, kind, None)
    ensures InStep(m, l, s[1..], kind, Some(s[0])) && s[0].kind == kind && Belongs(m, s[0]) && InBook(l, s[0])
  {
  }

  lemma NextBidSync(m: Market, e: Engine)
    requires InSync(m, e)
    ensures InSync(m, NextBid(m, e))
    ensures var b := NextBid(m, e).bid; b.Some? ==> InBook(e.book.l, b.value)
  {
    var b := NextBid(m, e);
    if b.filled != e.filled && b.bid.Some? {
      if b.bids != e.bids {
        TakeHead(m, e.book.l, e.bids, BidOrder);
      } else {
        TakeHead(m, e.book.l, e.shorts, ShortOrder);
      }
    }
  }

  lemma NextAskSync(m: Market, e: Engine)
    requires InSync(m, e)
    ensures InSync(m, NextAsk(m, e))
    ensures var a := NextAsk(m, e).ask; a.Some? ==> InBook(e.book.l, a.value)
  {
    var a := NextAsk(m, e);
    if a.filled != e.filled && a.ask.Some? {
      if a.asks != e.asks {
        TakeHead(m, e.book.l, e.asks, AskOrder);
      } else {
        TakeHead(m, e.book.l, e.covers, CoverOrder);
      }
    }
  }

  lemma NextPairSync(m: Market, e: Engine)
    requires InSync(m, e)
    ensures var f := NextPair(m, e);
      && InSync(m, f) && f.book == e.book
      && (Paired(f) ==> Meets(m, f.book.l, f.bid.value, f.ask.value))
  {
    NextBidSync(m, e);
    if NextBid(m, e).bid.Some? {
      NextAskSync(m, NextBid(m, e));
    }
  }

  /** What a fill leaves alone, and how it leaves the two orders. */
  lemma BidSideStores(m: Market, b: Book, bid: Order, ask: Order, f: Fill)
    requires Affordable(bid, ask, f) && PayBidSide(m, b, bid, ask, f).Some?
    requires bid.kind.BidOrder? || bid.kind.ShortOrder?
    ensures var l, n, after := b.l, PayBidSide(m, b, bid, ask, f).value.l, BidAfter(m, bid, ask, f);
      && n.asks == l.asks
      && n.bids == (if bid.kind.BidOrder? then l.bids[bid.key := after.balance] else l.bids)
      && n.shorts == (if bid.kind.ShortOrder? && f.bidPaid > 0 then l.shorts[bid.key := after.balance] else l.shorts)
  {
    if bid.kind.ShortOrder? {
      PayShortLeaves(b, m, bid, f);
    } else {
      PayBidLeaves(b, m, bid, f.bidPaid, f.bidReceived);
    }
  }

  lemma AskSideStores(m: Market, b: Book, bid: Order, ask: Order, f: Fill)
    requires Affordable(bid, ask, f)
    requires ask.kind.AskOrder? || ask.kind.CoverOrder?
    ensures var l, n, after := b.l, PayAskSide(m, b, bid, ask, f).l, AskAfter(m, bid, ask, f);
      && n.bids == l.bids && n.shorts == l.shorts
      && n.asks == (if ask.kind.AskOrder? then l.asks[ask.key := after.balance] else l.asks)
  {
    if ask.kind.CoverOrder? {
      PayCoverLeaves(b, m, ask, f.askPaid, f.askReceived, PaidPrincipal(m, ask, f));
    } else {
      PayAskLeaves(b, m, ask, f.askPaid, f.askReceived, bid.kind.ShortOrder?);
    }
  }

  /** The orders of a table, by kind; covers are not compared. */
  function Table(l: Ledger, kind: OrderType): map<OrderKey, nat> {
    match kind
    case BidOrder => l.bids
    case AskOrder => l.asks
    case ShortOrder => l.shorts
    case CoverOrder => map[]
  }

  /** Storing the order at hand leaves the iterators in step. */
  lemma InStepStored(m: Market, l: Ledger, n: Ledger, s: seq<Order>, kind: OrderType, hand: Order, after: Order)
    requires InStep(m, l, s, kind, Some(hand)) && after.key == hand.key && after.kind == hand.kind
    requires Table(n, kind) == Table(l, kind)
          || (hand.kind == kind && Table(n, kind) == Table(l, kind)[hand.key := after.balance])
    ensures InStep(m, n, s, kind, Some(after))
  {
  }

  lemma ShortSellsNothing(m: Market, bid: Order, ask: Order, bidRatio: nat, askRatio: nat)
    requires bid.kind.ShortOrder? && FillOf(m, bid, ask, bidRatio, askRatio).bidPaid == 0
    ensures FillOf(m, bid, ask, bidRatio, askRatio).shortCollateral in {0, bid.balance}
  {
  }

  lemma ExchangeSync(m: Market, e: Engine, f: Fill, n: Book)
    requires Paired(e) && InSync(m, e) && Meets(m, e.book.l, e.bid.value, e.ask.value) && Affordable(e.bid.value, e.ask.value, f)
    requires PayBidSide(m, e.book, e.bid.value, e.ask.value, f) == Some(n)
    requires e.bid.value.kind.ShortOrder? && f.bidPaid == 0 ==> f.shortCollateral in {0, e.bid.value.balance}
    ensures var bid, ask := e.bid.value, e.ask.value;
      InSync(m, e.(book := PayAskSide(m, n, bid, ask, f), bid := Some(BidAfter(m, bid, ask, f)), ask := Some(AskAfter(m, bid, ask, f))))
  {
    var bid, ask := e.bid.value, e.ask.value;
    var end := PayAskSide(m, n, bid, ask, f);
    BidSideStores(m, e.book, bid, ask, f);
    AskSideStores(m, n, bid, ask, f);
    var bidAfter, askAfter := BidAfter(m, bid, ask, f), AskAfter(m, bid, ask, f);
    InStepStored(m, e.book.l, end.l, e.bids, BidOrder, bid, bidAfter);
    InStepStored(m, e.book.l, end.l, e.shorts, ShortOrder, bid, bidAfter);
    InStepStored(m, e.book.l, end.l, e.asks, AskOrder, ask, askAfter);
    InStepStored(m, e.book.l, end.l, e.covers, CoverOrder, ask, askAfter);
  }

  lemma ExchangeKeeps(m: Market, e: Engine, f: Fill, a: AssetId)
    requires Paired(e) && InSync(m, e) && Meets(m, e.book.l, e.bid.value, e.ask.value) && Affordable(e.bid.value, e.ask.value, f)
    requires e.bid.value.kind.ShortOrder? && f.bidPaid == 0 ==> f.shortCollateral in {0, e.bid.value.balance}
    requires f.askReceived == f.bidPaid || (e.bid.value.kind.BidOrder? && e.ask.value.kind.AskOrder?)
    ensures Exchange(m, e, f).Continue? ==>
      var g := Exchange(m, e, f).next;
      InSync(m, g) && Moved(m, e.book, g.book, a, ExchangeLosses(m, e, f))
  {
    var bid, ask := e.bid.value, e.ask.value;
    if Exchange(m, e, f).Continue? {
      var n := PayBidSide(m, e.book, bid, ask, f).value;
      ExchangeCounts(m, e.book, bid, ask, f, a);
      ExchangeSync(m, e, f, n);
    }
  }

  /** What the two sides can pay, on the terms they meet at. */
  lemma TermsHold(m: Market, e: Engine, bidRatio: nat, askRatio: nat)
    requires Paired(e) && Meets(m, e.book.l, e.bid.value, e.ask.value)
    requires Decide(m, e.bid.value, e.ask.value, e.book.quote.IsMarketIssued()) == Trade(bidRatio, askRatio)
    ensures var bid, f := e.bid.value, FillOf(m, e.bid.value, e.ask.value, bidRatio, askRatio);
      && Affordable(bid, e.ask.value, f)
      && (bid.kind.ShortOrder? && f.bidPaid == 0 ==> f.shortCollateral in {0, bid.balance})
      && (f.askReceived == f.bidPaid || (bid.kind.BidOrder? && e.ask.value.kind.AskOrder?))
  {
    FillWithin(m, e.bid.value, e.ask.value, e.book.quote.IsMarketIssued());
    if e.bid.value.kind.ShortOrder? && FillOf(m, e.bid.value, e.ask.value, bidRatio, askRatio).bidPaid == 0 {
      ShortSellsNothing(m, e.bid.value, e.ask.value, bidRatio, askRatio);
    }
  }

  /** A round keeps the iterators in step with the book. */
  lemma MatchSync(m: Market, e: Engine)
    requires Paired(e) && InSync(m, e) && Meets(m, e.book.l, e.bid.value, e.ask.value)
    ensures Match(m, e).Continue? ==> InSync(m, Match(m, e).next)
  {
    var d := Decide(m, e.bid.value, e.ask.value, e.book.quote.IsMarketIssued());
    if d.Trade? {
      TermsHold(m, e, d.bidRatio, d.askRatio);
      ExchangeKeeps(m, e, FillOf(m, e.bid.value, e.ask.value, d.bidRatio, d.askRatio), 0);
    }
  }

  /** And keeps the books but for its losses. */
  lemma MatchKeeps(m: Market, e: Engine, a: AssetId)
    requires Paired(e) && InSync(m, e) && Meets(m, e.book.l, e.bid.value, e.ask.value)
    ensures Match(m, e).Continue? ==> Moved(m, e.book, Match(m, e).next.book, a, RoundLosses(m, e))
  {
    var d := Decide(m, e.bid.value, e.ask.value, e.book.quote.IsMarketIssued());
    if d.Trade? {
      TermsHold(m, e, d.bidRatio, d.askRatio);
      ExchangeKeeps(m, e, FillOf(m, e.bid.value, e.ask.value, d.bidRatio, d.askRatio), a);
    }
  }

  /** No check on what a side pays ever throws: a round fails only over an asset that no market issues,
      where a filled short's cover would have no call price, or over a cover with a rate of interest that
      is no price of a market. */
  lemma ChecksHold(m: Market, e: Engine)
    requires Paired(e) && Meets(m, e.book.l, e.bid.value, e.ask.value)
    ensures var bid, ask := e.bid.value, e.ask.value;
      match Decide(m, bid, ask, e.book.quote.IsMarketIssued())
      case Trade(bidRatio, askRatio) =>
        var f := FillOf(m, bid, ask, bidRatio, askRatio);
        Affordable(bid, ask, f) && (Match(m, e).Fail? <==> PayBidSide(m, e.book, bid, ask, f).None? || !RateOrdered(ask))
      case d => Match(m, e).Fail? <==> d.Throw?
  {
    var d := Decide(m, e.bid.value, e.ask.value, e.book.quote.IsMarketIssued());
    if d.Trade? {
      TermsHold(m, e, d.bidRatio, d.askRatio);
    }
  }

  // ---------- every round fills an order ----------

  /** A side is gone or has nothing left to trade. */
  predicate Spent(e: Engine) {
    e.bid.None? || e.ask.None? || Quantity(e.bid.value) == 0 || e.ask.value.balance == 0
  }

  lemma CoverSpends(m: Market, bid: Order, ask: Order, f: Fill)
    requires Affordable(bid, ask, f) && ask.kind.CoverOrder?
    requires f.askPaid == ask.collateral || f.askReceived >= CoverDebt(m, ask)
    ensures AskAfter(m, bid, ask, f).balance == 0
  {
  }

  /** On the terms of a round the fill uses up the bid or the ask. */
  lemma FillSpends(m: Market, bid: Order, ask: Order, marketIssued: bool)
    requires CanMeet(m, bid, ask) && Decide(m, bid, ask, marketIssued).Trade?
    requires var d := Decide(m, bid, ask, marketIssued); Affordable(bid, ask, FillOf(m, bid, ask, d.bidRatio, d.askRatio))
    ensures var d := Decide(m, bid, ask, marketIssued);
      var f := FillOf(m, bid, ask, d.bidRatio, d.askRatio);
      Quantity(BidAfter(m, bid, ask, f)) == 0 || AskAfter(m, bid, ask, f).balance == 0
  {
    var d := Decide(m, bid, ask, marketIssued);
    var f := FillOf(m, bid, ask, d.bidRatio, d.askRatio);
    if ask.kind.CoverOrder? && (f.askPaid == ask.collateral || f.askReceived >= CoverDebt(m, ask)) {
      CoverSpends(m, bid, ask, f);
    }
  }

  lemma RoundSpends(m: Market, e: Engine)
    requires Paired(e) && Meets(m, e.book.l, e.bid.value, e.ask.value) && Match(m, e).Continue?
    ensures Spent(Match(m, e).next)
  {
    var marketIssued := e.book.quote.IsMarketIssued();
    if Decide(m, e.bid.value, e.ask.value, marketIssued).Trade? {
      FillSpends(m, e.bid.value, e.ask.value, marketIssued);
    }
  }

  lemma SpentTakes(m: Market, e: Engine)
    requires Spent(e)
    ensures Paired(NextPair(m, e)) ==> NextPair(m, e).filled != e.filled
  {
  }

  /** A round that goes on leaves iterators in step and an order used up. */
  lemma RoundSyncs(m: Market, e: Engine, f: Engine, g: Engine)
    requires InSync(m, e) && f == NextPair(m, e) && Paired(f) && Match(m, f) == Continue(g)
    ensures InSync(m, g)
    ensures Spent(g) && g.filled == f.filled && Orders(g) == Orders(f)
  {
    NextPairSync(m, e);
    MatchTakesNone(m, f);
    MatchSync(m, f);
    RoundSpends(m, f);
  }

  predicate Fails(m: Market, e: Engine) {
    Paired(e) && Match(m, e).Fail?
  }

  predicate SomeFails(m: Market, rounds: seq<Engine>) {
    exists i :: 0 <= i < |rounds| && Fails(m, rounds[i])
  }

  lemma SomeFailsLater(m: Market, f: Engine, rest: seq<Engine>)
    ensures SomeFails(m, [f] + rest) <==> Fails(m, f) || SomeFails(m, rest)
  {
    var all := [f] + rest;
    if SomeFails(m, rest) {
      var i :| 0 <= i < |rest| && Fails(m, rest[i]);
      assert all[i + 1] == rest[i];
    }
    if Fails(m, f) {
      assert all[0] == f;
    }
  }

  /** The loop is never caught: it throws exactly when one of its rounds does, which ChecksHold says when. */
  lemma {:induction false} NeverCaught(m: Market, e: Engine, last: Option<nat>)
    requires InSync(m, e) && (last.Some? ==> last.value == e.filled && Spent(e))
    ensures Run(m, e, last).None? <==> SomeFails(m, Seen(m, e, last))
    decreases Orders(e) + if last.None? then 1 else 0
  {
    var f := NextPair(m, e);
    if last.Some? {
      SpentTakes(m, e);
    }
    if !Paired(f) || !Match(m, f).Continue? {
      RunStops(m, e, last, f);
      SomeFailsLater(m, f, []);
    } else {
      var g := Match(m, f).next;
      RunStep(m, e, last, f, g);
      RoundSyncs(m, e, f, g);
      NeverCaught(m, g, Some(f.filled));
      SomeFailsLater(m, f, Seen(m, g, Some(f.filled)));
    }
  }

  /** So a market's run throws exactly when a round of it does. */
  lemma ExecuteThrows(m: Market, e: Engine)
    requires Fresh(e) && InSync(m, e)
    ensures Execute(m, e).None? <==> SomeFails(m, Seen(m, Primed(m, e), None))
  {
    PrimedSync(m, e);
    NeverCaught(m, Primed(m, e), None);
  }

  // ---------- the whole run ----------

  lemma MovedOn(m: Market, b: Book, c: Book, n: Book, a: AssetId, x: Losses, y: Losses)
    requires Moved(m, b, c, a, x) && Moved(m, c, n, a, y)
    ensures Moved(m, b, n, a, x.Plus(y))
  {
  }

  lemma RoundKeeps(m: Market, e: Engine, a: AssetId)
    requires InSync(m, e) && Paired(NextPair(m, e)) && Match(m, NextPair(m, e)).Continue?
    ensures var f := NextPair(m, e);
      var g := Match(m, f).next;
      && InSync(m, g) && Moved(m, e.book, g.book, a, RoundLosses(m, f))
      && g.filled == f.filled && Orders(g) == Orders(f) && f.book == e.book
  {
    var f := NextPair(m, e);
    NextPairTakes(m, e);
    NextPairSync(m, e);
    MatchTakesNone(m, f);
    MatchSync(m, f);
    MatchKeeps(m, f, a);
  }

  lemma {:induction false} RunKeeps(m: Market, e: Engine, last: Option<nat>, a: AssetId)
    requires InSync(m, e) && (last.Some? ==> last.value == e.filled) && Run(m, e, last).Some?
    ensures var n := Run(m, e, last).value.book;
      Moved(m, e.book, n, a, RunLosses(m, e, last))
    decreases Orders(e) + if last.None? then 1 else 0
  {
    var f := NextPair(m, e);
    NextPairTakes(m, e);
    if Paired(f) && Match(m, f).Continue? {
      var g := Match(m, f).next;
      RoundKeeps(m, e, a);
      RunKeeps(m, g, Some(f.filled), a);
      MovedOn(m, e.book, g.book, Run(m, g, Some(f.filled)).value.book, a, RoundLosses(m, f), RunLosses(m, g, Some(f.filled)));
    }
  }

  /** The engine's two records go back into the pending state. */
  function Stored(m: Market, b: Book): Ledger {
    b.l.(assets := b.l.assets[m.quote := b.quote][m.base := b.base])
  }

  /** The pending state after the market ran on it: None where the run threw, which leaves it alone. */
  function Execute(m: Market, e: Engine): Option<Ledger> {
    var f :- Run(m, Primed(m, e), None);
    Some(Stored(m, f.book))
  }

  /** The engine as it starts on a pending state. */
  ghost predicate Ready(m: Market, e: Engine) {
    && Fresh(e) && InSync(m, e)
    && m.quote in e.book.l.assets && e.book.quote == e.book.l.assets[m.quote]
    && m.base in e.book.l.assets && e.book.base == e.book.l.assets[m.base]
  }

  lemma PrimedSync(m: Market, e: Engine)
    requires Fresh(e) && InSync(m, e)
    ensures InSync(m, Primed(m, e)) && Primed(m, e).book == e.book
  {
    NextBidSync(m, e);
    NextAskSync(m, NextBid(m, e));
  }

  lemma StoredCounts(m: Market, b: Book, a: AssetId)
    requires Priced(m)
    ensures Supply(Stored(m, b), a) - Holdings(Stored(m, b), a) == Unheld(b, m, a)
    ensures Supply(Stored(m, b), a) - Debt(Stored(m, b), a) == Undebted(b, m, a)
  {
    var l := b.l.(assets := b.l.assets[m.quote := b.quote]);
    StoreAsset(b.l, m.quote, b.quote, a);
    StoreAsset(l, m.base, b.base, a);
  }

  /** A market's run keeps, for every asset, supply minus holdings and supply minus cover debt, but for
      its losses: forgiven debt stays in the supply; misbooked dust crosses from base to quote; base
      paid for nothing, and collateral or debt stored over, are gone; collateral let go of in a base other
      than asset 0 crosses from there. */
  lemma ExecuteKeeps(m: Market, e: Engine, a: AssetId)
    requires Ready(m, e) && Execute(m, e).Some?
    ensures var l, n, x := e.book.l, Execute(m, e).value, RunLosses(m, Primed(m, e), None);
      && Supply(n, a) - Holdings(n, a) == Supply(l, a) - Holdings(l, a) + LostOf(m, x, a)
      && Supply(n, a) - Debt(n, a) == Supply(l, a) - Debt(l, a) + ForgivenOf(m, x, a)
  {
    PrimedSync(m, e);
    RunKeeps(m, Primed(m, e), None, a);
    StoredCounts(m, Run(m, Primed(m, e), None).value.book, a);
  }

  // ---------- clean runs ----------

  predicate CleanRound(m: Market, e: Engine)
    requires e.bid.Some? && e.ask.Some?
  {
    match Decide(m, e.bid.value, e.ask.value, e.book.quote.IsMarketIssued())
    case Trade(bidRatio, askRatio) =>
      var f := FillOf(m, e.bid.value, e.ask.value, bidRatio, askRatio);
      Affordable(e.bid.value, e.ask.value, f) && Clean(m, e.book, e.bid.value, e.ask.value, f)
    case _ => true
  }

  /** Every fill of the run is clean. */
  predicate CleanRun(m: Market, e: Engine, last: Option<nat>)
    requires last.Some? ==> last.value == e.filled
    decreases Orders(e) + if last.None? then 1 else 0
  {
    var f := NextPair(m, e);
    NextPairTakes(m, e);
    if !Paired(f) || last == Some(f.filled) then true
    else
      CleanRound(m, f) &&
      match Match(m, f)
      case Continue(g) =>
        MatchTakesNone(m, f);
        CleanRun(m, g, Some(f.filled))
      case _ => true
  }

  lemma CleanRoundLosesNothing(m: Market, e: Engine)
    requires e.bid.Some? && e.ask.Some? && CleanRound(m, e)
    ensures RoundLosses(m, e) == NOTHING.(underwater := RoundLosses(m, e).underwater)
  {
    var d := Decide(m, e.bid.value, e.ask.value, e.book.quote.IsMarketIssued());
    if d.Trade? {
      CleanLosesNothing(m, e.book, e.bid.value, e.ask.value, FillOf(m, e.bid.value, e.ask.value, d.bidRatio, d.askRatio));
    }
  }

  lemma {:induction false} CleanRunLosesNothing(m: Market, e: Engine, last: Option<nat>)
    requires (last.Some? ==> last.value == e.filled) && CleanRun(m, e, last)
    ensures RunLosses(m, e, last) == NOTHING.(underwater := RunLosses(m, e, last).underwater)
    decreases Orders(e) + if last.None? then 1 else 0
  {
    var f := NextPair(m, e);
    NextPairTakes(m, e);
    if Paired(f) && last != Some(f.filled) && Match(m, f).Continue? {
      MatchTakesNone(m, f);
      CleanRoundLosesNothing(m, f);
      CleanRunLosesNothing(m, Match(m, f).next, Some(f.filled));
    }
  }

  /** Nothing misbooked, destroyed, shifted or forgiven. */
  predicate Booked(x: Losses) {
    x.underwater == 0 && x.misbooked == 0 && x.destroyed == 0 && x.shifted == 0
  }

  predicate RoundBooked(m: Market, e: Engine) {
    Paired(e) && Match(m, e).Continue? ==> Booked(RoundLosses(m, e))
  }

  predicate AllBooked(m: Market, rounds: seq<Engine>) {
    forall i :: 0 <= i < |rounds| ==> RoundBooked(m, rounds[i])
  }

  lemma BookedLater(m: Market, f: Engine, rest: seq<Engine>)
    ensures AllBooked(m, [f] + rest) <==> RoundBooked(m, f) && AllBooked(m, rest)
  {
    var all := [f] + rest;
    assert all[0] == f;
    assert forall i :: 0 <= i < |rest| ==> all[i + 1] == rest[i];
  }

  lemma BookedSum(x: Losses, y: Losses)
    ensures Booked(x.Plus(y)) <==> Booked(x) && Booked(y)
  {
  }

  /** A run has none of these losses exactly when no round of it has. */
  lemma {:induction false} BookedRun(m: Market, e: Engine, last: Option<nat>)
    requires InSync(m, e) && (last.Some? ==> last.value == e.filled && Spent(e))
    ensures Booked(RunLosses(m, e, last)) <==> AllBooked(m, Seen(m, e, last))
    decreases Orders(e) + if last.None? then 1 else 0
  {
    var f := NextPair(m, e);
    if last.Some? {
      SpentTakes(m, e);
    }
    if !Paired(f) || !Match(m, f).Continue? {
      RunStops(m, e, last, f);
    } else {
      var g := Match(m, f).next;
      RunStep(m, e, last, f, g);
      RoundSyncs(m, e, f, g);
      BookedRun(m, g, Some(f.filled));
      BookedLater(m, f, Seen(m, g, Some(f.filled)));
      BookedSum(RoundLosses(m, f), RunLosses(m, g, Some(f.filled)));
    }
  }

  /** A market run of clean fills conserves the base asset, keeps the quote asset's holdings exactly as
      well backed by cover debt as they were, and leaves of forgiven debt its supply. */
  lemma ExecuteConserves(m: Market, e: Engine)
    requires Ready(m, e) && Execute(m, e).Some? && CleanRun(m, Primed(m, e), None)
    ensures var l, n := e.book.l, Execute(m, e).value;
      && Supply(n, m.base) - Holdings(n, m.base) == Supply(l, m.base) - Holdings(l, m.base)
      && Holdings(n, m.quote) - Debt(n, m.quote) == Holdings(l, m.quote) - Debt(l, m.quote)
      && Supply(n, m.quote) - Holdings(n, m.quote) ==
           Supply(l, m.quote) - Holdings(l, m.quote) + RunLosses(m, Primed(m, e), None).underwater
  {
    CleanRunLosesNothing(m, Primed(m, e), None);
    ExecuteKeeps(m, e, m.base);
    ExecuteKeeps(m, e, m.quote);
  }

  // ---------- collisions ----------

  /** The book has this cover as the engine holds it. */
  predicate AsLoaded(l: Ledger, o: Order) {
    CollateralAt(l, o.key).collateral == o.collateral && CollateralAt(l, o.key).payoff == o.balance
  }

  ghost predicate CoversLoaded(m: Market, e: Engine) {
    && (forall i :: 0 <= i < |e.covers| ==> AsLoaded(e.book.l, e.covers[i]))
    && (e.ask.Some? && e.ask.value.kind.CoverOrder? && e.ask.value.balance > 0 ==> AsLoaded(e.book.l, e.ask.value))
  }

  /** The cover a filled short opens has a key of its own among those still to be taken. */
  predicate NoCollision(m: Market, e: Engine, f: Fill)
    requires e.bid.Some? && e.ask.Some? && Affordable(e.bid.value, e.ask.value, f)
  {
    e.bid.value.kind.ShortOrder? && f.bidPaid > 0 ==>
      match CoverKeyOf(m, e.bid.value, f.bidPaid, ShortGives(m, e.bid.value, f.shortCollateral) + f.askPaid)
      case None => true
      case Some(k) =>
        && (forall i :: 0 <= i < |e.covers| ==> e.covers[i].key != k)
        && (e.ask.value.kind.CoverOrder? ==> e.ask.value.key != k)
  }

  lemma BidSideCovers(m: Market, e: Engine, f: Fill, n: Book, k: OrderKey)
    requires Paired(e) && Affordable(e.bid.value, e.ask.value, f) && PayBidSide(m, e.book, e.bid.value, e.ask.value, f) == Some(n)
    requires e.bid.value.kind.BidOrder? || e.bid.value.kind.ShortOrder?
    requires NoCollision(m, e, f)
    requires (exists i :: 0 <= i < |e.covers| && e.covers[i].key == k) || (e.ask.value.kind.CoverOrder? && e.ask.value.key == k)
    ensures CollateralAt(n.l, k) == CollateralAt(e.book.l, k)
  {
    if e.bid.value.kind.ShortOrder? {
      PayShortCovers(e.book, m, e.bid.value, f, k);
    }
  }

  /** Without a collision a fill finds its cover as loaded, and leaves the others as they are. */
  lemma ExchangeLoaded(m: Market, e: Engine, f: Fill)
    requires Paired(e) && InSync(m, e) && Meets(m, e.book.l, e.bid.value, e.ask.value) && Affordable(e.bid.value, e.ask.value, f)
    requires CoversLoaded(m, e) && NoCollision(m, e, f) && (e.ask.value.kind.CoverOrder? ==> AsLoaded(e.book.l, e.ask.value))
    requires Exchange(m, e, f).Continue?
    ensures CoversLoaded(m, Exchange(m, e, f).next)
    ensures ExchangeLosses(m, e, f).staleCollateral == 0 && ExchangeLosses(m, e, f).stalePayoff == 0
  {
    var ask := e.ask.value;
    var n := PayBidSide(m, e.book, e.bid.value, ask, f).value;
    var g := Exchange(m, e, f).next;
    if ask.kind.CoverOrder? {
      BidSideCovers(m, e, f, n, ask.key);
      PayCoverCovers(n, m, ask, f.askPaid, f.askReceived, PaidPrincipal(m, ask, f), ask.key);
    }
    forall i | 0 <= i < |e.covers| ensures AsLoaded(g.book.l, e.covers[i]) {
      BidSideCovers(m, e, f, n, e.covers[i].key);
      if ask.kind.CoverOrder? {
        PayCoverCovers(n, m, ask, f.askPaid, f.askReceived, PaidPrincipal(m, ask, f), e.covers[i].key);
      }
      assert AsLoaded(e.book.l, e.covers[i]);
    }
  }

  lemma NextPairLoaded(m: Market, e: Engine)
    requires CoversLoaded(m, e) && forall i :: 0 <= i < |e.asks| ==> e.asks[i].kind.AskOrder?
    ensures var f := NextPair(m, e);
      CoversLoaded(m, f) && (Paired(f) && f.ask.value.kind.CoverOrder? ==> AsLoaded(f.book.l, f.ask.value))
  {
    var b := NextBid(m, e);
    assert b.covers == e.covers && b.ask == e.ask && b.book == e.book;
  }

  predicate RoundCollides(m: Market, e: Engine)
    requires e.bid.Some? && e.ask.Some?
  {
    match Decide(m, e.bid.value, e.ask.value, e.book.quote.IsMarketIssued())
    case Trade(bidRatio, askRatio) =>
      var f := FillOf(m, e.bid.value, e.ask.value, bidRatio, askRatio);
      Affordable(e.bid.value, e.ask.value, f) && !NoCollision(m, e, f)
    case _ => false
  }

  /** No short filled in the run opens a cover at the key of one still to be taken. */
  predicate CollisionFree(m: Market, e: Engine, last: Option<nat>)
    requires last.Some? ==> last.value == e.filled
    decreases Orders(e) + if last.None? then 1 else 0
  {
    var f := NextPair(m, e);
    NextPairTakes(m, e);
    if !Paired(f) || last == Some(f.filled) then true
    else
      !RoundCollides(m, f) &&
      match Match(m, f)
      case Continue(g) =>
        MatchTakesNone(m, f);
        CollisionFree(m, g, Some(f.filled))
      case _ => true
  }

  lemma RoundLoaded(m: Market, e: Engine)
    requires Paired(e) && InSync(m, e) && Meets(m, e.book.l, e.bid.value, e.ask.value) && CoversLoaded(m, e)
    requires e.ask.value.kind.CoverOrder? ==> AsLoaded(e.book.l, e.ask.value)
    requires !RoundCollides(m, e) && Match(m, e).Continue?
    ensures CoversLoaded(m, Match(m, e).next)
    ensures RoundLosses(m, e).staleCollateral == 0 && RoundLosses(m, e).stalePayoff == 0
  {
    var d := Decide(m, e.bid.value, e.ask.value, e.book.quote.IsMarketIssued());
    if d.Trade? {
      TermsHold(m, e, d.bidRatio, d.askRatio);
      ExchangeLoaded(m, e, FillOf(m, e.bid.value, e.ask.value, d.bidRatio, d.askRatio));
    }
  }

  /** One round of such a run. */
  lemma LoadedStep(m: Market, e: Engine, f: Engine, g: Engine)
    requires InSync(m, e) && CoversLoaded(m, e) && f == NextPair(m, e) && Paired(f)
    requires !RoundCollides(m, f) && Match(m, f) == Continue(g)
    ensures InSync(m, g)
    ensures CoversLoaded(m, g)
    ensures RoundLosses(m, f).staleCollateral == 0 && RoundLosses(m, f).stalePayoff == 0
  {
    NextPairSync(m, e);
    NextPairLoaded(m, e);
    MatchSync(m, f);
    RoundLoaded(m, f);
  }

  lemma CollisionStep(m: Market, e: Engine, last: Option<nat>, f: Engine, g: Engine)
    requires last.Some? ==> last.value == e.filled
    requires f == NextPair(m, e) && Paired(f) && last != Some(f.filled) && Match(m, f) == Continue(g)
    ensures g.filled == f.filled
    ensures CollisionFree(m, e, last) ==> !RoundCollides(m, f) && CollisionFree(m, g, Some(f.filled))
  {
    MatchTakesNone(m, f);
  }

  /** Covers that start as loaded lose nothing to overwriting in a run without collisions. */
  lemma {:induction false} NothingStale(m: Market, e: Engine, last: Option<nat>)
    requires InSync(m, e) && CoversLoaded(m, e) && (last.Some? ==> last.value == e.filled) && CollisionFree(m, e, last)
    ensures RunLosses(m, e, last).staleCollateral == 0 && RunLosses(m, e, last).stalePayoff == 0
    decreases Orders(e) + if last.None? then 1 else 0
  {
    var f := NextPair(m, e);
    NextPairTakes(m, e);
    if !Paired(f) || last == Some(f.filled) || !Match(m, f).Continue? {
      RunStops(m, e, last, f);
    } else {
      var g := Match(m, f).next;
      RunStep(m, e, last, f, g);
      CollisionStep(m, e, last, f, g);
      LoadedStep(m, e, f, g);
      NothingStale(m, g, Some(f.filled));
    }
  }

  // ---------- what can be told before the run ----------

  /** No short can trade: there is no feed, or there is no short. */
  predicate ShortsIdle(m: Market, e: Engine) {
    m.feed.None? || (e.shorts == [] && (e.bid.Some? ==> e.bid.value.kind.BidOrder?))
  }

  /** No cover can trade: there is no feed, or the first cover, if any, is not called. */
  predicate CoversIdle(m: Market, e: Engine) {
    m.feed.None? || ((e.covers == [] || !Callable(m, e.covers[0])) && (e.ask.Some? ==> e.ask.value.kind.AskOrder?))
  }

  predicate KindsFirst(e: Engine) {
    (e.bids != [] ==> e.bids[0].kind.BidOrder?) && (e.asks != [] ==> e.asks[0].kind.AskOrder?)
  }

  lemma NextBidIdle(m: Market, e: Engine)
    requires KindsFirst(e)
    ensures ShortsIdle(m, e) ==> ShortsIdle(m, NextBid(m, e))
    ensures CoversIdle(m, e) ==> CoversIdle(m, NextBid(m, e))
    ensures NextBid(m, e).asks == e.asks
  {
  }

  lemma NextAskIdle(m: Market, e: Engine)
    requires e.asks != [] ==> e.asks[0].kind.AskOrder?
    ensures ShortsIdle(m, e) ==> ShortsIdle(m, NextAsk(m, e))
    ensures CoversIdle(m, e) ==> CoversIdle(m, NextAsk(m, e))
  {
  }

  lemma NextPairIdle(m: Market, e: Engine)
    requires KindsFirst(e)
    ensures ShortsIdle(m, e) ==> ShortsIdle(m, NextPair(m, e))
    ensures CoversIdle(m, e) ==> CoversIdle(m, NextPair(m, e))
  {
    NextBidIdle(m, e);
    if NextBid(m, e).bid.Some? {
      NextAskIdle(m, NextBid(m, e));
    }
  }

  lemma MatchIdle(m: Market, e: Engine)
    requires Paired(e) && Match(m, e).Continue?
    ensures ShortsIdle(m, e) ==> ShortsIdle(m, Match(m, e).next)
    ensures CoversIdle(m, e) ==> CoversIdle(m, Match(m, e).next)
  {
  }

  lemma IdleShortsRound(m: Market, e: Engine)
    requires Paired(e) && InSync(m, e) && Meets(m, e.book.l, e.bid.value, e.ask.value) && ShortsIdle(m, e)
    ensures RoundLosses(m, e).misbooked == 0 && RoundLosses(m, e).destroyed == 0 && !RoundCollides(m, e)
  {
  }

  lemma IdleCoversRound(m: Market, e: Engine)
    requires Paired(e) && InSync(m, e) && CoversIdle(m, e)
    ensures RoundLosses(m, e) == NOTHING.(misbooked := RoundLosses(m, e).misbooked, destroyed := RoundLosses(m, e).destroyed)
  {
  }

  /** Where no short can trade, nothing is misbooked or destroyed. */
  lemma {:induction false} IdleShortsLose(m: Market, e: Engine, last: Option<nat>)
    requires InSync(m, e) && ShortsIdle(m, e) && (last.Some? ==> last.value == e.filled)
    ensures RunLosses(m, e, last).misbooked == 0 && RunLosses(m, e, last).destroyed == 0
    decreases Orders(e) + if last.None? then 1 else 0
  {
    var f := NextPair(m, e);
    NextPairSync(m, e);
    NextPairIdle(m, e);
    if !Paired(f) || last == Some(f.filled) || !Match(m, f).Continue? {
      RunStops(m, e, last, f);
    } else {
      var g := Match(m, f).next;
      RunStep(m, e, last, f, g);
      MatchSync(m, f);
      IdleShortsRound(m, f);
      MatchIdle(m, f);
      IdleShortsLose(m, g, Some(f.filled));
    }
  }

  /** And no cover is opened at the key of another. */
  lemma {:induction false} IdleShortsCollide(m: Market, e: Engine, last: Option<nat>)
    requires InSync(m, e) && ShortsIdle(m, e) && (last.Some? ==> last.value == e.filled)
    ensures CollisionFree(m, e, last)
    decreases Orders(e) + if last.None? then 1 else 0
  {
    var f := NextPair(m, e);
    NextPairTakes(m, e);
    NextPairSync(m, e);
    NextPairIdle(m, e);
    if Paired(f) && last != Some(f.filled) {
      IdleShortsRound(m, f);
      if Match(m, f).Continue? {
        MatchTakesNone(m, f);
        MatchSync(m, f);
        MatchIdle(m, f);
        IdleShortsCollide(m, Match(m, f).next, Some(f.filled));
      }
    }
  }

  /** Where no cover can trade, no debt is forgiven and nothing stored over. */
  lemma {:induction false} IdleCoversLose(m: Market, e: Engine, last: Option<nat>)
    requires InSync(m, e) && CoversIdle(m, e) && (last.Some? ==> last.value == e.filled)
    ensures var x := RunLosses(m, e, last);
      x == NOTHING.(misbooked := x.misbooked, destroyed := x.destroyed)
    decreases Orders(e) + if last.None? then 1 else 0
  {
    var f := NextPair(m, e);
    NextPairSync(m, e);
    NextPairIdle(m, e);
    if !Paired(f) || last == Some(f.filled) || !Match(m, f).Continue? {
      RunStops(m, e, last, f);
    } else {
      var g := Match(m, f).next;
      RunStep(m, e, last, f, g);
      MatchSync(m, f);
      IdleCoversRound(m, f);
      MatchIdle(m, f);
      IdleCoversLose(m, g, Some(f.filled));
    }
  }

  lemma PrimedIdle(m: Market, e: Engine)
    requires Fresh(e) && InSync(m, e)
    ensures ShortsIdle(m, e) ==> ShortsIdle(m, Primed(m, e))
    ensures CoversIdle(m, e) ==> CoversIdle(m, Primed(m, e))
    ensures CoversLoaded(m, e) ==> CoversLoaded(m, Primed(m, e))
  {
    NextBidIdle(m, e);
    NextAskIdle(m, NextBid(m, e));
  }

  /** What a market's run keeps can be told from how it starts. Where no short can trade, and covers are as
      the book has them, the quote asset's holdings stay exactly as well backed by cover debt as they were,
      and the base asset is conserved, unless covers of a base other than asset 0 trade. Where no cover can
      trade, the quote asset's supply moves with cover debt. Where neither can, nothing is lost at all, and
      both assets are conserved. */
  lemma ExecuteBacks(m: Market, e: Engine)
    requires Ready(m, e) && Execute(m, e).Some?
    ensures var l, n := e.book.l, Execute(m, e).value;
      && (ShortsIdle(m, e) && CoversLoaded(m, e) ==>
           && (m.base == 0 || CoversIdle(m, e) ==> Supply(n, m.base) - Holdings(n, m.base) == Supply(l, m.base) - Holdings(l, m.base))
           && Holdings(n, m.quote) - Debt(n, m.quote) == Holdings(l, m.quote) - Debt(l, m.quote))
      && (CoversIdle(m, e) ==>
           Supply(n, m.quote) - Debt(n, m.quote) == Supply(l, m.quote) - Debt(l, m.quote))
      && (ShortsIdle(m, e) && CoversIdle(m, e) ==>
           && RunLosses(m, Primed(m, e), None) == NOTHING
           && Supply(n, m.base) - Holdings(n, m.base) == Supply(l, m.base) - Holdings(l, m.base)
           && Supply(n, m.quote) - Holdings(n, m.quote) == Supply(l, m.quote) - Holdings(l, m.quote))
  {
    PrimedSync(m, e);
    PrimedIdle(m, e);
    ExecuteKeeps(m, e, m.base);
    ExecuteKeeps(m, e, m.quote);
    if ShortsIdle(m, e) {
      IdleShortsLose(m, Primed(m, e), None);
      IdleShortsCollide(m, Primed(m, e), None);
      if CoversLoaded(m, e) {
        NothingStale(m, Primed(m, e), None);
      }
    }
    if CoversIdle(m, e) {
      IdleCoversLose(m, Primed(m, e), None);
    }
  }
}
