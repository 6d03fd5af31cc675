/** Who a market's run pays: each owner's balances after it are those before and what its own orders earned. */
module Earnings {
  import opened Options
  import opened Arithmetic
  import opened Prices
  import opened Ledgers
  import opened Matching
  import opened Settlement
  import opened Backing

  // ---------- one fill ----------

  /** What the owner of a cover gets back: once it owes nothing, what is left of its collateral, less a twentieth
      if its term has not run out. */
  function Returned(m: Market, ask: Order, paid: nat, principal: nat): nat
    requires paid <= ask.collateral && principal <= ask.balance
  {
    var left := ask.collateral - paid;
    if principal < ask.balance then 0
    else if ask.expiration > m.now then left - left / 20
    else left
  }

  /** What a fill adds to a balance: to the bidder's of the base asset, unless it is a short, what the bid received;
      to the asker's of the quote asset what the ask received; and to the owner of a cover what comes back of its
      collateral. */
  function Earned(m: Market, bid: Order, ask: Order, f: Fill, k: Condition): nat
    requires Affordable(bid, ask, f)
  {
    (if bid.kind.BidOrder? && k == Condition(bid.key.owner, m.base, 0) then f.bidReceived else 0) +
    (if ask.kind.AskOrder? && k == Condition(ask.key.owner, m.quote, 0) then f.askReceived else 0) +
    (if ask.kind.CoverOrder? && k == Condition(ask.key.owner, m.base, 0)
     then Returned(m, ask, f.askPaid, PaidPrincipal(m, ask, f)) else 0)
  }

  /** A payment goes to the owner's balance that supports no slate, and to no other. */
  lemma PayOutPays(l: Ledger, m: Market, owner: nat, a: AssetId, amount: nat, k: Condition)
    ensures BalanceAt(PayOut(l, m, owner, a, amount), k) == BalanceAt(l, k) + if k == Condition(owner, a, 0) then amount else 0
  {
  }

  lemma BidPays(m: Market, b: Book, bid: Order, paid: nat, received: nat, k: Condition)
    requires paid <= bid.balance
    ensures BalanceAt(PayBid(b, m, bid, paid, received).l, k) ==
      BalanceAt(b.l, k) + if k == Condition(bid.key.owner, m.base, 0) then received else 0
  {
    PayOutPays(b.l, m, bid.key.owner, m.base, received, k);
  }

  lemma ShortPays(m: Market, b: Book, short: Order, f: Fill, k: Condition)
    requires f.shortCollateral <= short.balance && PayShort(b, m, short, f).Some?
    ensures BalanceAt(PayShort(b, m, short, f).value.l, k) == BalanceAt(b.l, k)
  {
  }

  lemma AskPays(m: Market, b: Book, ask: Order, paid: nat, received: nat, onQuote: bool, k: Condition)
    requires paid <= ask.balance
    ensures BalanceAt(PayAsk(b, m, ask, paid, received, onQuote).l, k) ==
      BalanceAt(b.l, k) + if k == Condition(ask.key.owner, m.quote, 0) then received else 0
  {
    PayOutPays(b.l, m, ask.key.owner, m.quote, received, k);
  }

  lemma Twentieth(left: nat)
    ensures left * 5000 / 100000 == left / 20
  {
    DivBounds(left, 20);
    DivAtLeast(left * 5000, 100000, left / 20);
    DivBounds(left * 5000, 100000);
  }

  lemma CoverPays(m: Market, b: Book, ask: Order, paid: nat, received: nat, principal: nat, k: Condition)
    requires paid <= ask.collateral && principal <= ask.balance && principal <= received
    ensures BalanceAt(PayCover(b, m, ask, paid, received, principal).l, k) ==
      BalanceAt(b.l, k) + if k == Condition(ask.key.owner, m.base, 0) then Returned(m, ask, paid, principal) else 0
  {
    var left := ask.collateral - paid;
    Twentieth(left);
    PayOutPays(b.l, m, ask.key.owner, m.base, left - CallFee(m, ask, left), k);
  }

  /** One fill pays the owners of its two orders what they earned, and nobody else. */
  lemma FillPays(m: Market, b: Book, bid: Order, ask: Order, f: Fill, k: Condition)
    requires Affordable(bid, ask, f) && PayBidSide(m, b, bid, ask, f).Some?
    requires (bid.kind.BidOrder? || bid.kind.ShortOrder?) && (ask.kind.AskOrder? || ask.kind.CoverOrder?)
    ensures BalanceAt(PayAskSide(m, PayBidSide(m, b, bid, ask, f).value, bid, ask, f).l, k) ==
      BalanceAt(b.l, k) + Earned(m, bid, ask, f, k)
  {
    var n := PayBidSide(m, b, bid, ask, f).value;
    if bid.kind.ShortOrder? {
      ShortPays(m, b, bid, f, k);
    } else {
      BidPays(m, b, bid, f.bidPaid, f.bidReceived, k);
    }
    if ask.kind.CoverOrder? {
      CoverPays(m, n, ask, f.askPaid, f.askReceived, PaidPrincipal(m, ask, f), k);
    } else {
      AskPays(m, n, ask, f.askPaid, f.askReceived, bid.kind.ShortOrder?, k);
    }
  }

  // ---------- a run ----------

  /** What a round adds to a balance: nothing, unless its two orders trade. */
  function RoundEarned(m: Market, e: Engine, k: Condition): nat
    requires Paired(e)
  {
    match Decide(m, e.bid.value, e.ask.value, e.book.quote.IsMarketIssued())
    case Trade(bidRatio, askRatio) =>
      var f := FillOf(m, e.bid.value, e.ask.value, bidRatio, askRatio);
      if Affordable(e.bid.value, e.ask.value, f) then Earned(m, e.bid.value, e.ask.value, f, k) else 0
    case _ => 0
  }

  function EarnedIn(m: Market, rounds: seq<Engine>, k: Condition): nat
    requires forall i :: 0 <= i < |rounds| ==> Paired(rounds[i])
  {
    if rounds == [] then 0 else RoundEarned(m, rounds[0], k) + EarnedIn(m, rounds[1..], k)
  }

  lemma RoundPays(m: Market, e: Engine, k: Condition)
    requires Paired(e) && Meets(m, e.book.l, e.bid.value, e.ask.value) && Match(m, e).Continue?
    ensures BalanceAt(Match(m, e).next.book.l, k) == BalanceAt(e.book.l, k) + RoundEarned(m, e, k)
  {
    var d := Decide(m, e.bid.value, e.ask.value, e.book.quote.IsMarketIssued());
    if d.Trade? {
      FillPays(m, e.book, e.bid.value, e.ask.value, FillOf(m, e.bid.value, e.ask.value, d.bidRatio, d.askRatio), k);
    }
  }

  /** The last round of a run that ends well earns nothing if it changes nothing. */
  lemma HaltEarns(m: Market, e: Engine, k: Condition)
    requires Paired(e) && Match(m, e).Halt?
    ensures RoundEarned(m, e, k) == 0 && Match(m, e).end == e
  {
  }

  lemma {:induction false} RunPays(m: Market, e: Engine, last: Option<nat>, k: Condition)
    requires InSync(m, e) && (last.Some? ==> last.value == e.filled) && Run(m, e, last).Some?
    ensures BalanceAt(Run(m, e, last).value.book.l, k) == BalanceAt(e.book.l, k) + EarnedIn(m, Seen(m, e, last), k)
    decreases Orders(e) + if last.None? then 1 else 0
  {
    var f := NextPair(m, e);
    NextPairTakes(m, e);
    if !Paired(f) || !Match(m, f).Continue? {
      RunStops(m, e, last, f);
      if Paired(f) {
        HaltEarns(m, f, k);
      }
    } else {
      var g := Match(m, f).next;
      RunGoesOn(m, e, last, f);
      RunStep(m, e, last, f, g);
      NextPairSync(m, e);
      MatchSync(m, f);
      RoundPays(m, f, k);
      RunPays(m, g, Some(f.filled), k);
    }
  }

  lemma RunGoesOn(m: Market, e: Engine, last: Option<nat>, f: Engine)
    requires last.Some? ==> last.value == e.filled
    requires f == NextPair(m, e) && Paired(f) && Run(m, e, last).Some?
    ensures last != Some(f.filled)
  {
  }

  /** Each balance after a market's run is what it was and what the rounds of the run earned for it. */
  lemma ExecutePays(m: Market, e: Engine, k: Condition)
    requires Ready(m, e) && Execute(m, e).Some?
    ensures BalanceAt(Execute(m, e).value, k) == BalanceAt(e.book.l, k) + EarnedIn(m, Seen(m, Primed(m, e), None), k)
  {
    PrimedSync(m, e);
    RunPays(m, Primed(m, e), None, k);
  }

  // ---------- nobody else ----------

  /** No bid, ask or cover still to be taken, or at hand, is this owner's. */
  ghost predicate Absent(e: Engine, owner: nat) {
    && (forall i :: 0 <= i < |e.bids| ==> e.bids[i].key.owner != owner)
    && (forall i :: 0 <= i < |e.asks| ==> e.asks[i].key.owner != owner)
    && (forall i :: 0 <= i < |e.covers| ==> e.covers[i].key.owner != owner)
    && (e.bid.Some? && e.bid.value.kind.BidOrder? ==> e.bid.value.key.owner != owner)
    && (e.ask.Some? ==> e.ask.value.key.owner != owner)
  }

  lemma NextBidAbsent(m: Market, e: Engine, owner: nat)
    requires Absent(e, owner) && forall i :: 0 <= i < |e.shorts| ==> e.shorts[i].kind.ShortOrder?
    ensures Absent(NextBid(m, e), owner)
  {
  }

  lemma NextAskAbsent(m: Market, e: Engine, owner: nat)
    requires Absent(e, owner)
    ensures Absent(NextAsk(m, e), owner)
  {
  }

  lemma NextPairAbsent(m: Market, e: Engine, owner: nat)
    requires InSync(m, e) && Absent(e, owner)
    ensures Absent(NextPair(m, e), owner)
  {
    NextBidAbsent(m, e, owner);
    if NextBid(m, e).bid.Some? {
      NextAskAbsent(m, NextBid(m, e), owner);
    }
  }

  lemma MatchAbsent(m: Market, e: Engine, owner: nat)
    requires Paired(e) && Absent(e, owner) && Match(m, e).Continue?
    ensures Absent(Match(m, e).next, owner)
  {
  }

  lemma RoundAbsent(m: Market, e: Engine, k: Condition)
    requires Paired(e) && (Absent(e, k.owner) || k.slate != 0 || k.asset !in {m.base, m.quote})
    ensures RoundEarned(m, e, k) == 0
  {
  }

  lemma {:induction false} RunAbsent(m: Market, e: Engine, last: Option<nat>, k: Condition)
    requires InSync(m, e) && (last.Some? ==> last.value == e.filled)
    requires Absent(e, k.owner) || k.slate != 0 || k.asset !in {m.base, m.quote}
    ensures EarnedIn(m, Seen(m, e, last), k) == 0
    decreases Orders(e) + if last.None? then 1 else 0
  {
    var f := NextPair(m, e);
    NextPairTakes(m, e);
    NextPairSync(m, e);
    if Absent(e, k.owner) {
      NextPairAbsent(m, e, k.owner);
    }
    if Paired(f) {
      RoundAbsent(m, f, k);
    }
    if !Paired(f) || last == Some(f.filled) || !Match(m, f).Continue? {
      RunStops(m, e, last, f);
    } else {
      var g := Match(m, f).next;
      RunStep(m, e, last, f, g);
      MatchSync(m, f);
      if Absent(e, k.owner) {
        MatchAbsent(m, f, k.owner);
      }
      RunAbsent(m, g, Some(f.filled), k);
    }
  }

  /** A run leaves the balances of an owner without bid, ask or cover in the market, those that support a
      slate, and those in other assets. */
  lemma OthersUnpaid(m: Market, e: Engine, k: Condition)
    requires Ready(m, e) && Execute(m, e).Some?
    requires Absent(e, k.owner) || k.slate != 0 || k.asset !in {m.base, m.quote}
    ensures BalanceAt(Execute(m, e).value, k) == BalanceAt(e.book.l, k)
  {
    PrimedSync(m, e);
    if Absent(e, k.owner) {
      NextBidAbsent(m, e, k.owner);
      NextAskAbsent(m, NextBid(m, e), k.owner);
    }
    RunAbsent(m, Primed(m, e), None, k);
    ExecutePays(m, e, k);
  }
}
