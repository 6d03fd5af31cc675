/** What a market's run leaves alone: votes and stake, who issued the assets, and the orders of every
    other market, so that one block's markets can run one after the other. */
module MarketFrame {
  import opened Options
  import opened Ledgers
  import opened Conservation
  import opened Matching
  import opened Settlement
  import opened Backing

  predicate Foreign(m: Market, k: OrderKey) {
    k.price.quote != m.quote || k.price.base != m.base
  }

  predicate SameAt(l: Ledger, n: Ledger, k: OrderKey) {
    Get(n.bids, k) == Get(l.bids, k) && Get(n.asks, k) == Get(l.asks, k) && Get(n.shorts, k) == Get(l.shorts, k)
  }

  /** From book b to book n: accounts, slates, asset records and issuers are the same, so is the stake
      behind delegate d, no slate is in use that was not known, no order is stored that no operation could
      have stored, and an order of another market stands. */
  ghost predicate Leaves(m: Market, b: Book, n: Book, k: OrderKey, d: AccountId, negatives: bool) {
    && n.l.accounts == b.l.accounts && n.l.slates == b.l.slates && n.l.assets == b.l.assets
    && n.l.lastAccount == b.l.lastAccount && n.l.lastAsset == b.l.lastAsset
    && n.quote.issuer == b.quote.issuer && n.base.issuer == b.base.issuer
    && Stake(n.l, d, negatives) == Stake(b.l, d, negatives)
    && (SlatesKnown(b.l) ==> SlatesKnown(n.l))
    && (Listable(b.l) ==> Listable(n.l))
    && (Foreign(m, k) ==> SameAt(b.l, n.l, k))
  }

  lemma LeavesOn(m: Market, b: Book, c: Book, n: Book, k: OrderKey, d: AccountId, negatives: bool)
    requires Leaves(m, b, c, k, d, negatives) && Leaves(m, c, n, k, d, negatives)
    ensures Leaves(m, b, n, k, d, negatives)
  {
  }

  // ---------- payments ----------

  /** Proceeds carry no stake: they go to a balance that supports no slate. */
  lemma PayOutLeaves(m: Market, b: Book, owner: nat, x: AssetId, amount: nat, k: OrderKey, d: AccountId, negatives: bool)
    ensures Leaves(m, b, b.(l := PayOut(b.l, m, owner, x, amount)), k, d, negatives)
  {
    var at := Condition(owner, x, 0);
    var r := PayOut(b.l, m, owner, x, amount).balances[at];
    StoreBalanceStake(b.l, at, r, r.amount - BalanceAt(b.l, at), d, negatives);
  }

  lemma PayBidLeavesRest(m: Market, b: Book, o: Order, paid: nat, received: nat, k: OrderKey, d: AccountId, negatives: bool)
    requires paid <= o.balance && !Foreign(m, o.key) && o.key.price.ratio > 0
    ensures Leaves(m, b, PayBid(b, m, o, paid, received), k, d, negatives)
  {
    PayOutLeaves(m, b, o.key.owner, m.base, received, k, d, negatives);
  }

  lemma PayShortLeavesRest(m: Market, b: Book, o: Order, f: Fill, k: OrderKey, d: AccountId, negatives: bool)
    requires f.shortCollateral <= o.balance && PayShort(b, m, o, f).Some? && !Foreign(m, o.key) && m.base == 0
    ensures Leaves(m, b, PayShort(b, m, o, f).value, k, d, negatives)
  {
  }

  lemma PayAskLeavesRest(m: Market, b: Book, o: Order, paid: nat, received: nat, onQuote: bool, k: OrderKey, d: AccountId, negatives: bool)
    requires paid <= o.balance && !Foreign(m, o.key) && o.key.price.ratio > 0
    ensures Leaves(m, b, PayAsk(b, m, o, paid, received, onQuote), k, d, negatives)
  {
    PayOutLeaves(m, b, o.key.owner, m.quote, received, k, d, negatives);
  }

  lemma PayCoverLeavesRest(m: Market, b: Book, o: Order, paid: nat, received: nat, principal: nat, k: OrderKey, d: AccountId, negatives: bool)
    requires paid <= o.collateral && principal <= o.balance && principal <= received
    ensures Leaves(m, b, PayCover(b, m, o, paid, received, principal), k, d, negatives)
  {
    var left := o.collateral - paid;
    PayOutLeaves(m, b, o.key.owner, m.base, left - CallFee(m, o, left), k, d, negatives);
  }

  // ---------- rounds ----------

  lemma ExchangeLeaves(m: Market, e: Engine, f: Fill, k: OrderKey, d: AccountId, negatives: bool)
    requires Paired(e) && Meets(m, e.book.l, e.bid.value, e.ask.value) && Exchange(m, e, f).Continue?
    ensures Leaves(m, e.book, Exchange(m, e, f).next.book, k, d, negatives)
  {
    var bid, ask := e.bid.value, e.ask.value;
    var n := PayBidSide(m, e.book, bid, ask, f).value;
    if bid.kind.ShortOrder? {
      PayShortLeavesRest(m, e.book, bid, f, k, d, negatives);
    } else {
      PayBidLeavesRest(m, e.book, bid, f.bidPaid, f.bidReceived, k, d, negatives);
    }
    if ask.kind.CoverOrder? {
      PayCoverLeavesRest(m, n, ask, f.askPaid, f.askReceived, PaidPrincipal(m, ask, f), k, d, negatives);
    } else {
      PayAskLeavesRest(m, n, ask, f.askPaid, f.askReceived, bid.kind.ShortOrder?, k, d, negatives);
    }
  }

  lemma MatchLeaves(m: Market, e: Engine, k: OrderKey, d: AccountId, negatives: bool)
    requires Paired(e) && Meets(m, e.book.l, e.bid.value, e.ask.value) && Match(m, e).Continue?
    ensures Leaves(m, e.book, Match(m, e).next.book, k, d, negatives)
  {
    var w := Decide(m, e.bid.value, e.ask.value, e.book.quote.IsMarketIssued());
    if w.Trade? {
      ExchangeLeaves(m, e, FillOf(m, e.bid.value, e.ask.value, w.bidRatio, w.askRatio), k, d, negatives);
    }
  }

  lemma {:induction false} RunLeaves(m: Market, e: Engine, last: Option<nat>, k: OrderKey, d: AccountId, negatives: bool)
    requires InSync(m, e) && (last.Some? ==> last.value == e.filled) && Run(m, e, last).Some?
    ensures Leaves(m, e.book, Run(m, e, last).value.book, k, d, negatives)
    decreases Orders(e) + if last.None? then 1 else 0
  {
    var f := NextPair(m, e);
    NextPairTakes(m, e);
    NextPairSync(m, e);
    if Paired(f) && Match(m, f).Continue? {
      var g := Match(m, f).next;
      MatchTakesNone(m, f);
      MatchSync(m, f);
      MatchLeaves(m, f, k, d, negatives);
      RunLeaves(m, g, Some(f.filled), k, d, negatives);
      LeavesOn(m, e.book, g.book, Run(m, g, Some(f.filled)).value.book, k, d, negatives);
    }
  }

  /** The engine's two records differ from the ledger's in supply and fees alone. */
  ghost predicate Records(m: Market, l: Ledger, b: Book) {
    && m.quote in l.assets && b.quote.issuer == l.assets[m.quote].issuer
    && m.base in l.assets && b.base.issuer == l.assets[m.base].issuer
  }

  lemma StoredAssets(m: Market, b: Book)
    requires Records(m, b.l, b)
    ensures Stored(m, b).assets.Keys == b.l.assets.Keys
    ensures forall a :: a in b.l.assets ==> Stored(m, b).assets[a].issuer == b.l.assets[a].issuer
  {
  }

  lemma StoredExtends(m: Market, b: Book)
    requires Records(m, b.l, b) && WellFormed(b.l)
    ensures Extends(b.l, Stored(m, b)) && (Listable(b.l) ==> Listable(Stored(m, b)))
  {
    StoredAssets(m, b);
  }

  /** A market's run leaves every delegate's votes, pay and stake, keeps the ledger well formed, and moves no
      order of another market. */
  lemma ExecuteLeaves(m: Market, e: Engine, k: OrderKey, d: AccountId, negatives: bool)
    requires Ready(m, e) && WellFormed(e.book.l) && Execute(m, e).Some?
    ensures var l, n := e.book.l, Execute(m, e).value;
      && ExtraVotes(n, d, negatives) == ExtraVotes(l, d, negatives)
      && Extends(l, n) && (Listable(l) ==> Listable(n))
      && n.assets.Keys == l.assets.Keys
      && (Foreign(m, k) ==> SameAt(l, n, k))
  {
    PrimedSync(m, e);
    RunLeaves(m, Primed(m, e), None, k, d, negatives);
    BookLeaves(m, e.book, Run(m, Primed(m, e), None).value.book, k, d, negatives);
  }

  lemma BookLeaves(m: Market, b: Book, n: Book, k: OrderKey, d: AccountId, negatives: bool)
    requires Leaves(m, b, n, k, d, negatives) && WellFormed(b.l) && Records(m, b.l, b)
    ensures var r := Stored(m, n);
      && ExtraVotes(r, d, negatives) == ExtraVotes(b.l, d, negatives)
      && Extends(b.l, r) && (Listable(b.l) ==> Listable(r))
      && r.assets.Keys == b.l.assets.Keys
      && (Foreign(m, k) ==> SameAt(b.l, r, k))
  {
    StoredExtends(m, n);
    StoredAssets(m, n);
  }
}
