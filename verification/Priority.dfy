/** Who goes first: over a whole run of the matching loop the orders at hand come from two lines that
    are fixed by the orders the market starts with. */
module Priority {
  import opened Options
  import opened Matching
  import opened Backing

  // ---------- the two lines ----------

  /** Bids and shorts in turn: a short goes ahead of a bid that is below the feed. */
  function BidLine(m: Market, bids: seq<Order>, shorts: seq<Order>): seq<Order> {
    if bids == [] then shorts
    else if m.feed.Some? && bids[0].key.price.ratio < m.feed.value && shorts != [] then [shorts[0]] + BidLine(m, bids, shorts[1..])
    else [bids[0]] + BidLine(m, bids[1..], shorts)
  }

  /** The covers up to the first that is not called. */
  function Called(m: Market, covers: seq<Order>): seq<Order> {
    if covers != [] && Callable(m, covers[0]) then [covers[0]] + Called(m, covers[1..]) else []
  }

  function AskLine(m: Market, covers: seq<Order>, asks: seq<Order>): seq<Order> {
    Called(m, covers) + asks
  }

  // ---------- one step ----------

  /** What is left of a line once the order at hand, if any, has been taken from it. */
  ghost predicate InTurn(all: seq<Order>, left: seq<Order>, hand: Option<Order>) {
    && |left| <= |all| && all[|all| - |left|..] == left
    && (hand.Some? ==>
         |left| < |all| && var o := all[|all| - |left| - 1]; o.key == hand.value.key && o.kind == hand.value.kind)
  }

  ghost predicate BidInTurn(m: Market, start: Engine, e: Engine) {
    InTurn(BidLine(m, start.bids, start.shorts), BidLine(m, e.bids, e.shorts), e.bid)
  }

  ghost predicate AskInTurn(m: Market, start: Engine, e: Engine) {
    InTurn(AskLine(m, start.covers, start.asks), AskLine(m, e.covers, e.asks), e.ask)
  }

  lemma TakeNext(all: seq<Order>, left: seq<Order>, hand: Option<Order>)
    requires InTurn(all, left, hand) && left != []
    ensures InTurn(all, left[1..], Some(left[0]))
  {
    assert all[|all| - |left|] == left[0];
    assert all[|all| - |left| + 1..] == left[1..];
  }

  lemma NextBidInTurn(m: Market, start: Engine, e: Engine)
    requires BidInTurn(m, start, e)
    ensures BidInTurn(m, start, NextBid(m, e))
  {
    var f := NextBid(m, e);
    var left := BidLine(m, e.bids, e.shorts);
    if f.filled != e.filled && f.bid.Some? {
      assert left != [] && f.bid == Some(left[0]) && BidLine(m, f.bids, f.shorts) == left[1..];
      TakeNext(BidLine(m, start.bids, start.shorts), left, e.bid);
    }
  }

  lemma NextAskInTurn(m: Market, start: Engine, e: Engine)
    requires AskInTurn(m, start, e) && e.bid.Some?
    ensures AskInTurn(m, start, NextAsk(m, e))
  {
    var f := NextAsk(m, e);
    var left := AskLine(m, e.covers, e.asks);
    if f.filled != e.filled {
      if f.ask.Some? {
        assert left != [] && f.ask == Some(left[0]) && AskLine(m, f.covers, f.asks) == left[1..];
        TakeNext(AskLine(m, start.covers, start.asks), left, e.ask);
      } else {
        assert left == [] == AskLine(m, f.covers, f.asks);
      }
    }
  }

  /** A round leaves both lines, and each order at hand keeps its place or is dropped. */
  lemma MatchKeepsHands(m: Market, e: Engine)
    requires Paired(e) && Match(m, e).Continue?
    ensures var g := Match(m, e).next;
      && g.bids == e.bids && g.shorts == e.shorts && g.asks == e.asks && g.covers == e.covers
      && (g.bid.Some? ==> g.bid.value.key == e.bid.value.key && g.bid.value.kind == e.bid.value.kind)
      && (g.ask.Some? ==> g.ask.value.key == e.ask.value.key && g.ask.value.kind == e.ask.value.kind)
  {
  }

  lemma MatchInTurn(m: Market, start: Engine, e: Engine)
    requires Paired(e) && Match(m, e).Continue? && BidInTurn(m, start, e) && AskInTurn(m, start, e)
    ensures BidInTurn(m, start, Match(m, e).next) && AskInTurn(m, start, Match(m, e).next)
  {
    MatchKeepsHands(m, e);
  }

  // ---------- the whole run ----------

  ghost predicate BothInTurn(m: Market, start: Engine, f: Engine) {
    Paired(f) && BidInTurn(m, start, f) && AskInTurn(m, start, f)
  }

  ghost predicate AllInTurn(m: Market, start: Engine, rounds: seq<Engine>) {
    forall i :: 0 <= i < |rounds| ==> BothInTurn(m, start, rounds[i])
  }

  lemma OneMoreInTurn(m: Market, start: Engine, f: Engine, rest: seq<Engine>)
    requires BothInTurn(m, start, f) && AllInTurn(m, start, rest)
    ensures AllInTurn(m, start, [f] + rest)
  {
  }

  lemma {:induction false} RunInTurn(m: Market, start: Engine, e: Engine, last: Option<nat>)
    requires (last.Some? ==> last.value == e.filled) && BidInTurn(m, start, e) && AskInTurn(m, start, e)
    ensures AllInTurn(m, start, Seen(m, e, last))
    decreases Orders(e) + if last.None? then 1 else 0
  {
    var f := NextPair(m, e);
    if !Paired(f) || last == Some(f.filled) || !Match(m, f).Continue? {
      RunStops(m, e, last, f);
      NextPairInTurn(m, start, e);
    } else {
      var g := Match(m, f).next;
      RunStep(m, e, last, f, g);
      RoundInTurn(m, start, e, f, g);
      RunInTurn(m, start, g, Some(f.filled));
      OneMoreInTurn(m, start, f, Seen(m, g, Some(f.filled)));
    }
  }

  lemma RoundInTurn(m: Market, start: Engine, e: Engine, f: Engine, g: Engine)
    requires BidInTurn(m, start, e) && AskInTurn(m, start, e)
    requires f == NextPair(m, e) && Paired(f) && Match(m, f) == Continue(g)
    ensures BothInTurn(m, start, f) && BidInTurn(m, start, g) && AskInTurn(m, start, g)
  {
    NextPairInTurn(m, start, e);
    MatchInTurn(m, start, f);
  }

  lemma NextPairInTurn(m: Market, start: Engine, e: Engine)
    requires BidInTurn(m, start, e) && AskInTurn(m, start, e)
    ensures Paired(NextPair(m, e)) ==> BidInTurn(m, start, NextPair(m, e)) && AskInTurn(m, start, NextPair(m, e))
  {
    NextBidInTurn(m, start, e);
    if NextBid(m, e).bid.Some? {
      NextAskInTurn(m, start, NextBid(m, e));
    }
  }

  /** At every entry of the loop body the bid and the ask at hand are the next of their lines, and what
      is left of each line is what came after: nobody is passed over. */
  lemma OrdersTakenInTurn(m: Market, e: Engine, i: nat)
    requires Fresh(e) && i < |Seen(m, Primed(m, e), None)|
    ensures var f := Seen(m, Primed(m, e), None)[i];
      Paired(f) && BidInTurn(m, e, f) && AskInTurn(m, e, f)
  {
    NextBidInTurn(m, e, e);
    if NextBid(m, e).bid.Some? {
      NextAskInTurn(m, e, NextBid(m, e));
      RunInTurn(m, e, Primed(m, e), None);
    }
  }

  // ---------- covers first ----------

  /** s ends in t, with something before it. */
  ghost predicate EndsIn(s: seq<Order>, t: seq<Order>) {
    |t| < |s| && s[|s| - |t|..] == t
  }

  lemma {:induction false} CalledAreFirst(m: Market, covers: seq<Order>)
    ensures Called(m, covers) <= covers
    ensures forall j :: 0 <= j < |Called(m, covers)| ==> Callable(m, covers[j])
    ensures |Called(m, covers)| < |covers| ==> !Callable(m, covers[|Called(m, covers)|])
  {
    if covers != [] && Callable(m, covers[0]) {
      CalledAreFirst(m, covers[1..]);
    }
  }

  /** In a line of two parts that differ in kind the kind at hand tells which part it is from. */
  lemma FirstOrSecond(one: seq<Order>, two: seq<Order>, left: seq<Order>, hand: Order, kind: OrderType)
    requires InTurn(one + two, left, Some(hand))
    requires forall j :: 0 <= j < |one| ==> one[j].kind == kind
    requires forall j :: 0 <= j < |two| ==> two[j].kind != kind
    ensures if hand.kind == kind then |two| <= |left| && left[|left| - |two|..] == two
            else EndsIn(two, left)
  {
    var all := one + two;
    var p := |all| - |left| - 1;
    assert all[p].kind == if p < |one| then one[p].kind else two[p - |one|].kind;
    assert two == all[|one|..];
  }

  /** In a round where a plain ask is at hand the whole line of called covers has had its turn, and only
      asks are left; in one where a cover is, all the asks are still to come. */
  lemma CoversGoFirst(m: Market, e: Engine, i: nat)
    requires Fresh(e) && InSync(m, e) && i < |Seen(m, Primed(m, e), None)|
    ensures var f := Seen(m, Primed(m, e), None)[i];
      var left := AskLine(m, f.covers, f.asks);
      && f.ask.Some?
      && (if f.ask.value.kind.CoverOrder? then |e.asks| <= |left| && left[|left| - |e.asks|..] == e.asks else EndsIn(e.asks, left))
  {
    OrdersTakenInTurn(m, e, i);
    CalledAreFirst(m, e.covers);
    var f := Seen(m, Primed(m, e), None)[i];
    FirstOrSecond(Called(m, e.covers), e.asks, AskLine(m, f.covers, f.asks), f.ask.value, CoverOrder);
  }

  // ---------- shorts before bids below the feed ----------

  predicate BelowFeed(m: Market, o: Order) {
    m.feed.Some? && o.key.price.ratio < m.feed.value
  }

  /** The bids up to the first that is below the feed. */
  function High(m: Market, bids: seq<Order>): (r: seq<Order>)
    ensures r <= bids
  {
    if bids != [] && !BelowFeed(m, bids[0]) then [bids[0]] + High(m, bids[1..]) else []
  }

  lemma {:induction false} HighAreFirst(m: Market, bids: seq<Order>)
    ensures forall j :: 0 <= j < |High(m, bids)| ==> !BelowFeed(m, bids[j])
    ensures |High(m, bids)| < |bids| ==> BelowFeed(m, bids[|High(m, bids)|])
  {
    if bids != [] && !BelowFeed(m, bids[0]) {
      HighAreFirst(m, bids[1..]);
    }
  }

  /** The line is the bids up to the first below the feed, then every short, then the other bids. */
  lemma {:induction false} BidLineIs(m: Market, bids: seq<Order>, shorts: seq<Order>)
    ensures BidLine(m, bids, shorts) == High(m, bids) + shorts + bids[|High(m, bids)|..]
    decreases |bids| + |shorts|
  {
    if bids == [] {
    } else if !BelowFeed(m, bids[0]) {
      BidLineIs(m, bids[1..], shorts);
      var n := |High(m, bids[1..])|;
      assert bids[1..][n..] == bids[n + 1..];
    } else if shorts == [] {
      LowLine(m, bids);
    } else {
      BidLineIs(m, bids, shorts[1..]);
      assert shorts == [shorts[0]] + shorts[1..];
    }
  }

  lemma {:induction false} LowLine(m: Market, bids: seq<Order>)
    ensures BidLine(m, bids, []) == bids
  {
    if bids != [] {
      LowLine(m, bids[1..]);
    }
  }

  /** In a round where a bid below the feed is at hand every short has had its turn, and only bids are left;
      in one where a short is, every bid up to the first below the feed has, and no other bid. */
  lemma ShortsGoBeforeLowBids(m: Market, e: Engine, i: nat)
    requires Fresh(e) && InSync(m, e) && i < |Seen(m, Primed(m, e), None)|
    ensures var f := Seen(m, Primed(m, e), None)[i];
      var left, low := BidLine(m, f.bids, f.shorts), e.bids[|High(m, e.bids)|..];
      && f.bid.Some?
      && (f.bid.value.kind.ShortOrder? ==>
           |low| <= |left| < |low| + |e.shorts| && left[|left| - |low|..] == low)
      && (!f.bid.value.kind.ShortOrder? && BelowFeed(m, f.bid.value) ==> EndsIn(low, left))
  {
    OrdersTakenInTurn(m, e, i);
    HighAreFirst(m, e.bids);
    BidLineIs(m, e.bids, e.shorts);
    var f := Seen(m, Primed(m, e), None)[i];
    ThreeParts(m, e.bids, e.shorts, BidLine(m, f.bids, f.shorts), f.bid.value);
  }

  lemma ThreeParts(m: Market, bids: seq<Order>, shorts: seq<Order>, left: seq<Order>, hand: Order)
    requires forall j :: 0 <= j < |High(m, bids)| ==> !BelowFeed(m, bids[j])
    requires forall j :: 0 <= j < |bids| ==> bids[j].kind == BidOrder
    requires forall j :: 0 <= j < |shorts| ==> shorts[j].kind == ShortOrder
    requires InTurn(High(m, bids) + shorts + bids[|High(m, bids)|..], left, Some(hand))
    ensures var low := bids[|High(m, bids)|..];
      && (hand.kind.ShortOrder? ==> |low| <= |left| < |low| + |shorts| && left[|left| - |low|..] == low)
      && (!hand.kind.ShortOrder? && BelowFeed(m, hand) ==> EndsIn(low, left))
  {
    var n := |High(m, bids)|;
    var low := bids[n..];
    var all := bids[..n] + shorts + low;
    var p := |all| - |left| - 1;
    assert all[p] == if p < n then bids[p] else if p < n + |shorts| then shorts[p - n] else low[p - n - |shorts|];
    assert low == all[n + |shorts|..];
  }
}
