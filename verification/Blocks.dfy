/** A whole block on the ledger, and a whole chain of them: the producer is paid, every dirty market runs,
    the transactions are evaluated, and the books keep over all of it. */
module Blocks {
  import opened Options
  import opened Ledgers
  import opened Operations
  import opened Conservation
  import opened Matching
  import opened MarketFrame
  import opened Listing
  import T = Transactions
  import B = Backing
  import F = ForkTree
  import ChainStore

  /** What extend_chain works from: the block, and what it looks up for it. */
  datatype Input = Input(producer: AccountId, maxPay: nat, turns: seq<Turn>, transactions: seq<seq<Operation>>, config: Config)

  // ---------- the markets ----------

  function StartOf(t: Turn, l: Ledger): Engine
    requires t.market.quote in l.assets && t.market.base in l.assets
  {
    Engine(Book(l, l.assets[t.market.quote], l.assets[t.market.base]), t.bids, t.asks, t.shorts, t.covers, None, None, 0)
  }

  /** The run gets to its end; one that throws leaves the pending state as it was. */
  predicate Completes(l: Ledger, t: Turn) {
    && t.market.quote in l.assets && t.market.base in l.assets
    && (l.assets[t.market.quote].IsMarketIssued() && !t.everFed ==> t.market.feed.Some?)
    && B.Execute(t.market, StartOf(t, l)).Some?
  }

  function TakeTurn(l: Ledger, t: Turn): Ledger {
    if Completes(l, t) then B.Execute(t.market, StartOf(t, l)).value else l
  }

  function TurnLosses(l: Ledger, t: Turn): B.Losses {
    if Completes(l, t) then B.RunLosses(t.market, B.Primed(t.market, StartOf(t, l)), None) else B.NOTHING
  }

  function TakeTurns(l: Ledger, turns: seq<Turn>): Ledger
    decreases |turns|
  {
    if turns == [] then l else TakeTurns(TakeTurn(l, turns[0]), turns[1..])
  }

  function LostInTurn(l: Ledger, t: Turn, a: AssetId): int {
    B.LostOf(t.market, TurnLosses(l, t), a)
  }

  function ForgivenInTurn(l: Ledger, t: Turn, a: AssetId): int {
    B.ForgivenOf(t.market, TurnLosses(l, t), a)
  }

  function LostInTurns(l: Ledger, turns: seq<Turn>, a: AssetId): int
    decreases |turns|
  {
    if turns == [] then 0 else LostInTurn(l, turns[0], a) + LostInTurns(TakeTurn(l, turns[0]), turns[1..], a)
  }

  function ForgivenInTurns(l: Ledger, turns: seq<Turn>, a: AssetId): int
    decreases |turns|
  {
    if turns == [] then 0 else ForgivenInTurn(l, turns[0], a) + ForgivenInTurns(TakeTurn(l, turns[0]), turns[1..], a)
  }

  predicate Apart(m: Market, o: Market) {
    m.quote != o.quote || m.base != o.base
  }

  ghost predicate AllLoaded(l: Ledger, turns: seq<Turn>) {
    && (forall i :: 0 <= i < |turns| ==> Loaded(l, turns[i]))
    && (forall i, j :: 0 <= i < j < |turns| ==> Apart(turns[i].market, turns[j].market))
  }

  /** A market that is loaded still is when only orders of another market have moved. */
  lemma StillLoaded(l: Ledger, n: Ledger, m: Market, t: Turn)
    requires Loaded(l, t) && Apart(m, t.market) && n.assets.Keys == l.assets.Keys
    requires forall k :: Foreign(m, k) ==> SameAt(l, n, k)
    ensures Loaded(n, t)
  {
    forall o | o in t.bids + t.asks + t.shorts
      ensures B.Belongs(t.market, o) && B.InBook(l, o) ==> B.InBook(n, o)
    {
      if B.Belongs(t.market, o) {
        assert Foreign(m, o.key);
      }
    }
  }

  lemma TurnKeeps(l: Ledger, t: Turn, a: AssetId, d: AccountId, negatives: bool)
    requires WellFormed(l) && Loaded(l, t) && t.market.quote > t.market.base
    ensures var n := TakeTurn(l, t);
      && Extends(l, n) && (Listable(l) ==> Listable(n))
      && Supply(n, a) - Holdings(n, a) == Supply(l, a) - Holdings(l, a) + LostInTurn(l, t, a)
      && ExtraVotes(n, d, negatives) == ExtraVotes(l, d, negatives)
      && Uncovered(n, a) == Uncovered(l, a) + ForgivenInTurn(l, t, a)
  {
    if Completes(l, t) {
      B.ExecuteKeeps(t.market, StartOf(t, l), a);
      ExecuteLeaves(t.market, StartOf(t, l), OrderKey(NO_PRICE, 0), d, negatives);
    }
  }

  lemma TurnMovesItsOwn(l: Ledger, t: Turn)
    requires WellFormed(l) && Loaded(l, t) && t.market.quote > t.market.base
    ensures TakeTurn(l, t).assets.Keys == l.assets.Keys
    ensures forall k :: Foreign(t.market, k) ==> SameAt(l, TakeTurn(l, t), k)
  {
    if Completes(l, t) {
      ExecuteLeaves(t.market, StartOf(t, l), OrderKey(NO_PRICE, 0), 0, false);
      forall k | Foreign(t.market, k)
        ensures SameAt(l, TakeTurn(l, t), k)
      {
        ExecuteLeaves(t.market, StartOf(t, l), k, 0, false);
      }
    }
  }

  lemma AllStillLoaded(l: Ledger, n: Ledger, turns: seq<Turn>)
    requires turns != [] && AllLoaded(l, turns) && n.assets.Keys == l.assets.Keys
    requires forall k :: Foreign(turns[0].market, k) ==> SameAt(l, n, k)
    ensures AllLoaded(n, turns[1..])
  {
    forall i | 0 <= i < |turns| - 1
      ensures Loaded(n, turns[1..][i])
    {
      assert Loaded(l, turns[i + 1]) && Apart(turns[0].market, turns[i + 1].market);
      StillLoaded(l, n, turns[0].market, turns[i + 1]);
    }
  }

  predicate Ordered(turns: seq<Turn>) {
    forall i :: 0 <= i < |turns| ==> turns[i].market.quote > turns[i].market.base
  }

  /** The markets of a block, one after the other. */
  lemma {:induction false} TurnsKeep(l: Ledger, turns: seq<Turn>, a: AssetId, d: AccountId, negatives: bool)
    requires WellFormed(l) && AllLoaded(l, turns) && Ordered(turns)
    ensures var n := TakeTurns(l, turns);
      && Extends(l, n) && (Listable(l) ==> Listable(n))
      && Supply(n, a) - Holdings(n, a) == Supply(l, a) - Holdings(l, a) + LostInTurns(l, turns, a)
      && ExtraVotes(n, d, negatives) == ExtraVotes(l, d, negatives)
      && Uncovered(n, a) == Uncovered(l, a) + ForgivenInTurns(l, turns, a)
    decreases |turns|
  {
    if turns != [] {
      TurnKeeps(l, turns[0], a, d, negatives);
      TurnMovesItsOwn(l, turns[0]);
      AllStillLoaded(l, TakeTurn(l, turns[0]), turns);
      TurnsKeep(TakeTurn(l, turns[0]), turns[1..], a, d, negatives);
    }
  }

  // ---------- the transactions ----------

  ghost function EvaluateAll(l: Ledger, transactions: seq<seq<Operation>>, c: Config): Option<Ledger>
    decreases |transactions|
  {
    if transactions == [] then Some(l)
    else
      var n :- T.Evaluate(l, transactions[0], c);
      EvaluateAll(n, transactions[1..], c)
  }

  ghost function LostInAll(l: Ledger, transactions: seq<seq<Operation>>, c: Config, a: AssetId): int
    decreases |transactions|
  {
    if transactions == [] then 0
    else
      T.LostInRun(T.Start(l), transactions[0], c, a)
      + match T.Evaluate(l, transactions[0], c) case None => 0 case Some(n) => LostInAll(n, transactions[1..], c, a)
  }

  ghost function ForgivenInAll(l: Ledger, transactions: seq<seq<Operation>>, c: Config, a: AssetId): int
    decreases |transactions|
  {
    if transactions == [] then 0
    else
      T.ForgivenInRun(T.Start(l), transactions[0], c, a)
      + match T.Evaluate(l, transactions[0], c) case None => 0 case Some(n) => ForgivenInAll(n, transactions[1..], c, a)
  }

  lemma {:induction false} AllKeep(l: Ledger, transactions: seq<seq<Operation>>, c: Config, a: AssetId, d: AccountId)
    requires WellFormed(l) && EvaluateAll(l, transactions, c).Some?
    ensures var n := EvaluateAll(l, transactions, c).value;
      && Extends(l, n) && (Listable(l) ==> Listable(n))
      && Supply(n, a) - Holdings(n, a) == Supply(l, a) - Holdings(l, a) + LostInAll(l, transactions, c, a)
      && ExtraVotes(n, d, c.negativeVotes) == ExtraVotes(l, d, c.negativeVotes)
      && (MarketIssued(l, a) ==> Uncovered(n, a) == Uncovered(l, a) + ForgivenInAll(l, transactions, c, a))
    decreases |transactions|
  {
    if transactions != [] {
      T.TransactionKeeps(l, transactions[0], c, a, d);
      if Listable(l) {
        TransactionListable(l, transactions[0], c);
      }
      AllKeep(T.Evaluate(l, transactions[0], c).value, transactions[1..], c, a, d);
    }
  }

  // ---------- the block ----------

  /** The pending state of a block at its end: None where extend_chain throws. */
  ghost function EvaluateBlock(l: Ledger, x: Input): Option<Ledger> {
    var paid :- T.PayDelegate(l, x.producer, x.maxPay);
    if !Ordered(x.turns) then None else EvaluateAll(TakeTurns(paid, x.turns), x.transactions, x.config)
  }

  /** The ledger after a block, in which nothing spent is kept. */
  ghost function ApplyBlock(l: Ledger, x: Input): Option<Ledger> {
    var n :- EvaluateBlock(l, x);
    Some(Purge(n))
  }

  /** What a block takes out of asset a's holdings without taking it out of supply, and of its debt. */
  ghost function LostInBlock(l: Ledger, x: Input, a: AssetId): int {
    match T.PayDelegate(l, x.producer, x.maxPay)
    case None => 0
    case Some(p) => LostInTurns(p, x.turns, a) + LostInAll(TakeTurns(p, x.turns), x.transactions, x.config, a)
  }

  ghost function ForgivenInBlock(l: Ledger, x: Input, a: AssetId): int {
    match T.PayDelegate(l, x.producer, x.maxPay)
    case None => 0
    case Some(p) => ForgivenInTurns(p, x.turns, a) + ForgivenInAll(TakeTurns(p, x.turns), x.transactions, x.config, a)
  }

  lemma PayLeavesLoaded(l: Ledger, producer: AccountId, maxPay: nat, turns: seq<Turn>)
    requires T.PayDelegate(l, producer, maxPay).Some? && AllLoaded(l, turns)
    ensures AllLoaded(T.PayDelegate(l, producer, maxPay).value, turns)
    ensures Listable(l) ==> Listable(T.PayDelegate(l, producer, maxPay).value)
  {
    var n := T.PayDelegate(l, producer, maxPay).value;
    forall i | 0 <= i < |turns|
      ensures Loaded(n, turns[i])
    {
      assert Loaded(l, turns[i]);
    }
  }

  /** A block keeps every asset's supply against its holdings, every delegate's votes against pay and stake,
      and every market-issued asset's supply against cover debt, but for what its markets and its
      operations lose and forgive. */
  lemma BlockKeeps(l: Ledger, x: Input, a: AssetId, d: AccountId)
    requires WellFormed(l) && AllLoaded(l, x.turns) && ApplyBlock(l, x).Some?
    ensures var n := ApplyBlock(l, x).value;
      && Extends(l, n) && (Listable(l) ==> Listable(n))
      && Supply(n, a) - Holdings(n, a) == Supply(l, a) - Holdings(l, a) + LostInBlock(l, x, a)
      && ExtraVotes(n, d, x.config.negativeVotes) == ExtraVotes(l, d, x.config.negativeVotes)
      && (MarketIssued(l, a) ==> Uncovered(n, a) == Uncovered(l, a) + ForgivenInBlock(l, x, a))
  {
    var p := T.PayDelegate(l, x.producer, x.maxPay).value;
    T.PayDelegateKeeps(l, x.producer, x.maxPay, a, d, x.config.negativeVotes);
    T.PayDelegateExtends(l, x.producer, x.maxPay);
    PayLeavesLoaded(l, x.producer, x.maxPay, x.turns);
    TurnsKeep(p, x.turns, a, d, x.config.negativeVotes);
    AllKeep(TakeTurns(p, x.turns), x.transactions, x.config, a, d);
    PurgeKeeps(EvaluateBlock(l, x).value, a, d, x.config.negativeVotes);
  }

  // ---------- blocks that lose nothing ----------

  /** Neither shorts nor covers can trade in this market: there is no feed, or there is no short and the
      first cover, if any, is not called. */
  predicate Quiet(t: Turn) {
    t.market.feed.None? || (t.shorts == [] && (t.covers == [] || !Callable(t.market, t.covers[0])))
  }

  lemma QuietTurn(l: Ledger, t: Turn, a: AssetId)
    requires Loaded(l, t) && Quiet(t) && t.market.quote > t.market.base
    ensures LostInTurn(l, t, a) == 0 && ForgivenInTurn(l, t, a) == 0
  {
    if Completes(l, t) {
      B.ExecuteBacks(t.market, StartOf(t, l));
    }
  }

  lemma {:induction false} QuietTurns(l: Ledger, turns: seq<Turn>, a: AssetId)
    requires WellFormed(l) && AllLoaded(l, turns) && Ordered(turns) && forall i :: 0 <= i < |turns| ==> Quiet(turns[i])
    ensures LostInTurns(l, turns, a) == 0 && ForgivenInTurns(l, turns, a) == 0
    decreases |turns|
  {
    if turns != [] {
      QuietTurn(l, turns[0], a);
      TurnKeeps(l, turns[0], a, 0, false);
      TurnMovesItsOwn(l, turns[0]);
      AllStillLoaded(l, TakeTurn(l, turns[0]), turns);
      QuietTurns(TakeTurn(l, turns[0]), turns[1..], a);
    }
  }

  /** No operation is a cover payment, an addition of collateral, or a bid quoted in the base asset. */
  predicate Plain(op: Operation) {
    !op.Cover? && !op.AddCollateral? && (op.Bid? ==> op.key.price.quote != 0)
  }

  lemma {:induction false} PlainRun(e: Evaluation, ops: seq<Operation>, c: Config, a: AssetId)
    requires forall i :: 0 <= i < |ops| ==> Plain(ops[i])
    ensures T.LostInRun(e, ops, c, a) == 0 && T.ForgivenInRun(e, ops, c, a) == 0
    decreases |ops|
  {
    if ops != [] && Apply(e, ops[0], c).Some? {
      PlainRun(Apply(e, ops[0], c).value, ops[1..], c, a);
    }
  }

  predicate AllPlain(transactions: seq<seq<Operation>>) {
    forall t, i :: 0 <= t < |transactions| && 0 <= i < |transactions[t]| ==> Plain(transactions[t][i])
  }

  lemma {:induction false} PlainTransactions(l: Ledger, transactions: seq<seq<Operation>>, c: Config, a: AssetId)
    requires AllPlain(transactions)
    ensures LostInAll(l, transactions, c, a) == 0 && ForgivenInAll(l, transactions, c, a) == 0
    decreases |transactions|
  {
    if transactions != [] {
      PlainRun(T.Start(l), transactions[0], c, a);
      if T.Evaluate(l, transactions[0], c).Some? {
        PlainTransactions(T.Evaluate(l, transactions[0], c).value, transactions[1..], c, a);
      }
    }
  }

  /** A block whose markets are quiet and whose operations are plain conserves every asset and keeps every
      market-issued asset exactly as well backed by cover debt as it was. */
  lemma BlockConserves(l: Ledger, x: Input, a: AssetId)
    requires WellFormed(l) && AllLoaded(l, x.turns) && ApplyBlock(l, x).Some?
    requires AllPlain(x.transactions) && forall i :: 0 <= i < |x.turns| ==> Quiet(x.turns[i])
    ensures var n := ApplyBlock(l, x).value;
      && Supply(n, a) - Holdings(n, a) == Supply(l, a) - Holdings(l, a)
      && (MarketIssued(l, a) ==> Holdings(n, a) - Debt(n, a) == Holdings(l, a) - Debt(l, a))
  {
    var p := T.PayDelegate(l, x.producer, x.maxPay).value;
    BlockKeeps(l, x, a, 0);
    T.PayDelegateExtends(l, x.producer, x.maxPay);
    PayLeavesLoaded(l, x.producer, x.maxPay, x.turns);
    QuietTurns(p, x.turns, a);
    PlainTransactions(TakeTurns(p, x.turns), x.transactions, x.config, a);
  }

  // ---------- the chain ----------

  /** Blocks as the fork tree applies them, on what `read` looks up for a block in a ledger. Here the undo
      record is the ledger before the block. */
  ghost function ChainRules(genesis: Ledger, read: (Ledger, F.Block) -> Input): F.Rules<Ledger, Ledger> {
    F.Rules(genesis,
            (l: Ledger, b: F.Block) => match ApplyBlock(l, read(l, b)) case None => None case Some(n) => Some((n, l)),
            (l: Ledger, u: Ledger) => u)
  }

  lemma ChainRulesLawful(genesis: Ledger, read: (Ledger, F.Block) -> Input)
    ensures F.Lawful(ChainRules(genesis, read))
  {
  }

  /** The look-up is what the node does: the iterators of each dirty market list orders of the ledger, and a
      market is dirty once. */
  ghost predicate LooksUp(read: (Ledger, F.Block) -> Input, negatives: bool) {
    forall l, b :: LookedUp(l, read(l, b), negatives)
  }

  ghost predicate LookedUp(l: Ledger, x: Input, negatives: bool) {
    && (forall i :: 0 <= i < |x.turns| ==> Lists(l, x.turns[i]))
    && (forall i, j :: 0 <= i < j < |x.turns| ==> Apart(x.turns[i].market, x.turns[j].market))
    && x.config.negativeVotes == negatives
  }

  lemma LookedUpLoaded(l: Ledger, x: Input, negatives: bool)
    requires Listable(l) && LookedUp(l, x, negatives)
    ensures AllLoaded(l, x.turns)
  {
    forall i | 0 <= i < |x.turns|
      ensures Loaded(l, x.turns[i])
    {
      ListedLoaded(l, x.turns[i]);
    }
  }

  /** What the blocks on the path to x lose. */
  ghost function LostOnChain(genesis: Ledger, read: (Ledger, F.Block) -> Input, blocks: F.Blocks, x: F.BlockId, a: AssetId): int
    requires F.WellFormed(blocks)
    decreases F.Num(blocks, x)
  {
    if x == F.GENESIS || x !in blocks then 0
    else
      LostOnChain(genesis, read, blocks, blocks[x].previous, a)
      + match F.Replay(ChainRules(genesis, read), blocks, blocks[x].previous)
        case None => 0
        case Some(l) => LostInBlock(l, read(l, blocks[x]), a)
  }

  ghost function ForgivenOnChain(genesis: Ledger, read: (Ledger, F.Block) -> Input, blocks: F.Blocks, x: F.BlockId, a: AssetId): int
    requires F.WellFormed(blocks)
    decreases F.Num(blocks, x)
  {
    if x == F.GENESIS || x !in blocks then 0
    else
      ForgivenOnChain(genesis, read, blocks, blocks[x].previous, a)
      + match F.Replay(ChainRules(genesis, read), blocks, blocks[x].previous)
        case None => 0
        case Some(l) => ForgivenInBlock(l, read(l, blocks[x]), a)
  }

  /** Over any chain of blocks that applies, from genesis: the books keep but for what its blocks list. */
  lemma {:induction false} ChainKeeps(genesis: Ledger, read: (Ledger, F.Block) -> Input, blocks: F.Blocks, x: F.BlockId,
                                      a: AssetId, d: AccountId, negatives: bool)
    requires F.WellFormed(blocks) && WellFormed(genesis) && Listable(genesis) && LooksUp(read, negatives)
    requires F.Replay(ChainRules(genesis, read), blocks, x).Some?
    ensures var l := F.Replay(ChainRules(genesis, read), blocks, x).value;
      && Extends(genesis, l) && Listable(l)
      && Supply(l, a) - Holdings(l, a) == Supply(genesis, a) - Holdings(genesis, a) + LostOnChain(genesis, read, blocks, x, a)
      && ExtraVotes(l, d, negatives) == ExtraVotes(genesis, d, negatives)
      && (MarketIssued(genesis, a) ==>
           Uncovered(l, a) == Uncovered(genesis, a) + ForgivenOnChain(genesis, read, blocks, x, a))
    decreases F.Num(blocks, x)
  {
    if x != F.GENESIS {
      var before := blocks[x].previous;
      ChainKeeps(genesis, read, blocks, before, a, d, negatives);
      var l := F.Replay(ChainRules(genesis, read), blocks, before).value;
      LookedUpLoaded(l, read(l, blocks[x]), negatives);
      BlockKeeps(l, read(l, blocks[x]), a, d);
    }
  }

  /** So at every consistent head of the chain database, however often it has switched forks. */
  lemma HeadKeeps(db: ChainStore.ChainDatabase<Ledger, Ledger>, genesis: Ledger, read: (Ledger, F.Block) -> Input,
                  a: AssetId, d: AccountId, negatives: bool)
    requires db.rules == ChainRules(genesis, read) && db.Consistent()
    requires WellFormed(genesis) && Listable(genesis) && LooksUp(read, negatives)
    ensures Extends(genesis, db.ledger) && Listable(db.ledger)
    ensures Supply(db.ledger, a) - Holdings(db.ledger, a) ==
      Supply(genesis, a) - Holdings(genesis, a) + LostOnChain(genesis, read, db.blocks, db.headId, a)
    ensures ExtraVotes(db.ledger, d, negatives) == ExtraVotes(genesis, d, negatives)
    ensures MarketIssued(genesis, a) ==>
      Uncovered(db.ledger, a) == Uncovered(genesis, a) + ForgivenOnChain(genesis, read, db.blocks, db.headId, a)
  {
    ChainKeeps(genesis, read, db.blocks, db.headId, a, d, negatives);
  }
}
