/** execute_markets, apply_transactions, generate_block and the body of extend_chain, on the objects that
    evaluate transactions and run markets. */
module BlockObjects {
  import opened Options
  import opened Ledgers
  import opened Operations
  import opened Listing
  import opened Blocks
  import opened Assembly
  import opened Evaluations
  import opened MarketEngines
  import T = Transactions

  // ---------- markets ----------

  /** Every dirty market, in an engine of its own; one whose run throws leaves the pending state alone. */
  method ExecuteMarkets(pending: PendingState, turns: seq<Turn>)
    requires WellFormed(pending.ledger) && AllLoaded(pending.ledger, turns) && Ordered(turns)
    modifies pending
    ensures pending.ledger == TakeTurns(old(pending.ledger), turns)
  {
    var i := 0;
    while i < |turns|
      invariant 0 <= i <= |turns|
      invariant WellFormed(pending.ledger) && AllLoaded(pending.ledger, turns[i..])
      invariant TakeTurns(pending.ledger, turns[i..]) == TakeTurns(old(pending.ledger), turns)
    {
      ghost var l, rest := pending.ledger, turns[i..];
      assert rest[0] == turns[i] && rest[1..] == turns[i + 1..];
      TurnKeeps(l, turns[i], 0, 0, false);
      TurnMovesItsOwn(l, turns[i]);
      AllStillLoaded(l, TakeTurn(l, turns[i]), rest);
      ExecuteMarket(pending, turns[i]);
      i := i + 1;
    }
  }

  method ExecuteMarket(pending: PendingState, t: Turn)
    requires Loaded(pending.ledger, t) && t.market.quote > t.market.base
    modifies pending
    ensures pending.ledger == TakeTurn(old(pending.ledger), t)
  {
    var engine := new MarketEngine(t.market, t.everFed, pending.ledger, t.bids, t.asks, t.shorts, t.covers);
    var ok := engine.Execute();
    pending.ledger := engine.prior;
  }

  // ---------- transactions ----------

  /** Every transaction of a block; the first that fails fails the block. */
  method ApplyTransactions(pending: PendingState, transactions: seq<seq<Operation>>, c: Config) returns (ok: bool)
    modifies pending
    ensures ok <==> EvaluateAll(old(pending.ledger), transactions, c).Some?
    ensures ok ==> Some(pending.ledger) == EvaluateAll(old(pending.ledger), transactions, c)
  {
    var i := 0;
    while i < |transactions|
      invariant 0 <= i <= |transactions|
      invariant EvaluateAll(pending.ledger, transactions[i..], c) == EvaluateAll(old(pending.ledger), transactions, c)
    {
      assert transactions[i..][0] == transactions[i] && transactions[i..][1..] == transactions[i + 1..];
      var evaluation := new TransactionEvaluationState(pending, c);
      ok := evaluation.EvaluateAll(transactions[i]);
      if !ok {
        return;
      }
      i := i + 1;
    }
    ok := true;
  }

  // ---------- applying a block ----------

  /** What extend_chain does to the ledger. */
  method ExtendLedger(l: Ledger, x: Input) returns (r: Option<Ledger>)
    requires WellFormed(l) && AllLoaded(l, x.turns)
    ensures r == ApplyBlock(l, x)
  {
    var pending := new PendingState(l);
    var ok := pending.PayProducer(x.producer, x.maxPay);
    if !ok {
      return None;
    }
    if exists i :: 0 <= i < |x.turns| && x.turns[i].market.quote <= x.turns[i].market.base {
      return None;
    }
    T.PayDelegateExtends(l, x.producer, x.maxPay);
    PayLeavesLoaded(l, x.producer, x.maxPay, x.turns);
    ExecuteMarkets(pending, x.turns);
    ok := ApplyTransactions(pending, x.transactions, x.config);
    r := if ok then Some(Purge(pending.ledger)) else None;
  }

  // ---------- assembling a block ----------

  datatype Queued = Queued(size: nat, ops: seq<Operation>)

  function OpsOf(queue: seq<Queued>): seq<seq<Operation>> {
    if queue == [] then [] else OpsOf(queue[..|queue| - 1]) + [queue[|queue| - 1].ops]
  }

  function SizeOf(queue: seq<Queued>): nat {
    if queue == [] then 0 else SizeOf(queue[..|queue| - 1]) + queue[|queue| - 1].size
  }

  lemma {:induction false} EvaluateOneMore(l: Ledger, txs: seq<seq<Operation>>, tx: seq<Operation>, c: Config)
    ensures EvaluateAll(l, txs + [tx], c) == match EvaluateAll(l, txs, c) case None => None case Some(n) => T.Evaluate(n, tx, c)
    decreases |txs|
  {
    if txs == [] {
      assert ([tx])[1..] == [];
      assert txs + [tx] == [tx];
    } else {
      assert (txs + [tx])[1..] == txs[1..] + [tx];
      if T.Evaluate(l, txs[0], c).Some? {
        EvaluateOneMore(T.Evaluate(l, txs[0], c).value, txs[1..], tx, c);
      }
    }
  }

  lemma {:induction false} AssembleOneMore(l: Ledger, tried: seq<seq<Operation>>, tx: seq<Operation>, c: Config)
    requires EvaluateAll(l, Assemble(l, tried, c), c).Some?
    ensures Assemble(l, tried + [tx], c) == Assemble(l, tried, c) +
      if T.Evaluate(EvaluateAll(l, Assemble(l, tried, c), c).value, tx, c).Some? then [tx] else []
    decreases |tried|
  {
    if tried == [] {
      assert ([tx])[1..] == [];
      assert tried + [tx] == [tx];
    } else {
      assert (tried + [tx])[1..] == tried[1..] + [tx];
      match T.Evaluate(l, tried[0], c)
      case None => AssembleOneMore(l, tried[1..], tx, c);
      case Some(n) =>
        assert Assemble(l, tried, c)[1..] == Assemble(n, tried[1..], c);
        AssembleOneMore(n, tried[1..], tx, c);
    }
  }

  lemma OneMoreTried(l: Ledger, queue: seq<Queued>, i: nat, c: Config)
    requires i < |queue| && EvaluateAll(l, Assemble(l, OpsOf(queue[..i]), c), c).Some?
    ensures SizeOf(queue[..i + 1]) == SizeOf(queue[..i]) + queue[i].size
    ensures var block, tx := Assemble(l, OpsOf(queue[..i]), c), queue[i].ops;
      var n := T.Evaluate(EvaluateAll(l, block, c).value, tx, c);
      && Assemble(l, OpsOf(queue[..i + 1]), c) == (if n.Some? then block + [tx] else block)
      && (n.Some? ==> EvaluateAll(l, block + [tx], c) == n)
  {
    assert queue[..i + 1][..i] == queue[..i];
    var block := Assemble(l, OpsOf(queue[..i]), c);
    AssembleOneMore(l, OpsOf(queue[..i]), queue[i].ops, c);
    EvaluateOneMore(l, block, queue[i].ops, c);
    assert block + [] == block;
  }

  /** On a pending state of its own, which is handed over only if the transaction is accepted. */
  method TryTransaction(pending: PendingState, ops: seq<Operation>, c: Config) returns (ok: bool)
    modifies pending
    ensures ok <==> T.Evaluate(old(pending.ledger), ops, c).Some?
    ensures pending.ledger == if ok then T.Evaluate(old(pending.ledger), ops, c).value else old(pending.ledger)
  {
    var child := new PendingState(pending.ledger);
    var evaluation := new TransactionEvaluationState(child, c);
    ok := evaluation.EvaluateAll(ops);
    if ok {
      pending.ledger := child.ledger;
    }
  }

  /** The queue in order, each transaction on a pending state of its own that is handed over only if it is
      accepted: the block is Assemble's of the transactions tried, and the state left is the block's. The
      queue is cut short only by the size limit, or after the transaction in which the five seconds run
      out. */
  method GenerateBlock(pending: PendingState, queue: seq<Queued>, c: Config, maxSize: nat, cutOff: nat)
    returns (block: seq<seq<Operation>>, tried: nat)
    modifies pending
    ensures tried <= |queue| && block == Assemble(old(pending.ledger), OpsOf(queue[..tried]), c)
    ensures EvaluateAll(old(pending.ledger), block, c) == Some(pending.ledger)
    ensures SizeOf(queue[..tried]) <= maxSize
    ensures tried < |queue| ==> tried == cutOff + 1 || SizeOf(queue[..tried]) + queue[tried].size > maxSize
  {
    ghost var l := pending.ledger;
    block, tried := [], 0;
    var size := 0;
    while tried < |queue|
      invariant tried <= |queue| && tried <= cutOff
      invariant block == Assemble(l, OpsOf(queue[..tried]), c)
      invariant EvaluateAll(l, block, c) == Some(pending.ledger)
      invariant size == SizeOf(queue[..tried]) <= maxSize
    {
      var tx := queue[tried];
      if size + tx.size > maxSize {
        break;
      }
      size := size + tx.size;
      OneMoreTried(l, queue, tried, c);
      var ok := TryTransaction(pending, tx.ops, c);
      if ok {
        block := block + [tx.ops];
      }
      tried := tried + 1;
      if tried == cutOff + 1 {
        break;
      }
    }
  }
}
