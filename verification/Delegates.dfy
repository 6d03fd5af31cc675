/** Who is a delegate: once one, always one, at a pay rate that never rises; slates name only delegates, so whatever votes
    a transaction moves can be booked; and no delegate's pay is ever below zero. Over every block and chain. */
module Delegates {
  import opened Options
  import opened Ledgers
  import opened Operations
  import opened Conservation
  import opened Matching
  import opened Listing
  import opened Blocks
  import T = Transactions
  import B = Backing
  import M = MarketFrame
  import F = ForkTree
  import R = RequiredFees
  import Prices

  predicate IsDelegate(l: Ledger, d: AccountId) {
    d in l.accounts && l.accounts[d].delegate.Some?
  }

  function RateOf(l: Ledger, d: AccountId): nat
    requires IsDelegate(l, d)
  {
    l.accounts[d].delegate.value.payRate
  }

  /** Every delegate's rate is a percentage and its pay no less than zero, and every slate names delegates. */
  ghost predicate Sound(l: Ledger) {
    && (forall d :: IsDelegate(l, d) ==> RateOf(l, d) <= 100 && Pay(l, d) >= 0)
    && (forall id :: id in l.slates ==> AreDelegates(l, l.slates[id]))
  }

  /** From l to n no delegate stops being one or raises its rate. */
  ghost predicate Stays(l: Ledger, n: Ledger) {
    forall d :: IsDelegate(l, d) ==> IsDelegate(n, d) && RateOf(n, d) <= RateOf(l, d)
  }

  /** The votes pending in a transaction are delegates'. */
  ghost predicate ForDelegates(e: Evaluation) {
    forall d :: d in e.votes ==> IsDelegate(e.ledger, d)
  }

  ghost predicate Moves(e: Evaluation, f: Evaluation) {
    (Sound(e.ledger) && ForDelegates(e) ==> Sound(f.ledger) && ForDelegates(f)) && Stays(e.ledger, f.ledger)
  }

  lemma StaysOn(l: Ledger, o: Ledger, n: Ledger)
    requires Stays(l, o) && Stays(o, n)
    ensures Stays(l, n)
  {
  }

  lemma MovesOn(e: Evaluation, g: Evaluation, f: Evaluation)
    requires Moves(e, g) && Moves(g, f)
    ensures Moves(e, f)
  {
    StaysOn(e.ledger, g.ledger, f.ledger);
  }

  // ---------- operations that leave accounts and slates ----------

  predicate SameElectorate(l: Ledger, n: Ledger) {
    n.accounts == l.accounts && n.slates == l.slates
  }

  lemma SameSound(l: Ledger, n: Ledger)
    requires SameElectorate(l, n)
    ensures (Sound(l) ==> Sound(n)) && Stays(l, n)
  {
    forall d ensures IsDelegate(n, d) == IsDelegate(l, d) && Pay(n, d) == Pay(l, d) {
    }
    forall id | id in n.slates ensures AreDelegates(n, n.slates[id]) == AreDelegates(l, l.slates[id]) {
    }
  }

  lemma SameMoves(e: Evaluation, f: Evaluation)
    requires SameElectorate(e.ledger, f.ledger)
    requires Sound(e.ledger) && ForDelegates(e) ==> ForDelegates(f)
    ensures Moves(e, f)
  {
    SameSound(e.ledger, f.ledger);
  }

  /** Adjusting votes adds the delegates of the slate. */
  lemma {:induction false} VotesNamed(votes: map<AccountId, int>, slate: seq<AccountId>, amount: int, negatives: bool, d: AccountId)
    requires d in Votes(votes, slate, amount, negatives)
    ensures d in votes || exists i :: 0 <= i < |slate| && Abs(slate[i]) == d
    decreases |slate|
  {
    if slate != [] {
      var x := Abs(slate[0]);
      var next := votes[x := Get(votes, x) + if negatives && slate[0] < 0 then -amount else amount];
      VotesNamed(next, slate[1..], amount, negatives, d);
      if d !in next {
        var i :| 0 <= i < |slate[1..]| && Abs(slate[1..][i]) == d;
        assert Abs(slate[i + 1]) == d;
      }
    }
  }

  lemma AdjustMoves(e: Evaluation, k: Condition, amount: int, c: Config)
    requires AdjustStake(e, k, amount, c).Some?
    ensures AdjustStake(e, k, amount, c).value.ledger == e.ledger
    ensures Sound(e.ledger) && ForDelegates(e) ==> ForDelegates(AdjustStake(e, k, amount, c).value)
  {
    var f := AdjustStake(e, k, amount, c).value;
    if Sound(e.ledger) && ForDelegates(e) {
      forall d | d in f.votes ensures IsDelegate(e.ledger, d) {
        if d !in e.votes {
          var slate := e.ledger.slates[k.slate];
          VotesNamed(e.votes, slate, amount, c.negativeVotes, d);
          var i :| 0 <= i < |slate| && Abs(slate[i]) == d;
          assert slate[i] in slate;
        }
      }
    }
  }

  lemma ChangeMoves(e: Evaluation, k: Condition, r: Balance, change: int, c: Config)
    requires ChangeBalance(e, k, r, change, c).Some?
    ensures Moves(e, ChangeBalance(e, k, r, change, c).value)
  {
    AdjustMoves(e, k, change, c);
    SameMoves(e, ChangeBalance(e, k, r, change, c).value);
  }

  lemma YieldMoves(e: Evaluation, k: Condition, y: nat, now: nat)
    requires k.asset in e.ledger.assets && k in e.ledger.balances
    ensures Moves(e, PayYield(e, k, y, now))
  {
    var f := PayYield(e, k, y, now);
    assert f == e.(ledger := e.ledger.(assets := f.ledger.assets, balances := f.ledger.balances));
    SameMoves(e, f);
  }

  lemma WithdrawMoves(e: Evaluation, k: Condition, amount: int, y: nat, c: Config)
    requires WithdrawPaying(e, k, amount, y, c).Some?
    ensures Moves(e, WithdrawPaying(e, k, amount, y, c).value)
  {
    WithdrawPayingSteps(e, k, amount, y, c);
    var f := PayYield(e, k, y, c.now);
    var r := f.ledger.balances[k].(amount := f.ledger.balances[k].amount - amount);
    YieldMoves(e, k, y, c.now);
    ChangeMoves(f, k, r, -amount, c);
    MovesOn(e, f, ChangeBalance(f, k, r, -amount, c).value);
  }

  lemma BalanceMoves(e: Evaluation, op: Operation, c: Config)
    requires (op.Deposit? || op.Withdraw? || op.Claim?) && Apply(e, op, c).Some?
    ensures Moves(e, Apply(e, op, c).value)
  {
    match op
    case Deposit(k, amount) =>
      var r := BalanceOf(e.ledger, k);
      ChangeMoves(e, k, Balance(r.amount + amount, AverageDate(r, amount, c.now), r.genesis), amount, c);
    case Withdraw(k, amount, permitted) =>
      WithdrawMoves(e, k, amount, YieldDue(e.ledger.assets[k.asset], e.ledger.balances[k], c.now).value, c);
    case Claim(k, amount, permitted) => ChangeMoves(e, k, e.ledger.balances[k].(amount := 0), -amount, c);
  }

  lemma OrderSame(e: Evaluation, op: Operation, c: Config)
    requires (op.Bid? || op.Ask? || op.Short? || op.Burn? || op.CreateAsset? || op.UpdateAsset? || op.IssueAsset?) && Apply(e, op, c).Some?
    ensures SameElectorate(e.ledger, Apply(e, op, c).value.ledger) && Apply(e, op, c).value.votes == e.votes
  {
  }

  lemma SettleSame(e: Evaluation, k: OrderKey, rest: Collateral, landing: Option<OrderKey>)
    ensures SameElectorate(e.ledger, Settle(e, k, rest, landing).ledger) && Settle(e, k, rest, landing).votes == e.votes
  {
  }

  lemma CoverSame(e: Evaluation, k: OrderKey, amount: int, newPrice: Option<Prices.Price>, permitted: bool, c: Config)
    requires EvaluateCover(e, k, amount, newPrice, permitted, c).Some?
    ensures var f := EvaluateCover(e, k, amount, newPrice, permitted, c).value;
      SameElectorate(e.ledger, f.ledger) && f.votes == e.votes
  {
    R.CoverParts(e, k, amount, newPrice, permitted, c);
    var principal := PrincipalPaid(e.ledger.collateral[k], amount, c);
    var m := AfterPayment(k, e.ledger.collateral[k], principal, newPrice).value;
    SettleSame(PayDebt(e, k.price.quote, principal, amount - principal), k, m.rest, m.landing);
  }

  lemma CollateralSame(e: Evaluation, k: OrderKey, amount: int)
    requires EvaluateAddCollateral(e, k, amount).Some?
    ensures var f := EvaluateAddCollateral(e, k, amount).value;
      SameElectorate(e.ledger, f.ledger) && f.votes == e.votes
  {
    var m := AfterAdding(k, e.ledger.collateral[k], amount).value;
    SettleSame(Move(e, k.price.base, -amount), k, m.rest, m.landing);
  }

  // ---------- operations on accounts and slates ----------

  /** Storing an account: a new one, a promotion, a lower rate, or less pay. */
  lemma StoreMoves(l: Ledger, n: Ledger, id: AccountId, r: Account)
    requires n.accounts == l.accounts[id := r] && n.slates == l.slates
    requires IsDelegate(l, id) ==> r.delegate.Some? && r.delegate.value.payRate <= RateOf(l, id)
    requires r.delegate.Some? ==> r.delegate.value.payRate <= 100 && (Sound(l) ==> PayBalance(r) >= 0)
    ensures (Sound(l) ==> Sound(n)) && Stays(l, n)
  {
    forall d | d != id ensures IsDelegate(n, d) == IsDelegate(l, d) && Pay(n, d) == Pay(l, d) {
    }
    if Sound(l) {
      forall i | i in n.slates ensures AreDelegates(n, n.slates[i]) {
        NamesStay(l, n, l.slates[i]);
      }
    }
  }

  lemma NamesStay(l: Ledger, n: Ledger, slate: seq<AccountId>)
    requires AreDelegates(l, slate) && forall d :: IsDelegate(l, d) ==> IsDelegate(n, d)
    ensures AreDelegates(n, slate)
  {
    forall d | d in slate ensures Abs(d) in n.accounts && n.accounts[Abs(d)].delegate.Some? {
      assert IsDelegate(l, Abs(d));
      assert IsDelegate(n, Abs(d));
    }
  }

  lemma StillFor(e: Evaluation, f: Evaluation)
    requires f.votes == e.votes && Stays(e.ledger, f.ledger) && (Sound(e.ledger) ==> Sound(f.ledger))
    ensures Moves(e, f)
  {
  }

  lemma NewMoves(e: Evaluation, f: Evaluation, id: AccountId, r: Account, fee: int)
    requires f == e.(ledger := e.ledger.(lastAccount := id)) && id !in e.ledger.accounts
    requires r.delegate.Some? ==> r.delegate.value.payRate <= 100 && PayBalance(r) == 0
    ensures Moves(e, StoreAccountRecord(f, id, r, fee))
  {
    StoreMoves(e.ledger, StoreAccountRecord(f, id, r, fee).ledger, id, r);
    StillFor(e, StoreAccountRecord(f, id, r, fee));
  }

  lemma RegisterMoves(e: Evaluation, payRate: nat, permitted: bool, c: Config)
    requires WellFormed(e.ledger) && EvaluateRegisterAccount(e, payRate, permitted, c).Some?
    ensures Moves(e, EvaluateRegisterAccount(e, payRate, permitted, c).value)
  {
    var id := e.ledger.lastAccount + 1;
    assert id !in e.ledger.accounts;
    var f := e.(ledger := e.ledger.(lastAccount := id));
    var r := Account(if payRate <= 100 then Some(Delegate(0, payRate, 0)) else None);
    var fee := c.accountFee + if payRate <= 100 then DelegateFee(payRate, c) else 0;
    assert EvaluateRegisterAccount(e, payRate, permitted, c) == Some(StoreAccountRecord(f, id, r, fee));
    NewMoves(e, f, id, r, fee);
  }

  lemma UpdateMoves(e: Evaluation, id: AccountId, payRate: nat, permitted: bool, c: Config)
    requires EvaluateUpdateAccount(e, id, payRate, permitted, c).Some?
    ensures Moves(e, EvaluateUpdateAccount(e, id, payRate, permitted, c).value)
  {
    var f := EvaluateUpdateAccount(e, id, payRate, permitted, c).value;
    if IsDelegate(e.ledger, id) || payRate <= 100 {
      StoreMoves(e.ledger, f.ledger, id, f.ledger.accounts[id]);
    }
    StillFor(e, f);
  }

  lemma WithdrawPayMoves(e: Evaluation, account: AccountId, amount: int, permitted: bool)
    requires EvaluateWithdrawPay(e, account, amount, permitted).Some?
    ensures Sound(e.ledger) ==> Moves(e, EvaluateWithdrawPay(e, account, amount, permitted).value)
    ensures Stays(e.ledger, EvaluateWithdrawPay(e, account, amount, permitted).value.ledger)
  {
    var id, f := Abs(account), EvaluateWithdrawPay(e, account, amount, permitted).value;
    if Sound(e.ledger) {
      StoreMoves(e.ledger, f.ledger, id, f.ledger.accounts[id]);
      assert IsDelegate(f.ledger, id);
    }
  }

  lemma SlateMoves(e: Evaluation, id: nat, slate: seq<AccountId>, c: Config)
    requires EvaluateDefineSlate(e, id, slate, c).Some?
    ensures Moves(e, EvaluateDefineSlate(e, id, slate, c).value)
  {
    var f := EvaluateDefineSlate(e, id, slate, c).value;
    assert f.ledger.accounts == e.ledger.accounts;
    if Sound(e.ledger) {
      forall i | i in f.ledger.slates ensures AreDelegates(f.ledger, f.ledger.slates[i]) {
        assert i in e.ledger.slates ==> AreDelegates(e.ledger, e.ledger.slates[i]);
      }
    }
    StillFor(e, f);
  }

  lemma ApplyMoves(e: Evaluation, op: Operation, c: Config)
    requires WellFormed(e.ledger) && Apply(e, op, c).Some? && Sound(e.ledger) && ForDelegates(e)
    ensures Moves(e, Apply(e, op, c).value)
  {
    match op
    case RegisterAccount(payRate, permitted) => RegisterMoves(e, payRate, permitted, c);
    case UpdateAccount(id, payRate, permitted) => UpdateMoves(e, id, payRate, permitted, c);
    case WithdrawPay(account, amount, permitted) => WithdrawPayMoves(e, account, amount, permitted);
    case DefineSlate(id, delegates) => SlateMoves(e, id, delegates, c);
    case _ => OthersMove(e, op, c);
  }

  lemma OthersMove(e: Evaluation, op: Operation, c: Config)
    requires Apply(e, op, c).Some?
    requires !op.RegisterAccount? && !op.UpdateAccount? && !op.WithdrawPay? && !op.DefineSlate?
    ensures Moves(e, Apply(e, op, c).value)
  {
    if op.Deposit? || op.Withdraw? || op.Claim? {
      BalanceMoves(e, op, c);
    } else {
      if op.Cover? {
        CoverSame(e, op.key, op.amount, op.newPrice, op.permitted, c);
      } else if op.AddCollateral? {
        CollateralSame(e, op.key, op.amount);
      } else {
        OrderSame(e, op, c);
      }
      SameMoves(e, Apply(e, op, c).value);
    }
  }

  lemma {:induction false} RunMoves(e: Evaluation, ops: seq<Operation>, c: Config)
    requires WellFormed(e.ledger) && T.Run(e, ops, c).Some? && Sound(e.ledger) && ForDelegates(e)
    ensures Moves(e, T.Run(e, ops, c).value)
    decreases |ops|
  {
    if ops != [] {
      var f := Apply(e, ops[0], c).value;
      ApplyExtends(e, ops[0], c);
      ApplyMoves(e, ops[0], c);
      RunMoves(f, ops[1..], c);
      MovesOn(e, f, T.Run(f, ops[1..], c).value);
    }
  }

  /** Whatever operations run, the votes they leave pending are delegates': booking them never fails. */
  lemma AlwaysElectable(l: Ledger, ops: seq<Operation>, c: Config)
    requires WellFormed(l) && Sound(l) && T.Run(T.Start(l), ops, c).Some?
    ensures var e := T.Run(T.Start(l), ops, c).value; T.Electable(e.ledger, e.votes)
  {
    RunMoves(T.Start(l), ops, c);
    var e := T.Run(T.Start(l), ops, c).value;
    forall d | d in e.votes ensures d in e.ledger.accounts && e.ledger.accounts[d].delegate.Some? {
      assert IsDelegate(e.ledger, d);
    }
  }

  lemma BookedStays(l: Ledger, balance: map<AssetId, int>, votes: map<AccountId, int>)
    ensures var n := T.AddVotes(T.CollectFees(l, balance), votes); (Sound(l) ==> Sound(n)) && Stays(l, n)
  {
    var n := T.AddVotes(T.CollectFees(l, balance), votes);
    forall d ensures IsDelegate(n, d) == IsDelegate(l, d) && Pay(n, d) == Pay(l, d) {
    }
    if Sound(l) {
      forall i | i in n.slates ensures AreDelegates(n, n.slates[i]) {
        NamesStay(l, n, l.slates[i]);
      }
    }
  }

  /** A transaction lets no delegate go, raises no rate, and leaves the ledger sound. */
  lemma TransactionStays(l: Ledger, ops: seq<Operation>, c: Config)
    requires WellFormed(l) && Sound(l) && T.Evaluate(l, ops, c).Some?
    ensures Sound(T.Evaluate(l, ops, c).value) && Stays(l, T.Evaluate(l, ops, c).value)
  {
    RunMoves(T.Start(l), ops, c);
    var e := T.Run(T.Start(l), ops, c).value;
    BookedStays(e.ledger, e.balance, e.votes);
    StaysOn(l, e.ledger, T.Evaluate(l, ops, c).value);
  }

  // ---------- blocks and chains ----------

  /** Paying a producer fails only where there is none: no sound delegate's rate is in the way. */
  lemma PayStays(l: Ledger, producer: AccountId, maxPay: nat)
    requires WellFormed(l) && Sound(l)
    ensures T.PayDelegate(l, producer, maxPay).Some? <==> IsDelegate(l, producer)
    ensures IsDelegate(l, producer) ==> var n := T.PayDelegate(l, producer, maxPay).value; Sound(n) && Stays(l, n)
  {
    if IsDelegate(l, producer) {
      var n := T.PayDelegate(l, producer, maxPay).value;
      T.PayIsShare(l, producer, maxPay, producer);
      StoreMoves(l, n, producer, n.accounts[producer]);
    }
  }

  lemma TurnStays(l: Ledger, t: Turn)
    requires Loaded(l, t) && t.market.quote > t.market.base
    ensures SameElectorate(l, TakeTurn(l, t))
  {
    if Completes(l, t) {
      var e := StartOf(t, l);
      B.PrimedSync(t.market, e);
      M.RunLeaves(t.market, B.Primed(t.market, e), None, OrderKey(NO_PRICE, 0), 0, false);
    }
  }

  lemma {:induction false} TurnsStay(l: Ledger, turns: seq<Turn>)
    requires WellFormed(l) && AllLoaded(l, turns) && Ordered(turns)
    ensures SameElectorate(l, TakeTurns(l, turns))
    decreases |turns|
  {
    if turns != [] {
      TurnStays(l, turns[0]);
      TurnKeeps(l, turns[0], 0, 0, false);
      TurnMovesItsOwn(l, turns[0]);
      AllStillLoaded(l, TakeTurn(l, turns[0]), turns);
      TurnsStay(TakeTurn(l, turns[0]), turns[1..]);
    }
  }

  lemma {:induction false} AllStay(l: Ledger, transactions: seq<seq<Operation>>, c: Config)
    requires WellFormed(l) && Sound(l) && EvaluateAll(l, transactions, c).Some?
    ensures Sound(EvaluateAll(l, transactions, c).value) && Stays(l, EvaluateAll(l, transactions, c).value)
    decreases |transactions|
  {
    if transactions != [] {
      var n := T.Evaluate(l, transactions[0], c).value;
      TransactionStays(l, transactions[0], c);
      T.TransactionKeeps(l, transactions[0], c, 0, 0);
      AllStay(n, transactions[1..], c);
      StaysOn(l, n, EvaluateAll(l, transactions, c).value);
    }
  }

  /** A block lets no delegate go, raises no rate, and leaves the ledger sound. */
  lemma BlockStays(l: Ledger, x: Input)
    requires WellFormed(l) && Sound(l) && AllLoaded(l, x.turns) && ApplyBlock(l, x).Some?
    ensures Sound(ApplyBlock(l, x).value) && Stays(l, ApplyBlock(l, x).value)
  {
    var p := T.PayDelegate(l, x.producer, x.maxPay).value;
    var q, n := TakeTurns(p, x.turns), EvaluateBlock(l, x).value;
    PayStays(l, x.producer, x.maxPay);
    T.PayDelegateExtends(l, x.producer, x.maxPay);
    PayLeavesLoaded(l, x.producer, x.maxPay, x.turns);
    TurnsStay(p, x.turns);
    SameSound(p, q);
    TurnsKeep(p, x.turns, 0, 0, false);
    AllStay(q, x.transactions, x.config);
    SameSound(n, Purge(n));
    StaysOn(l, p, q);
    StaysOn(l, q, n);
    StaysOn(l, n, Purge(n));
  }

  /** And so every ledger on a chain from a sound genesis, whose delegates are delegates in it. */
  lemma {:induction false} ChainStays(genesis: Ledger, read: (Ledger, F.Block) -> Input, blocks: F.Blocks, x: F.BlockId, negatives: bool)
    requires F.WellFormed(blocks) && WellFormed(genesis) && Listable(genesis) && LooksUp(read, negatives) && Sound(genesis)
    requires F.Replay(ChainRules(genesis, read), blocks, x).Some?
    ensures var l := F.Replay(ChainRules(genesis, read), blocks, x).value; Sound(l) && Stays(genesis, l)
    decreases F.Num(blocks, x)
  {
    if x != F.GENESIS {
      var before := blocks[x].previous;
      ChainStays(genesis, read, blocks, before, negatives);
      ChainKeeps(genesis, read, blocks, before, 0, 0, negatives);
      var l := F.Replay(ChainRules(genesis, read), blocks, before).value;
      LookedUpLoaded(l, read(l, blocks[x]), negatives);
      BlockStays(l, read(l, blocks[x]));
      StaysOn(genesis, l, ApplyBlock(l, read(l, blocks[x])).value);
    }
  }
}
