/** A whole transaction: its operations in order, then the leftovers go to the fees and the pending
    votes to the delegates. What it keeps, over any list of operations. */
module Transactions {
  import opened Options
  import opened Arithmetic
  import opened Prices
  import opened Sums
  import opened Ledgers
  import opened Operations
  import opened Conservation

  function Run(e: Evaluation, ops: seq<Operation>, c: Config): Option<Evaluation>
    decreases |ops|
  {
    if ops == [] then Some(e)
    else
      var f :- Apply(e, ops[0], c);
      Run(f, ops[1..], c)
  }

  /** What the operations lose and forgive one after the other. */
  function LostInRun(e: Evaluation, ops: seq<Operation>, c: Config, a: AssetId): int
    decreases |ops|
  {
    if ops == [] then 0
    else Lost(e.ledger, ops[0], c, a) + match Apply(e, ops[0], c) case None => 0 case Some(f) => LostInRun(f, ops[1..], c, a)
  }

  function ForgivenInRun(e: Evaluation, ops: seq<Operation>, c: Config, a: AssetId): int
    decreases |ops|
  {
    if ops == [] then 0
    else Forgiven(e.ledger, ops[0], c, a) + match Apply(e, ops[0], c) case None => 0 case Some(f) => ForgivenInRun(f, ops[1..], c, a)
  }

  lemma {:induction false} RunKeeps(e: Evaluation, ops: seq<Operation>, c: Config, a: AssetId, d: AccountId)
    requires WellFormed(e.ledger) && Run(e, ops, c).Some?
    ensures var f := Run(e, ops, c).value;
      && WellFormed(f.ledger)
      && (MarketIssued(e.ledger, a) ==> MarketIssued(f.ledger, a))
      && Keeps(e, f, a, d, c.negativeVotes, LostInRun(e, ops, c, a), ForgivenInRun(e, ops, c, a))
    decreases |ops|
  {
    if ops != [] {
      ApplyExtends(e, ops[0], c);
      ApplyKeeps(e, ops[0], c, a, d);
      RunKeeps(Apply(e, ops[0], c).value, ops[1..], c, a, d);
    }
  }

  // ---------- fees ----------

  /** Every leftover is at least zero, and an asset with one is known. */
  ghost predicate Payable(l: Ledger, balance: map<AssetId, int>) {
    forall a :: a in balance ==> balance[a] >= 0 && (balance[a] > 0 ==> a in l.assets)
  }

  function CollectFees(l: Ledger, balance: map<AssetId, int>): Ledger {
    l.(assets := map a | a in l.assets :: l.assets[a].(fees := l.assets[a].fees + Get(balance, a)))
  }

  /** What a leftover counts for, in the base asset: two thirds of it, at the median price. */
  function AltFee(l: Ledger, c: Config, a: AssetId, fee: int): int {
    if a == 0 || fee <= 0 || !MarketIssued(l, a) || a !in c.medians then 0
    else ToBase(fee * 2 / 3, c.medians[a])
  }

  ghost function AltFeeOf(l: Ledger, c: Config): (AssetId, int) -> int {
    (a: AssetId, fee: int) => AltFee(l, c, a, fee)
  }

  ghost function AltFees(l: Ledger, balance: map<AssetId, int>, c: Config): int {
    Total(balance, AltFeeOf(l, c))
  }

  lemma CollectFeesKeeps(l: Ledger, balance: map<AssetId, int>, a: AssetId, d: AccountId, negatives: bool)
    requires Payable(l, balance)
    ensures var n := CollectFees(l, balance);
      && Holdings(n, a) == Holdings(l, a) + Get(balance, a) && Supply(n, a) == Supply(l, a) && Debt(n, a) == Debt(l, a)
      && ExtraVotes(n, d, negatives) == ExtraVotes(l, d, negatives)
  {
  }

  lemma CollectFeesExtends(l: Ledger, balance: map<AssetId, int>)
    requires WellFormed(l)
    ensures Extends(l, CollectFees(l, balance))
  {
  }

  // ---------- votes ----------

  predicate Electable(l: Ledger, votes: map<AccountId, int>) {
    forall d :: d in votes ==> d in l.accounts && l.accounts[d].delegate.Some?
  }

  function WithVotes(r: Account, change: int): Account {
    if r.delegate.None? then r else Account(Some(r.delegate.value.(votesFor := r.delegate.value.votesFor + change)))
  }

  function AddVotes(l: Ledger, votes: map<AccountId, int>): Ledger {
    l.(accounts := map d | d in l.accounts :: WithVotes(l.accounts[d], Get(votes, d)))
  }

  lemma AddVotesKeeps(l: Ledger, votes: map<AccountId, int>, a: AssetId, d: AccountId, negatives: bool)
    requires Electable(l, votes)
    ensures var n := AddVotes(l, votes);
      && Holdings(n, a) == Holdings(l, a) && Supply(n, a) == Supply(l, a) && Debt(n, a) == Debt(l, a)
      && ExtraVotes(n, d, negatives) == ExtraVotes(l, d, negatives) + Get(votes, d)
  {
    var n := AddVotes(l, votes);
    forall i | i in l.accounts ensures PayOf()(i, l.accounts[i]) == PayOf()(i, n.accounts[i]) {
    }
    TotalSame(l.accounts, PayOf(), n.accounts, PayOf());
  }

  lemma AddVotesExtends(l: Ledger, votes: map<AccountId, int>)
    requires WellFormed(l)
    ensures Extends(l, AddVotes(l, votes))
  {
  }

  // ---------- the transaction ----------

  function Start(l: Ledger): Evaluation {
    Evaluation(l, map[], map[], 0, 0)
  }

  /** The state after an accepted transaction. */
  ghost function Evaluate(l: Ledger, ops: seq<Operation>, c: Config): Option<Ledger> {
    var e :- Run(Start(l), ops, c);
    if !Payable(e.ledger, e.balance) || e.requiredFees > Get(e.balance, 0) + e.altFees + AltFees(e.ledger, e.balance, c)
       || !Electable(e.ledger, e.votes) then None
    else Some(AddVotes(CollectFees(e.ledger, e.balance), e.votes))
  }

  /** An accepted transaction keeps supply minus holdings of every asset, the votes of every delegate
      beyond its pay and stake, and supply minus debt of every market-issued asset, but for exactly
      what its operations lose and forgive. */
  lemma TransactionKeeps(l: Ledger, ops: seq<Operation>, c: Config, a: AssetId, d: AccountId)
    requires WellFormed(l) && Evaluate(l, ops, c).Some?
    ensures var n := Evaluate(l, ops, c).value;
      && Extends(l, n)
      && Supply(n, a) - Holdings(n, a) == Supply(l, a) - Holdings(l, a) + LostInRun(Start(l), ops, c, a)
      && ExtraVotes(n, d, c.negativeVotes) == ExtraVotes(l, d, c.negativeVotes)
      && (MarketIssued(l, a) ==> Uncovered(n, a) == Uncovered(l, a) + ForgivenInRun(Start(l), ops, c, a))
  {
    var e := Run(Start(l), ops, c).value;
    var m := CollectFees(e.ledger, e.balance);
    RunKeeps(Start(l), ops, c, a, d);
    CollectFeesKeeps(e.ledger, e.balance, a, d, c.negativeVotes);
    AddVotesKeeps(m, e.votes, a, d, c.negativeVotes);
    TransactionExtends(l, ops, c);
  }

  lemma TransactionExtends(l: Ledger, ops: seq<Operation>, c: Config)
    requires WellFormed(l) && Evaluate(l, ops, c).Some?
    ensures Extends(l, Evaluate(l, ops, c).value)
  {
    var e := Run(Start(l), ops, c).value;
    RunExtends(Start(l), ops, c);
    CollectFeesExtends(e.ledger, e.balance);
    AddVotesExtends(CollectFees(e.ledger, e.balance), e.votes);
  }

  lemma RunExtends(e: Evaluation, ops: seq<Operation>, c: Config)
    requires WellFormed(e.ledger) && Run(e, ops, c).Some?
    ensures Extends(e.ledger, Run(e, ops, c).value.ledger)
  {
    RunKeeps(e, ops, c, 0, 0);
    forall a ensures MarketIssued(e.ledger, a) ==> MarketIssued(Run(e, ops, c).value.ledger, a) {
      RunKeeps(e, ops, c, a, 0);
    }
  }

  /** Every operation keeps its collateral, bids and debt counted, in the state it is evaluated in. */
  predicate Faithful(e: Evaluation, ops: seq<Operation>, c: Config)
    decreases |ops|
  {
    ops == [] ||
    (Counted(e.ledger, ops[0], c) && Owed(e.ledger, ops[0], c)
     && match Apply(e, ops[0], c) case None => true case Some(f) => Faithful(f, ops[1..], c))
  }

  lemma {:induction false} FaithfulLosesNothing(e: Evaluation, ops: seq<Operation>, c: Config, a: AssetId)
    requires Run(e, ops, c).Some? && Faithful(e, ops, c)
    ensures LostInRun(e, ops, c, a) == 0 && ForgivenInRun(e, ops, c, a) == 0
    decreases |ops|
  {
    if ops != [] {
      LosesNothing(e, ops[0], c);
      ForgivesNothing(e, ops[0], c);
      FaithfulLosesNothing(Apply(e, ops[0], c).value, ops[1..], c, a);
    }
  }

  /** A faithful transaction conserves every asset, and keeps a market-issued asset as well backed by
      cover debt as it was. */
  lemma TransactionConserves(l: Ledger, ops: seq<Operation>, c: Config, a: AssetId)
    requires WellFormed(l) && Evaluate(l, ops, c).Some? && Faithful(Start(l), ops, c)
    ensures var n := Evaluate(l, ops, c).value;
      && Supply(n, a) - Holdings(n, a) == Supply(l, a) - Holdings(l, a)
      && (MarketIssued(l, a) ==> Holdings(n, a) - Debt(n, a) == Holdings(l, a) - Debt(l, a))
  {
    TransactionKeeps(l, ops, c, a, 0);
    FaithfulLosesNothing(Start(l), ops, c, a);
  }

  // ---------- delegate pay ----------

  /** The producer's pay out of the fees: its rate's share goes to its pay balance and votes, and the
      rest leaves the supply. */
  function PayDelegate(l: Ledger, producer: AccountId, maxPay: nat): Option<Ledger> {
    if producer !in l.accounts || l.accounts[producer].delegate.None? || l.accounts[producer].delegate.value.payRate > 100
       || 0 !in l.assets then None
    else
      var r, s := l.accounts[producer].delegate.value, l.assets[0];
      var accepted := r.payRate * maxPay / 100;
      Some(l.(assets := l.assets[0 := s.(fees := s.fees - maxPay, supply := s.supply - (maxPay - accepted))],
              accounts := l.accounts[producer := Account(Some(r.(pay := r.pay + accepted, votesFor := r.votesFor + accepted)))]))
  }

  lemma PayDelegateKeeps(l: Ledger, producer: AccountId, maxPay: nat, a: AssetId, d: AccountId, negatives: bool)
    requires WellFormed(l) && PayDelegate(l, producer, maxPay).Some?
    ensures var n := PayDelegate(l, producer, maxPay).value;
      && Supply(n, a) - Holdings(n, a) == Supply(l, a) - Holdings(l, a)
      && ExtraVotes(n, d, negatives) == ExtraVotes(l, d, negatives)
      && (a != 0 ==> Uncovered(n, a) == Uncovered(l, a))
  {
    var n := PayDelegate(l, producer, maxPay).value;
    StoreAsset(l, 0, n.assets[0], a);
    StoreAccount(l.(assets := n.assets), producer, n.accounts[producer], a);
  }

  lemma PayDelegateExtends(l: Ledger, producer: AccountId, maxPay: nat)
    requires WellFormed(l) && PayDelegate(l, producer, maxPay).Some?
    ensures Extends(l, PayDelegate(l, producer, maxPay).value)
  {
  }

  /** In figures: the producer's pay and votes rise by its rate's percentage of the paycheck, rounded down; the whole
      paycheck leaves the fees and the rest of it the supply; and nobody else's pay or votes move. */
  lemma PayIsShare(l: Ledger, producer: AccountId, maxPay: nat, d: AccountId)
    requires PayDelegate(l, producer, maxPay).Some?
    ensures var n, rate := PayDelegate(l, producer, maxPay).value, l.accounts[producer].delegate.value.payRate;
      var rise := Pay(n, producer) - Pay(l, producer);
      && 100 * rise <= rate * maxPay < 100 * rise + 100 && rise <= maxPay
      && VotesFor(n, producer) == VotesFor(l, producer) + rise
      && Fees(n, 0) == Fees(l, 0) - maxPay && Supply(n, 0) == Supply(l, 0) - (maxPay - rise)
      && (d != producer ==> Pay(n, d) == Pay(l, d) && VotesFor(n, d) == VotesFor(l, d))
  {
    var rate := l.accounts[producer].delegate.value.payRate;
    DivBounds(rate * maxPay, 100);
    MulMono(rate, 100, maxPay);
    DivAtMost(rate * maxPay, 100, maxPay);
  }
}
