/** The tables a transaction and a market engine write to, and what is counted over them: an asset's
    holdings against its supply, cover debt against supply, and votes against stake. */
module Ledgers {
  import opened Options
  import opened Prices
  import opened Sums

  type AssetId = int
  type AccountId = int

  /** A deposit's withdraw condition; its hash is the key of the balance table. */
  datatype Condition = Condition(owner: nat, asset: AssetId, slate: nat)

  datatype OrderKey = OrderKey(price: Price, owner: nat)

  const MARKET_ISSUED_ASSET: AccountId := -2
  const MARKET_FEED_ISSUED_ASSET: AccountId := -3

  datatype Asset = Asset(issuer: AccountId, supply: int, maxSupply: int, fees: int)
  {
    predicate IsMarketIssued() {
      issuer == MARKET_ISSUED_ASSET || issuer == MARKET_FEED_ISSUED_ASSET
    }
  }

  datatype Balance = Balance(amount: nat, deposited: nat, genesis: bool)
  datatype Collateral = Collateral(collateral: nat, payoff: nat, interest: Price, expiration: int)
  datatype Delegate = Delegate(votesFor: int, payRate: nat, pay: int)
  datatype Account = Account(delegate: Option<Delegate>)

  const NO_PRICE := Price(0, 0, 0)
  const NO_COLLATERAL := Collateral(0, 0, NO_PRICE, 0)

  datatype Ledger = Ledger(
    assets: map<AssetId, Asset>,
    balances: map<Condition, Balance>,
    bids: map<OrderKey, nat>,
    asks: map<OrderKey, nat>,
    shorts: map<OrderKey, nat>,
    collateral: map<OrderKey, Collateral>,
    accounts: map<AccountId, Account>,
    slates: map<nat, seq<AccountId>>,
    lastAsset: AssetId,
    lastAccount: AccountId)

  function Get<K>(m: map<K, int>, k: K): int {
    if k in m then m[k] else 0
  }

  function Abs(x: int): nat {
    if x < 0 then -x else x
  }

  // ---------- what is counted ----------

  ghost function AmountOf(a: AssetId): (Condition, Balance) -> int {
    (k: Condition, r: Balance) => if k.asset == a then r.amount else 0
  }

  ghost function QuoteOrder(a: AssetId): (OrderKey, nat) -> int {
    (k: OrderKey, r: nat) => if k.price.quote == a then r else 0
  }

  ghost function BaseOrder(a: AssetId): (OrderKey, nat) -> int {
    (k: OrderKey, r: nat) => if k.price.base == a then r else 0
  }

  ghost function AnyOrder(): (OrderKey, nat) -> int {
    (k: OrderKey, r: nat) => r
  }

  ghost function CollateralOf(): (OrderKey, Collateral) -> int {
    (k: OrderKey, r: Collateral) => r.collateral
  }

  ghost function PayoffOf(a: AssetId): (OrderKey, Collateral) -> int {
    (k: OrderKey, r: Collateral) => if k.price.quote == a then r.payoff else 0
  }

  function PayBalance(r: Account): int {
    if r.delegate.Some? then r.delegate.value.pay else 0
  }

  ghost function PayOf(): (AccountId, Account) -> int {
    (k: AccountId, r: Account) => PayBalance(r)
  }

  /** How often a slate names a delegate; a negative entry counts against it when negative votes are
      enabled. */
  function Weight(slate: seq<AccountId>, d: AccountId, negatives: bool): int {
    if slate == [] then 0
    else (if Abs(slate[0]) != d then 0 else if negatives && slate[0] < 0 then -1 else 1) + Weight(slate[1..], d, negatives)
  }

  /** A slate's weight for a delegate: how often it is named, and how often against. */
  lemma {:induction false} WeightIs(slate: seq<AccountId>, d: AccountId, negatives: bool)
    requires d > 0
    ensures negatives ==> Weight(slate, d, negatives) + multiset(slate)[-d] == multiset(slate)[d]
    ensures !negatives ==> Weight(slate, d, negatives) == multiset(slate)[d] + multiset(slate)[-d]
  {
    if slate != [] {
      assert slate == [slate[0]] + slate[1..];
      WeightIs(slate[1..], d, negatives);
    }
  }

  function SlateOf(slates: map<nat, seq<AccountId>>, id: nat): seq<AccountId> {
    if id != 0 && id in slates then slates[id] else []
  }

  ghost function StakeOf(slates: map<nat, seq<AccountId>>, d: AccountId, negatives: bool): (Condition, Balance) -> int {
    (k: Condition, r: Balance) => if k.asset == 0 then r.amount * Weight(SlateOf(slates, k.slate), d, negatives) else 0
  }

  function Supply(l: Ledger, a: AssetId): int {
    if a in l.assets then l.assets[a].supply else 0
  }

  function Fees(l: Ledger, a: AssetId): int {
    if a in l.assets then l.assets[a].fees else 0
  }

  predicate MarketIssued(l: Ledger, a: AssetId) {
    a in l.assets && l.assets[a].IsMarketIssued()
  }

  /** Everything of an asset that somebody or something holds. */
  ghost function Holdings(l: Ledger, a: AssetId): int {
    Fees(l, a) + Total(l.balances, AmountOf(a)) + Total(l.asks, BaseOrder(a)) +
    if a == 0 then Total(l.shorts, AnyOrder()) + Total(l.collateral, CollateralOf()) + Total(l.accounts, PayOf())
    else Total(l.bids, QuoteOrder(a))
  }

  /** Everything owed of an asset by covers. */
  ghost function Debt(l: Ledger, a: AssetId): int {
    Total(l.collateral, PayoffOf(a))
  }

  ghost function Stake(l: Ledger, d: AccountId, negatives: bool): int {
    Total(l.balances, StakeOf(l.slates, d, negatives))
  }

  function VotesFor(l: Ledger, d: AccountId): int {
    if d in l.accounts && l.accounts[d].delegate.Some? then l.accounts[d].delegate.value.votesFor else 0
  }

  function Pay(l: Ledger, d: AccountId): int {
    if d in l.accounts then PayBalance(l.accounts[d]) else 0
  }

  /** Votes a delegate has beyond its pay and its stake. */
  ghost function ExtraVotes(l: Ledger, d: AccountId, negatives: bool): int {
    VotesFor(l, d) - Pay(l, d) - Stake(l, d, negatives)
  }

  /** Every funded base-asset deposit supports a slate that is known. An undone block may leave the null
      record of a deposit whose slate it took away. */
  ghost predicate SlatesKnown(l: Ledger) {
    forall k :: k in l.balances && l.balances[k].amount > 0 && k.asset == 0 && k.slate != 0 ==> k.slate in l.slates
  }

  ghost predicate WellFormed(l: Ledger) {
    && 0 in l.assets && !l.assets[0].IsMarketIssued()
    && SlatesKnown(l)
    && (forall d :: d in l.accounts ==> 1 <= d <= l.lastAccount)
    && 0 <= l.lastAccount
  }

  /** What the operations check of an order before they store it: bids and asks have a price, a short is
      in the base asset; and asset ids are given out upwards from 0. */
  ghost predicate Listable(l: Ledger) {
    && (forall k :: k in l.bids ==> k.price.ratio > 0)
    && (forall k :: k in l.asks ==> k.price.ratio > 0)
    && (forall k :: k in l.shorts ==> k.price.base == 0)
    && (forall a :: a in l.assets ==> 0 <= a <= l.lastAsset)
  }

  // ---------- what one store changes ----------

  lemma StoreBalance(l: Ledger, k: Condition, r: Balance, a: AssetId)
    ensures var n := l.(balances := l.balances[k := r]);
      && Holdings(n, a) == Holdings(l, a) + (if k.asset != a then 0 else r.amount - BalanceAt(l, k))
      && Debt(n, a) == Debt(l, a)
  {
    TotalStore(l.balances, AmountOf(a), k, r);
  }

  function BalanceAt(l: Ledger, k: Condition): nat {
    if k in l.balances then l.balances[k].amount else 0
  }

  lemma StoreBalanceStake(l: Ledger, k: Condition, r: Balance, change: int, d: AccountId, negatives: bool)
    requires change == r.amount - BalanceAt(l, k)
    ensures Stake(l.(balances := l.balances[k := r]), d, negatives) == Stake(l, d, negatives) +
      if k.asset == 0 then change * Weight(SlateOf(l.slates, k.slate), d, negatives) else 0
  {
    var w := Weight(SlateOf(l.slates, k.slate), d, negatives);
    TotalStore(l.balances, StakeOf(l.slates, d, negatives), k, r);
    assert change * w == r.amount * w - BalanceAt(l, k) * w;
  }

  lemma StoreAsset(l: Ledger, i: AssetId, r: Asset, a: AssetId)
    ensures var n := l.(assets := l.assets[i := r]);
      && Supply(n, a) - Holdings(n, a) == Supply(l, a) - Holdings(l, a) +
         (if i != a then 0 else (r.supply - r.fees) - (Supply(l, a) - Fees(l, a)))
      && Debt(n, a) == Debt(l, a)
  {
  }

  lemma StoreBid(l: Ledger, k: OrderKey, r: nat, a: AssetId)
    ensures Holdings(l.(bids := l.bids[k := r]), a) == Holdings(l, a) +
      if a == 0 || k.price.quote != a then 0 else r - Get(l.bids, k)
  {
    TotalStore(l.bids, QuoteOrder(a), k, r);
  }

  lemma StoreAsk(l: Ledger, k: OrderKey, r: nat, a: AssetId)
    ensures Holdings(l.(asks := l.asks[k := r]), a) == Holdings(l, a) +
      if k.price.base != a then 0 else r - Get(l.asks, k)
  {
    TotalStore(l.asks, BaseOrder(a), k, r);
  }

  lemma StoreShort(l: Ledger, k: OrderKey, r: nat, a: AssetId)
    ensures Holdings(l.(shorts := l.shorts[k := r]), a) == Holdings(l, a) +
      if a != 0 then 0 else r - Get(l.shorts, k)
  {
    TotalStore(l.shorts, AnyOrder(), k, r);
  }

  function CollateralAt(l: Ledger, k: OrderKey): Collateral {
    if k in l.collateral then l.collateral[k] else NO_COLLATERAL
  }

  lemma StoreCollateral(l: Ledger, k: OrderKey, r: Collateral, a: AssetId)
    ensures var n := l.(collateral := l.collateral[k := r]);
      && Holdings(n, a) == Holdings(l, a) + (if a != 0 then 0 else r.collateral - CollateralAt(l, k).collateral)
      && Debt(n, a) == Debt(l, a) + (if k.price.quote != a then 0 else r.payoff - CollateralAt(l, k).payoff)
  {
    TotalStore(l.collateral, CollateralOf(), k, r);
    TotalStore(l.collateral, PayoffOf(a), k, r);
  }

  lemma StoreAccount(l: Ledger, i: AccountId, r: Account, a: AssetId)
    ensures Holdings(l.(accounts := l.accounts[i := r]), a) == Holdings(l, a) +
      if a != 0 then 0 else PayBalance(r) - Pay(l, i)
  {
    TotalStore(l.accounts, PayOf(), i, r);
  }

  // ---------- a slate that is not in use ----------

  /** Defining a slate nobody supports yet changes no stake. */
  lemma StoreSlate(l: Ledger, id: nat, slate: seq<AccountId>, d: AccountId, negatives: bool)
    requires SlatesKnown(l) && id !in l.slates
    ensures Stake(l.(slates := l.slates[id := slate]), d, negatives) == Stake(l, d, negatives)
  {
    var n := l.slates[id := slate];
    forall k | k in l.balances
      ensures StakeOf(l.slates, d, negatives)(k, l.balances[k]) == StakeOf(n, d, negatives)(k, l.balances[k])
    {
      assert k.asset == 0 && l.balances[k].amount > 0 ==> SlateOf(l.slates, k.slate) == SlateOf(n, k.slate);
    }
    TotalSame(l.balances, StakeOf(l.slates, d, negatives), l.balances, StakeOf(n, d, negatives));
  }
}
