/** pending_chain_state: an overlay of changed records, its commit into the state below, and the undo
    overlay computed from it beforehand. */
module Overlay {
  import opened Options
  import opened AccountTable

  type AssetId = int

  type Pair = (AssetId, AssetId)

  /** In each record `rest` stands for the fields nothing here looks at. */
  datatype AssetRecord = AssetRecord(issuer: int, rest: nat)
  datatype BalanceRecord = BalanceRecord(balance: int, rest: nat)
  datatype OrderRecord = OrderRecord(balance: int, rest: nat)
  datatype CollateralRecord = CollateralRecord(collateral: int, payoff: int, rest: nat)
  datatype FeedRecord = FeedRecord(value: Option<nat>, rest: nat)
  datatype BurnRecord = BurnRecord(amount: int, rest: nat)
  datatype MarketKey = MarketKey(quote: AssetId, base: AssetId, ratio: nat, owner: nat)
  {
    function AssetPair(): Pair {
      (quote, base)
    }
  }

  type Slate = seq<AccountId>

  // ---------- one table ----------

  /** A table after storing every pending record, where storing a null record removes. */
  function Commit<K, V>(base: map<K, V>, pending: map<K, V>, isNull: V -> bool): map<K, V> {
    map k | k in base.Keys + pending.Keys && (k in pending ==> !isNull(pending[k])) ::
      if k in pending then pending[k] else base[k]
  }

  /** The undo records: what the table below holds, or the null version of the pending record. */
  function Undo<K, V>(base: map<K, V>, pending: map<K, V>, nullOf: V -> V): map<K, V> {
    map k | k in pending :: if k in base then base[k] else nullOf(pending[k])
  }

  ghost predicate NoNulls<K(!new), V>(base: map<K, V>, isNull: V -> bool) {
    forall k :: k in base ==> !isNull(base[k])
  }

  lemma CommitUndo<K(!new), V(!new)>(base: map<K, V>, pending: map<K, V>, isNull: V -> bool, nullOf: V -> V)
    requires NoNulls(base, isNull) && forall v :: isNull(nullOf(v))
    ensures Commit(Commit(base, pending, isNull), Undo(base, pending, nullOf), isNull) == base
  {
  }

  lemma CommitNoNulls<K(!new), V>(base: map<K, V>, pending: map<K, V>, isNull: V -> bool)
    requires NoNulls(base, isNull)
    ensures NoNulls(Commit(base, pending, isNull), isNull)
  {
  }

  /** The next key of an unordered map, in no particular order. */
  method Pick<K>(keys: set<K>) returns (k: K)
    requires keys != {}
    ensures k in keys
  {
    k :| k in keys;
  }

  /** One of the loops of apply_changes, over an unordered map. */
  method CommitTable<K, V>(base: map<K, V>, pending: map<K, V>, isNull: V -> bool) returns (table: map<K, V>)
    ensures table == Commit(base, pending, isNull)
  {
    table := base;
    var todo := pending.Keys;
    while todo != {}
      invariant todo <= pending.Keys
      invariant table == Commit(base, map k | k in pending && k !in todo :: pending[k], isNull)
      decreases todo
    {
      var k := Pick(todo);
      if isNull(pending[k]) {
        table := table - {k};
      } else {
        table := table[k := pending[k]];
      }
      todo := todo - {k};
    }
    assert (map k | k in pending && k !in todo :: pending[k]) == pending;
  }

  /** One of the loops of get_undo_state. */
  method UndoTable<K, V>(base: map<K, V>, pending: map<K, V>, nullOf: V -> V) returns (undo: map<K, V>)
    ensures undo == Undo(base, pending, nullOf)
  {
    undo := map[];
    var todo := pending.Keys;
    while todo != {}
      invariant todo <= pending.Keys
      invariant undo == Undo(base, map k | k in pending && k !in todo :: pending[k], nullOf)
      decreases todo
    {
      var k := Pick(todo);
      undo := undo[k := if k in base then base[k] else nullOf(pending[k])];
      todo := todo - {k};
    }
    assert (map k | k in pending && k !in todo :: pending[k]) == pending;
  }

  /** The accounts loop of apply_changes: each store also keeps the vote index. */
  method CommitAccounts(db: AccountDb, pending: Accounts)
    requires db.Valid() && ById(pending)
    modifies db
    ensures db.Valid() && db.accounts == Commit(old(db.accounts), pending, AccountNull)
  {
    var todo := pending.Keys;
    while todo != {}
      invariant todo <= pending.Keys && db.Valid()
      invariant db.accounts == Commit(old(db.accounts), map k | k in pending && k !in todo :: pending[k], AccountNull)
      decreases todo
    {
      var k := Pick(todo);
      CommitOneMore(old(db.accounts), pending, todo, k, AccountNull);
      db.StoreAccountRecord(pending[k]);
      todo := todo - {k};
    }
    assert (map k | k in pending && k !in todo :: pending[k]) == pending;
  }

  lemma CommitOneMore<K, V>(base: map<K, V>, pending: map<K, V>, todo: set<K>, k: K, isNull: V -> bool)
    requires k in todo && k in pending
    ensures Commit(base, map j | j in pending && j !in todo - {k} :: pending[j], isNull) ==
      var done := Commit(base, map j | j in pending && j !in todo :: pending[j], isNull);
      if isNull(pending[k]) then done - {k} else done[k := pending[k]]
  {
  }

  // ---------- null records ----------

  function AssetNull(r: AssetRecord): bool { r.issuer == -1 }
  function NullAsset(r: AssetRecord): AssetRecord { r.(issuer := -1) }

  function AccountNull(r: AccountRecord): bool { r.IsNull() }
  function NullAccount(r: AccountRecord): AccountRecord { r.MakeNull() }

  function SlateNull(s: Slate): bool { s == [] }
  function NullSlate(s: Slate): Slate { [] }

  function OrderNull(r: OrderRecord): bool { r.balance == 0 }
  function NullOrder(r: OrderRecord): OrderRecord { OrderRecord(0, 0) }

  function CollateralNull(r: CollateralRecord): bool { r.collateral == 0 && r.payoff == 0 }
  function NullCollateral(r: CollateralRecord): CollateralRecord { CollateralRecord(0, 0, 0) }

  function FeedNull(r: FeedRecord): bool { r.value.None? }
  function NullFeed(r: FeedRecord): FeedRecord { FeedRecord(None, 0) }

  function BurnNull(r: BurnRecord): bool { r.amount == 0 }

  function PropertyNull(v: Option<nat>): bool { v.None? }
  function NullProperty(v: Option<nat>): Option<nat> { None }

  /** The database keeps balance records for ever, null or not. */
  function NeverNull(r: BalanceRecord): bool { false }
  function NullBalance(r: BalanceRecord): BalanceRecord { r.(balance := 0) }

  // ---------- all the tables ----------

  /** The records of a state, be it the database or an overlay; dirty are the markets to match next. */
  datatype Tables = Tables(
    assets: map<AssetId, AssetRecord>,
    accounts: Accounts,
    balances: map<nat, BalanceRecord>,
    slates: map<nat, Slate>,
    bids: map<MarketKey, OrderRecord>,
    asks: map<MarketKey, OrderRecord>,
    shorts: map<MarketKey, OrderRecord>,
    collateral: map<MarketKey, CollateralRecord>,
    feeds: map<nat, FeedRecord>,
    burns: map<nat, BurnRecord>,
    properties: map<nat, Option<nat>>,
    dirty: set<Pair>)

  function Apply(db: Tables, p: Tables): Tables {
    Tables(
      Commit(db.assets, p.assets, AssetNull),
      Commit(db.accounts, p.accounts, AccountNull),
      Commit(db.balances, p.balances, NeverNull),
      Commit(db.slates, p.slates, SlateNull),
      Commit(db.bids, p.bids, OrderNull),
      Commit(db.asks, p.asks, OrderNull),
      Commit(db.shorts, p.shorts, OrderNull),
      Commit(db.collateral, p.collateral, CollateralNull),
      Commit(db.feeds, p.feeds, FeedNull),
      Commit(db.burns, p.burns, BurnNull),
      Commit(db.properties, p.properties, PropertyNull),
      p.dirty)
  }

  /** A table reads as the pending records do, null ones as absent, and otherwise as before. */
  ghost predicate Overlaid<K(!new), V>(base: map<K, V>, pending: map<K, V>, now: map<K, V>, isNull: V -> bool) {
    && (forall k :: k in now <==> if k in pending then !isNull(pending[k]) else k in base)
    && (forall k :: k in now ==> now[k] == if k in pending then pending[k] else base[k])
  }

  lemma CommitOverlays<K(!new), V>(base: map<K, V>, pending: map<K, V>, isNull: V -> bool)
    ensures Overlaid(base, pending, Commit(base, pending, isNull), isNull)
  {
  }

  /** Every table of the database takes the overlay's records. */
  lemma ApplyWrites(db: Tables, p: Tables)
    ensures var now := Apply(db, p);
      && Overlaid(db.assets, p.assets, now.assets, AssetNull) && Overlaid(db.accounts, p.accounts, now.accounts, AccountNull)
      && Overlaid(db.balances, p.balances, now.balances, NeverNull) && Overlaid(db.slates, p.slates, now.slates, SlateNull)
      && Overlaid(db.bids, p.bids, now.bids, OrderNull) && Overlaid(db.asks, p.asks, now.asks, OrderNull)
      && Overlaid(db.shorts, p.shorts, now.shorts, OrderNull) && Overlaid(db.collateral, p.collateral, now.collateral, CollateralNull)
      && Overlaid(db.feeds, p.feeds, now.feeds, FeedNull) && Overlaid(db.burns, p.burns, now.burns, BurnNull)
      && Overlaid(db.properties, p.properties, now.properties, PropertyNull) && now.dirty == p.dirty
  {
    CommitOverlays(db.assets, p.assets, AssetNull);
    CommitOverlays(db.accounts, p.accounts, AccountNull);
    CommitOverlays(db.balances, p.balances, NeverNull);
    CommitOverlays(db.slates, p.slates, SlateNull);
    CommitOverlays(db.bids, p.bids, OrderNull);
    CommitOverlays(db.asks, p.asks, OrderNull);
    CommitOverlays(db.shorts, p.shorts, OrderNull);
    CommitOverlays(db.collateral, p.collateral, CollateralNull);
    CommitOverlays(db.feeds, p.feeds, FeedNull);
    CommitOverlays(db.burns, p.burns, BurnNull);
    CommitOverlays(db.properties, p.properties, PropertyNull);
  }

  /** The markets whose order tables an overlay writes. */
  function Touched(p: Tables): set<Pair> {
    set k | k in p.bids.Keys + p.asks.Keys + p.shorts.Keys + p.collateral.Keys :: k.AssetPair()
  }

  /** What get_undo_state fills in; storing the undone orders is what marks its markets dirty. */
  function UndoOf(db: Tables, p: Tables): Tables {
    Tables(
      Undo(db.assets, p.assets, NullAsset),
      Undo(db.accounts, p.accounts, NullAccount),
      Undo(db.balances, p.balances, NullBalance),
      Undo(db.slates, p.slates, NullSlate),
      Undo(db.bids, p.bids, NullOrder),
      Undo(db.asks, p.asks, NullOrder),
      Undo(db.shorts, p.shorts, NullOrder),
      Undo(db.collateral, p.collateral, NullCollateral),
      Undo(db.feeds, p.feeds, NullFeed),
      map k | k in p.burns :: BurnRecord(0, 0),
      Undo(db.properties, p.properties, NullProperty),
      Touched(p))
  }

  /** A database never holds a null record, balances apart. */
  ghost predicate NullFree(db: Tables) {
    && NoNulls(db.assets, AssetNull) && NoNulls(db.accounts, AccountNull) && NoNulls(db.slates, SlateNull)
    && NoNulls(db.bids, OrderNull) && NoNulls(db.asks, OrderNull) && NoNulls(db.shorts, OrderNull)
    && NoNulls(db.collateral, CollateralNull) && NoNulls(db.feeds, FeedNull) && NoNulls(db.burns, BurnNull)
    && NoNulls(db.properties, PropertyNull)
  }

  lemma ApplyNullFree(db: Tables, p: Tables)
    requires NullFree(db)
    ensures NullFree(Apply(db, p))
  {
    CommitNoNulls(db.assets, p.assets, AssetNull);
    CommitNoNulls(db.accounts, p.accounts, AccountNull);
    CommitNoNulls(db.slates, p.slates, SlateNull);
    CommitNoNulls(db.bids, p.bids, OrderNull);
    CommitNoNulls(db.asks, p.asks, OrderNull);
    CommitNoNulls(db.shorts, p.shorts, OrderNull);
    CommitNoNulls(db.collateral, p.collateral, CollateralNull);
    CommitNoNulls(db.feeds, p.feeds, FeedNull);
    CommitNoNulls(db.burns, p.burns, BurnNull);
    CommitNoNulls(db.properties, p.properties, PropertyNull);
  }

  /** `now` is `was` again after p was applied and undone: in every table that removes null records; in
      the burns exactly when p burned nothing already on record, in the balances when it opened no new
      one, and in the dirty markets when they were just those it touches. */
  ghost predicate Restored(was: Tables, now: Tables, p: Tables) {
    && now.(burns := was.burns, balances := was.balances, dirty := was.dirty) == was
    && (now.burns == was.burns <==> p.burns.Keys !! was.burns.Keys)
    && (now.balances == was.balances <==> p.balances.Keys <= was.balances.Keys)
    && (now.dirty == was.dirty <==> was.dirty == Touched(p))
  }

  /** Applying an overlay and then the undo computed beforehand restores the database. */
  lemma UndoRestores(db: Tables, p: Tables)
    requires NullFree(db)
    ensures Restored(db, Apply(Apply(db, p), UndoOf(db, p)), p)
  {
    CommitUndo(db.assets, p.assets, AssetNull, NullAsset);
    CommitUndo(db.accounts, p.accounts, AccountNull, NullAccount);
    CommitUndo(db.slates, p.slates, SlateNull, NullSlate);
    CommitUndo(db.bids, p.bids, OrderNull, NullOrder);
    CommitUndo(db.asks, p.asks, OrderNull, NullOrder);
    CommitUndo(db.shorts, p.shorts, OrderNull, NullOrder);
    CommitUndo(db.collateral, p.collateral, CollateralNull, NullCollateral);
    CommitUndo(db.feeds, p.feeds, FeedNull, NullFeed);
    CommitUndo(db.properties, p.properties, PropertyNull, NullProperty);
    BurnsBack(db.burns, p.burns);
    BalancesBack(db.balances, p.balances);
  }

  lemma BurnsBack(burns: map<nat, BurnRecord>, pending: map<nat, BurnRecord>)
    requires NoNulls(burns, BurnNull)
    ensures Commit(Commit(burns, pending, BurnNull), map k | k in pending :: BurnRecord(0, 0), BurnNull) == burns - pending.Keys
    ensures burns - pending.Keys == burns <==> pending.Keys !! burns.Keys
  {
    if burns - pending.Keys == burns {
      assert burns.Keys - pending.Keys == burns.Keys;
    }
  }

  /** A balance record opened by the overlay survives its undo as a null record. */
  lemma BalancesBack(balances: map<nat, BalanceRecord>, pending: map<nat, BalanceRecord>)
    ensures var r := Commit(Commit(balances, pending, NeverNull), Undo(balances, pending, NullBalance), NeverNull);
      && (r == balances <==> pending.Keys <= balances.Keys)
      && (forall k :: k in balances ==> k in r && r[k] == balances[k])
      && (forall k :: k in r && k !in balances ==> r[k].balance == 0)
  {
    var r := Commit(Commit(balances, pending, NeverNull), Undo(balances, pending, NullBalance), NeverNull);
    assert r.Keys == balances.Keys + pending.Keys;
  }

  // ---------- the database and the overlay as objects ----------

  /** The tables of the chain database; the account table lives with its vote index. */
  class ChainTables {
    const accountDb: AccountDb
    var assets: map<AssetId, AssetRecord>
    var balances: map<nat, BalanceRecord>
    var slates: map<nat, Slate>
    var bids: map<MarketKey, OrderRecord>
    var asks: map<MarketKey, OrderRecord>
    var shorts: map<MarketKey, OrderRecord>
    var collateral: map<MarketKey, CollateralRecord>
    var feeds: map<nat, FeedRecord>
    var burns: map<nat, BurnRecord>
    var properties: map<nat, Option<nat>>
    var dirtyMarkets: set<Pair>

    constructor ()
      ensures fresh(accountDb) && Valid()
    {
      accountDb := new AccountDb();
      assets, balances, slates := map[], map[], map[];
      bids, asks, shorts, collateral := map[], map[], map[], map[];
      feeds, burns, properties, dirtyMarkets := map[], map[], map[], {};
    }

    function View(): Tables
      reads this, accountDb
    {
      Tables(assets, accountDb.accounts, balances, slates, bids, asks, shorts, collateral, feeds, burns, properties, dirtyMarkets)
    }

    ghost predicate Valid()
      reads this, accountDb
    {
      accountDb.Valid() && NullFree(View())
    }

    method Write(t: Tables)
      requires t.accounts == accountDb.accounts
      modifies this
      ensures View() == t
    {
      assets, balances, slates := t.assets, t.balances, t.slates;
      bids, asks, shorts, collateral := t.bids, t.asks, t.shorts, t.collateral;
      feeds, burns, properties, dirtyMarkets := t.feeds, t.burns, t.properties, t.dirty;
    }
  }

  class PendingChainState {
    var assets: map<AssetId, AssetRecord>
    var accounts: Accounts
    var balances: map<nat, BalanceRecord>
    var slates: map<nat, Slate>
    var bids: map<MarketKey, OrderRecord>
    var asks: map<MarketKey, OrderRecord>
    var shorts: map<MarketKey, OrderRecord>
    var collateral: map<MarketKey, CollateralRecord>
    var feeds: map<nat, FeedRecord>
    var burns: map<nat, BurnRecord>
    var properties: map<nat, Option<nat>>
    var dirtyMarkets: set<Pair>

    constructor (changes: Tables)
      ensures Changes() == changes
    {
      assets, accounts, balances, slates := changes.assets, changes.accounts, changes.balances, changes.slates;
      bids, asks, shorts, collateral := changes.bids, changes.asks, changes.shorts, changes.collateral;
      feeds, burns, properties := changes.feeds, changes.burns, changes.properties;
      dirtyMarkets := changes.dirty;
    }

    function Changes(): Tables
      reads this
    {
      Tables(assets, accounts, balances, slates, bids, asks, shorts, collateral, feeds, burns, properties, dirtyMarkets)
    }

    /** Commits every pending record downward; the markets this state dirtied become the dirty ones. */
    method ApplyChanges(db: ChainTables)
      requires db.Valid() && ById(accounts)
      modifies db, db.accountDb
      ensures db.Valid() && db.View() == Apply(old(db.View()), Changes())
    {
      ApplyNullFree(db.View(), Changes());
      var properties' := CommitTable(db.properties, properties, PropertyNull);
      var assets' := CommitTable(db.assets, assets, AssetNull);
      var balances' := CommitTable(db.balances, balances, NeverNull);
      var bids' := CommitTable(db.bids, bids, OrderNull);
      var asks' := CommitTable(db.asks, asks, OrderNull);
      var shorts' := CommitTable(db.shorts, shorts, OrderNull);
      var collateral' := CommitTable(db.collateral, collateral, CollateralNull);
      var slates' := CommitTable(db.slates, slates, SlateNull);
      var feeds' := CommitTable(db.feeds, feeds, FeedNull);
      var burns' := CommitTable(db.burns, burns, BurnNull);
      CommitAccounts(db.accountDb, accounts);
      db.Write(Tables(assets', db.accountDb.accounts, balances', slates', bids', asks', shorts', collateral',
                      feeds', burns', properties', dirtyMarkets));
    }

    /** The overlay that will undo this one. Reading a property the database lacks throws. */
    method GetUndoState(db: ChainTables) returns (undo: Option<PendingChainState>)
      requires db.Valid() && ById(accounts)
      ensures undo.Some? <==> properties.Keys <= db.properties.Keys
      ensures undo.Some? ==> fresh(undo.value) && undo.value.Changes() == UndoOf(db.View(), Changes())
      ensures undo.Some? ==> ById(undo.value.accounts)
    {
      if !(properties.Keys <= db.properties.Keys) {
        return None;
      }
      var properties' := UndoTable(db.properties, properties, NullProperty);
      var assets' := UndoTable(db.assets, assets, NullAsset);
      var slates' := UndoTable(db.slates, slates, NullSlate);
      var accounts' := UndoTable(db.accountDb.accounts, accounts, NullAccount);
      var balances' := UndoTable(db.balances, balances, NullBalance);
      var bids' := UndoTable(db.bids, bids, NullOrder);
      var asks' := UndoTable(db.asks, asks, NullOrder);
      var shorts' := UndoTable(db.shorts, shorts, NullOrder);
      var collateral' := UndoTable(db.collateral, collateral, NullCollateral);
      var feeds' := UndoTable(db.feeds, feeds, NullFeed);
      var burns' := map k | k in burns :: BurnRecord(0, 0);
      var u := new PendingChainState(Tables(assets', accounts', balances', slates', bids', asks', shorts', collateral',
                                            feeds', burns', properties', Touched(Changes())));
      return Some(u);
    }
  }

  /** Applying a block's overlay and later its undo overlay puts the database back, vote index included. */
  method ApplyThenUndo(db: ChainTables, pending: PendingChainState) returns (undone: bool)
    requires db.Valid() && ById(pending.accounts)
    modifies db, db.accountDb
    ensures undone <==> pending.properties.Keys <= old(db.properties.Keys)
    ensures db.Valid()
    ensures undone ==> Restored(old(db.View()), db.View(), pending.Changes())
    ensures undone ==> db.accountDb.index == old(db.accountDb.index)
  {
    var undo := pending.GetUndoState(db);
    undone := undo.Some?;
    if undone {
      ghost var was, index, p := db.View(), db.accountDb.index, pending.Changes();
      pending.ApplyChanges(db);
      undo.value.ApplyChanges(db);
      ghost var now := db.View();
      assert now == Apply(Apply(was, p), UndoOf(was, p));
      UndoRestores(was, p);
      IndexDetermined(db.accountDb.index, index, was.accounts);
    }
  }
}
