# A verified model of the LarkX blockchain core

LarkX is a delegated proof-of-stake node in the BitShares line. This project models the parts of its
`libraries/blockchain` where state and arithmetic are hardest, and the sync exchange of
`libraries/client`, and proves what they keep. `dafny verify dfyconfig.toml` checks all of it.

| file | models |
|---|---|
| `ForkTree.dfy`, `ChainDatabase.dfy` | the tree of stored blocks and its reorganisation: `store_and_index`, the two recursive marks, `pop_block`, `extend_chain`, `switch_to_fork`, `push_block` |
| `PendingChainState.dfy`, `VoteIndex.dfy`, `Layers.dfy`, `LedgerRules.dfy` | overlays: commit and undo, the delegate vote index, stacks of overlays, block assembly; and that overlay undo is the block undo the fork tree relies on |
| `Ledgers.dfy`, `Operations.dfy`, `Conservation.dfy`, `Transactions.dfy`, `RequiredFees.dfy`, `Permissions.dfy`, `Evaluations.dfy` | the evaluation of transactions: the tables and what is counted over them, sixteen operations, what each keeps, whole transactions, what they owe, whose leave they take, and the object that evaluates them step by step |
| `Prices.dfy`, `Interest.dfy`, `Matching.dfy`, `Settlement.dfy`, `Backing.dfy`, `Earnings.dfy`, `Clearing.dfy`, `Priority.dfy`, `MarketFrame.dfy`, `MarketEngine.dfy` | the market engine: fixed-point prices, what interest comes to, which orders meet and what they pay, what a payment moves, whole runs, whom they pay, what they leave unmatched, who goes first in them, what they leave alone, and the object that runs them |
| `Listing.dfy`, `Blocks.dfy`, `Delegates.dfy`, `Acceptance.dfy`, `Assembly.dfy`, `NullRecords.dfy`, `BlockObjects.dfy` | what the engine's iterators find; whole blocks and whole chains on the ledger; who stays a delegate over them, and so exactly which transactions are accepted; that the block a node assembles is one it can apply, and that undone blocks leave no trace but null records; and the loops over markets and transactions, on the objects |
| `Witnesses.dfy` | inputs on which the conditions below fail |
| `Yields.dfy` | the yield on a withdrawal |
| `Schedule.dfy` | slots, production statistics, the shuffle, the next slot to produce in |
| `ChainSync.dfy` | the synopsis of a chain and a peer's answer to it |
| `PriceText.dfy` | a price ratio printed and read back |
| `Options.dfy`, `Arithmetic.dfy`, `Sums.dfy` | a missing value; truncating quotients; sums over tables |

Where the original changes an object step by step there is a class or a method with its loops, and its
contract ties the new state to a function of the old one; what the design promises is then proved about
those functions, over every input, operation list or run. A step that throws is `None`, `Fail` or a
`false` result.

## Where the code does not keep what it sets out to

None of these is assumed away: each is stated with its condition, and what a switch, an undo, an operation or
a fill can lose also with an input on which it is lost (`Witnesses.dfy`).

- A failed switch gets back to the old head unless `ForkTree.RollbackLost` held before it: a block to be
  undone has no undo record; or the fork grew on the head itself and that is block 1 (whose parent has no
  record to supply a header) or has lost its record; or applying the new blocks pushed the records of the
  fork point out of the undo window. `ChainStore.BlockOneCannotBeRestored` is a concrete run.
- So the head can lose height: exactly when `ForkTree.HeightLost` held before the push. In that same run it
  falls from block 1 to genesis.
- `push_block` refuses what is `BTS_BLOCKCHAIN_MAX_UNDO_HISTORY` or more below the head as out of reach of the undo
  records. Records are kept by the highest number a head has had, which a failed switch can raise: so a block can
  be kept that the head can no longer be undone to (`ChainStore.SwitchShortensReach`), and one exactly that far
  below the highest head is refused although it could be; `ForkTree.KeptOrOutOfReach` says exactly when.
- At genesis a failed switch is not rolled back, and would keep the part of the fork that applies
  (`ChainStore.PartForkKept`); no undamaged run gets there, because while genesis is the head no stored first block
  applies (`ForkTree.FirstBlocksStayRefused`).
- The comment on `store_and_index` says it returns the highest block of the fork a block is on; the code
  does so only when the block fills a missing link, and otherwise returns the block itself. The flag
  `is_known` stays false when a placeholder is filled later.
- Undoing an overlay removes burn records it wrote over, keeps the balance records it opened (as null
  records), and leaves as dirty markets those it touched: `Witnesses.UndoFallsShort`. The null records make
  no difference to any later block (`NullRecords.UndoLeavesNoTrace`).
- A cover or collateral operation moves a record to a new key over whatever stands there
  (`Conservation.Displaced`; `Witnesses.CoverIsDisplaced`). A requested cover price in another market moves debt there
  (`Witnesses.CoverLeavesMarket`). A bid quoted in the base asset is not counted by `calculate_supply`
  (`Witnesses.BidIsNotHeld`), and collateral in a base other than asset 0 is counted at asset 0.
- In the market engine a cover that runs out of collateral has the rest of its debt taken from the fees
  but not from the supply; an ask's dust is booked as quote fees when a short buys it; an ask whose whole
  value is below one unit of quote is paid nothing by a short; a cover loaded from the database is stored
  back over what a short added to it in the same run; and collateral in a base other than asset 0 leaves
  asset 0, where it is counted, for that base. `Backing.Losses` lists these, per fill;
  `Witnesses.dfy` has a fill for each and a whole run. Where no short and no cover can trade, which can be told
  before the run, there are none of them (`Backing.ExecuteBacks`).
- Margin calls go before asks, but only up to the first cover that is not called: an expired one behind it waits
  (`Witnesses.ExpiredCoverWaits`).
- A yield for everything in circulation reaches the pool after a year and is then cut off to nothing
  (`Yields.WholeSupply`).
- A synopsis of 2^limit blocks or more is refused by the peer's size limit (25 with the constants of the
  client, where a comment puts the limit at about 26 entries).
- A printed ratio whose integer part needs more than 64 bits is not read back.

## Model

| member | source | states |
|---|---|---|
| `ForkTree.ReachesAfterStore` | libraries/blockchain/chain_database.cpp:592-666 | storing a block links exactly it and the stored descendants waiting for it, and only when its parent's chain already reaches genesis |
| `ForkTree.MissingLinkFilled` | libraries/blockchain/chain_database.cpp:642-658 | when a placeholder is filled, marking everything below it gives exactly the links of the larger tree |
| `ForkTree.MissingLinkHooked` | libraries/blockchain/chain_database.cpp:619-658 | and every entry still lists exactly its children |
| `ForkTree.MissingLinkUnjudged` | libraries/blockchain/chain_database.cpp:592-658 | and no entry's verdict, inclusion or known flag moves |
| `ForkTree.FilledTree` | libraries/blockchain/chain_database.cpp:592-666 | after a block that fills a linked placeholder, hooking it to its parent and marking everything below it leaves the fork database describing the larger tree |
| `ForkTree.EntryTree` | libraries/blockchain/chain_database.cpp:642-666 | a block whose entry is new, or whose parent is unlinked, leaves the fork database describing the larger tree |
| `ForkTree.MarkedAll` | libraries/blockchain/chain_database.cpp:520-568 | generation-by-generation marking is complete once a generation is empty: every proper descendant is marked and nothing else |
| `ForkTree.ForkPointSplits` | libraries/blockchain/chain_database.cpp:1142-1172 | the main chain and the path to another block agree exactly up to the fork point and share nothing after it |
| `ForkTree.AlignedPop` | libraries/blockchain/chain_database.cpp:1174-1201 | undoing the head with its own undo record restores flags, number index and ledger to what they were with its parent as head |
| `ForkTree.AlignedExtend` | libraries/blockchain/chain_database.cpp:1061-1074 | a block that applies on the head leaves flags, number index, ledger and undo records describing the chain one longer, the records being those of its upper end again |
| `ForkTree.AlignedStore` | libraries/blockchain/chain_database.cpp:592-666 | storing a block moves nothing the main chain rests on |
| `ForkTree.RevertPoint` | libraries/blockchain/chain_database.cpp:1711-1728 | seen from where a failed switch stopped, the old head branches off at the fork point, or one block below it when the new fork grew on the old head |
| `ForkTree.WayBack` | libraries/blockchain/chain_database.cpp:804-828 | the way back from a failed switch has all its undo records exactly when the window of kept records reaches the fork point |
| `ForkTree.WayBackEnds` | libraries/blockchain/chain_database.cpp:1711-1728 | where the way back from a failed switch leaves the head, by the window of records kept on the way up: at the highest block without one, at genesis when block 1 is popped, or back on the old head |
| `ForkTree.GapIs` | libraries/blockchain/chain_database.cpp:1174-1201 | popping from a head gets stuck at the highest block of its chain without an undo record |
| `ForkTree.TailPop` | libraries/blockchain/chain_database.cpp:1174-1201 | the undo records of the main chain are those of its upper end, from maxUndo below the highest number a head has had: undoing the head keeps this |
| `ForkTree.TailExtend` | libraries/blockchain/chain_database.cpp:804-828 | and so does an extension, which adds the new head's record and drops one |
| `ForkTree.CanUndoTo` | libraries/blockchain/chain_database.cpp:696-705 | so the main chain can be undone to a fork point exactly when the first block above it is at most maxUndo below the highest number reached |
| `ForkTree.KeptOrOutOfReach` | libraries/blockchain/chain_database.cpp:1676-1682 | for a block that would branch off the main chain, push_block's test of age against the undo window: what it keeps can be switched to, but for records exactly when a head has been more than maxUndo above it; what it refuses could not have been, but for a block exactly maxUndo below a head that is the highest so far |
| `ForkTree.RefusedIsOutOfReach` | libraries/blockchain/chain_database.cpp:1676-1682 | and no chain through a block refused at more than maxUndo below the head could be switched to, wherever it joins the main chain |
| `ForkTree.HeightDrops` | libraries/blockchain/chain_database.cpp:1674-1737 | a push leaves a lower head exactly when it tries a fork and HeightLost holds of the state before: the head can be undone but some block above the fork point cannot; or the fork stops applying and the way back pops block 1, or meets, below the old head's height, a block of the new fork whose record has been dropped |
| `ForkTree.RestsWhereItWas` | libraries/blockchain/chain_database.cpp:1711-1728 | a failed switch that damages nothing leaves the head where it was, at genesis too |
| `ForkTree.FirstBlocksStayRefused` | libraries/blockchain/chain_database.cpp:1674-1737 | while genesis is the head, no stored first block applies: every push that damages nothing keeps this, so no part-applied fork is ever kept at genesis |
| `ForkTree.LastGoodIs` | libraries/blockchain/chain_database.cpp:696-711 | a switch stops at the last block towards the target before the first that does not apply |
| `ChainStore.ChainDatabase.MarkGenerationLinked` | libraries/blockchain/chain_database.cpp:527-547 | one generation: exactly the listed entries are marked linked; their children come next; the entry returned is one of them |
| `ChainStore.ChainDatabase.RecursiveMarkAsLinked` | libraries/blockchain/chain_database.cpp:520-549 | marks exactly the proper descendants of the root, terminates, and returns one with the greatest block number |
| `ChainStore.ChainDatabase.MarkGenerationInvalid` | libraries/blockchain/chain_database.cpp:556-567 | one generation: exactly the listed entries are marked invalid; their children come next |
| `ChainStore.ChainDatabase.RecursiveMarkAsInvalid` | libraries/blockchain/chain_database.cpp:551-568 | marks exactly the proper descendants of the root invalid, and terminates |
| `ChainStore.ChainDatabase.MarkInvalid` | libraries/blockchain/chain_database.cpp:668-677 | marks a block and exactly its descendants invalid |
| `ChainStore.ChainDatabase.MarkIncluded` | libraries/blockchain/chain_database.cpp:679-694 | sets the flag of one entry; inclusion also makes it valid |
| `ChainStore.ChainDatabase.StoreAndIndex` | libraries/blockchain/chain_database.cpp:592-666 | in any arrival order: linked means the chain of parents reaches genesis through stored blocks, next_blocks lists exactly the stored children; the block returned is the stored one, or, when it filled a missing link, one of its descendants with the greatest number |
| `ChainStore.ChainDatabase.HookToParent` | libraries/blockchain/chain_database.cpp:619-640 | the parent's entry, or a new placeholder for an unknown parent, lists the block; nothing else changes |
| `ChainStore.ChainDatabase.PopBlock` | libraries/blockchain/chain_database.cpp:1174-1201 | exact outcome of undoing the head: back at the parent with its ledger, stuck with an unflagged head when the undo record is gone, or rewound without a header when the parent is genesis |
| `ChainStore.ChainDatabase.RestoreParent` | libraries/blockchain/chain_database.cpp:1183-1201 | applies the undo record and moves to the parent, whose record supplies the header |
| `ChainStore.ChainDatabase.ExtendChain` | libraries/blockchain/chain_database.cpp:1010-1134 | succeeds exactly when the block is the head's child and applies; then all tables describe the longer chain; otherwise only the block and its descendants are marked invalid |
| `ChainStore.ChainDatabase.Commit` | libraries/blockchain/chain_database.cpp:1061-1074 | the undo record is saved, the one of the oldest block in the window dropped, the ledger committed, the head moved |
| `ChainStore.ChainDatabase.Refuse` | libraries/blockchain/chain_database.cpp:1115-1120 | a block that does not apply is marked invalid with its descendants and nothing else changes |
| `ChainStore.ChainDatabase.GetForkHistory` | libraries/blockchain/chain_database.cpp:1142-1172 | lists the path backwards from the block to the fork point, exactly for linked blocks |
| `ChainStore.ChainDatabase.PopTowards` | libraries/blockchain/chain_database.cpp:701-705 | one turn of the pop loop: nearer the target, stuck at the highest block without an undo record, or rewound to genesis |
| `ChainStore.ChainDatabase.PopTo` | libraries/blockchain/chain_database.cpp:701-705 | exact outcome of the pop loop, and where it leaves the head, by which undo records exist and whether the target is genesis |
| `ChainStore.ChainDatabase.ExtendTowards` | libraries/blockchain/chain_database.cpp:706-710 | one turn of the extend loop: the head follows the target's path by one block, or stays at the last that applies |
| `ChainStore.ChainDatabase.ExtendAlong` | libraries/blockchain/chain_database.cpp:706-710 | the head ends at the last block towards the target that applies, with exactly the undo records of a sliding window |
| `ChainStore.ChainDatabase.Retrace` | libraries/blockchain/chain_database.cpp:696-711 | the two loops together, by which undo records exist, where the fork point is, and how far the target applies |
| `ChainStore.ChainDatabase.SwitchToFork` | libraries/blockchain/chain_database.cpp:696-711 | succeeds exactly when every block above the fork point can be undone, the fork point needs no rewinding to genesis, and the target's whole chain applies; otherwise says where the head is left |
| `ChainStore.ChainDatabase.SwitchBack` | libraries/blockchain/chain_database.cpp:1723-1727 | the handler of a failed switch: where it leaves the head and whether the database is damaged, as told from the state it starts in |
| `ChainStore.ChainDatabase.FailedGoesBack` | libraries/blockchain/chain_database.cpp:1711-1728 | and that state told from the one before the switch: damaged exactly when RollbackLost held, the head where RestingHead says |
| `ChainStore.ChainDatabase.Reorganise` | libraries/blockchain/chain_database.cpp:1711-1728 | ends consistent exactly when RollbackLost was false before; damaged or not, the head is the target after a switch and where RestingHead says after a failed one |
| `ChainStore.ChainDatabase.FollowChain` | libraries/blockchain/chain_database.cpp:1704-1728 | extends the head, or reorganises to a longer linked chain that is not marked invalid, or only records |
| `ChainStore.ChainDatabase.PushBlock` | libraries/blockchain/chain_database.cpp:1674-1737 | from a consistent database: a block numbered maxUndo or more below the head, and no other, is refused and changes nothing; any other is stored, and the head is the one NextHead names, always, and lower than before exactly when HeightLost held; ledger, included flags, number index and header again describe the one path to it exactly when RollbackLost did not hold; it throws exactly when the block is too old, extends the head and is refused, or a failed switch could not go back; undo records after a push that tries no fork; no first block applies while genesis is head |
| `ChainStore.ChainDatabase.KeepBlock` | libraries/blockchain/chain_database.cpp:1699-1737 | the same for a block that is not too old |
| `ChainStore.ChainDatabase.Record` | libraries/blockchain/chain_database.cpp:1699-1701 | recording a block keeps a consistent database consistent |
| `ChainStore.BlockOneCannotBeRestored` | libraries/blockchain/chain_database.cpp:1188-1195 | three blocks in order, the second inapplicable, leave the database inconsistent with genesis as head: rolling back pops block 1, whose parent has no record |
| `ChainStore.PartForkKept` | libraries/blockchain/chain_database.cpp:1711-1728 | from a consistent state with genesis as head and an applicable first block stored, a failed switch would keep that block |
| `ChainStore.SwitchShortensReach` | libraries/blockchain/chain_database.cpp:816-826 | an input: a switch that fails four blocks up and comes back undamaged, after which a block still kept branches off below where the head can be undone to |
| `AccountTable.AccountDb.StoreAccountRecord` | libraries/blockchain/chain_database.cpp:1844-1897 | any store, update, promotion or null removal leaves exactly one index entry (votes, id) per delegate account, in order |
| `AccountTable.AccountDb.GetDelegatesByVote` | libraries/blockchain/chain_database.cpp:1237-1251 | returns the ids of that slice of the ranking |
| `AccountTable.IndexDetermined` | libraries/blockchain/chain_database.cpp:1844-1897 | there is only one such index: the accounts determine it |
| `AccountTable.RankCounts` | libraries/blockchain/chain_database.cpp:1237-1251 | the delegates before position i of the index are exactly those with more votes, or as many and a lower id |
| `Overlay.CommitTable` | libraries/blockchain/pending_chain_state.cpp:63-87 | one loop of apply_changes over an unordered map: every record stored, null ones removed |
| `Overlay.UndoTable` | libraries/blockchain/pending_chain_state.cpp:124-236 | one loop of get_undo_state: what the state below holds, or a null record |
| `Overlay.CommitAccounts` | libraries/blockchain/pending_chain_state.cpp:65 | the accounts loop keeps the vote index exact |
| `Overlay.CommitUndo` | libraries/blockchain/pending_chain_state.cpp:124-236 | storing the undo records after the pending ones gives the table back |
| `Overlay.ApplyWrites` | libraries/blockchain/pending_chain_state.cpp:59-88 | every table of the database takes the overlay's records, null ones as absent |
| `Overlay.UndoRestores` | libraries/blockchain/pending_chain_state.cpp:59-236 | apply then undo restores assets, accounts, slates, bids, asks, shorts, collateral, feeds and properties; burns exactly when none was on record before, balances exactly when none was opened, dirty markets exactly when they were those touched |
| `Overlay.BurnsBack` | libraries/blockchain/pending_chain_state.cpp:124-236 | the undo removes every burn the overlay wrote, also one that was there before |
| `Overlay.BalancesBack` | libraries/blockchain/chain_database.cpp:1826-1842 | a balance record opened by an overlay survives its undo as a null record; those there before come back |
| `Overlay.PendingChainState.ApplyChanges` | libraries/blockchain/pending_chain_state.cpp:59-88 | the state below becomes the commit of every table, and the vote index stays exact |
| `Overlay.PendingChainState.GetUndoState` | libraries/blockchain/pending_chain_state.cpp:124-236 | computes exactly the undo overlay, and fails exactly when a property it changes is missing below |
| `Overlay.ApplyThenUndo` | libraries/blockchain/pending_chain_state.cpp:59-236 | on the objects: applying an overlay and later the undo computed beforehand restores the database and the vote index |
| `LedgerRules.BlockRulesLawful` | libraries/blockchain/chain_database.cpp:804-828 | whatever records blocks write, reverting with the undo overlay gives the ledger back, which is what the reorganisation relies on |
| `LedgerRules.NormalUndone` | libraries/blockchain/pending_chain_state.cpp:59-236 | the same for one overlay, with null balances counted as absent |
| `Layers.ReadAfterCommit` | libraries/blockchain/pending_chain_state.cpp:252-346 | a primary-key read through a stack of overlays of any depth agrees with the read from the base after committing every layer |
| `Layers.ChildIsInPlace` | libraries/blockchain/chain_database.cpp:2050-2077 | running a transaction in a child overlay and committing it is running it in place |
| `Layers.GenerateBlock` | libraries/blockchain/chain_database.cpp:2036-2092 | the transactions taken, applied in place to the starting state, succeed and give the very state assembled; one left out throws after those taken before it; the size limit and the cut-off are what ends the queue early |
| `Layers.TryInChild` | libraries/blockchain/chain_database.cpp:2057-2070 | evaluation in a fresh child overlay, committed on success |
| `Prices.RoundTrips` | libraries/blockchain/asset.cpp:221-269 | converting at a price and back never gains, from either side |
| `Prices.QuoteMono` | libraries/blockchain/asset.cpp:221-246 | conversion to quote is monotone in amount and price |
| `Prices.BaseMono` | libraries/blockchain/asset.cpp:247-269 | conversion to base is monotone in the amount |
| `Prices.FitsBack` | libraries/blockchain/asset.cpp:221-269 | what fits in an amount's quote value costs no more than the amount |
| `Prices.FitsForth` | libraries/blockchain/asset.cpp:221-269 | what fits in an amount's base value is worth no more than the amount |
| `Prices.PartialPayment` | libraries/blockchain/market_engine.cpp:728-761 | a payment up to the whole debt retires no more principal than there is and pays no more interest than is owed, and neither part is negative |
| `Interest.RateIs` | libraries/blockchain/market_engine.cpp:728-761 | the interest per unit is the ratio in parts of 10^18, its last three digits dropped, for each second of a year |
| `Interest.InterestAdds` | libraries/blockchain/market_engine.cpp:747-761 | interest accrues over consecutive periods as over both at once, but for a unit lost to truncating twice |
| `Interest.DebtIs` | libraries/blockchain/market_engine.cpp:747-769 | a cover's debt in figures: principal, and on it the rate's share for the part of a year of 31,536,000 seconds since its term began |
| `Interest.DebtGrows` | libraries/blockchain/market_engine.cpp:747-769 | it is the principal while the cover is new, never less, and never falls as the cover ages |
| `Interest.DebtAfterAYear` | libraries/blockchain/market_engine.cpp:747-769 | after a year the interest owed is the principal times a thousandth of the ratio over 10^15, truncated once |
| `Interest.RetiresLeast` | libraries/blockchain/market_engine.cpp:728-746 | a part payment retires the least principal that makes it up with the interest on it |
| `Interest.MarketRetires` | libraries/blockchain/market_engine.cpp:452-474 | what a payment retires of a cover in the market, in figures |
| `Interest.PaysLikeTheMarket` | libraries/blockchain/market_operations.cpp:191-229 | an operation's payment retires just what the market would at that time |
| `Interest.OperationRetires` | libraries/blockchain/market_operations.cpp:191-229 | and so, in figures, what a cover operation retires |
| `Interest.NewCover` | libraries/blockchain/market_engine.cpp:360-414 | the cover a short opens owes what it sold and no interest yet, at the short's rate and for the full term, and is called where two thirds of what was put up for it buy what was sold |
| `Interest.TermsTravel` | libraries/blockchain/market_operations.cpp:231-258 | a cover operation leaves the cover, with its rate and term and what is left of its debt, where it lands, or gives its collateral back to the transaction |
| `Interest.TermsTravelOn` | libraries/blockchain/market_operations.cpp:275-290 | adding collateral leaves it, with its rate, term and debt, where it lands |
| `Interest.TenPerCentForAYear` | libraries/blockchain/market_engine.cpp:728-761 | an input: 1,000,000,000 at ten per cent for a year owe 1,100,000,000, and a payment of 1,000,000,003 retires 909,090,912 |
| `Yields.YieldBounded` | libraries/blockchain/balance_operations.cpp:9-66 | whatever wraps in 128 bits, the yield is in [0, pool), and at most the withdrawn share of the pool |
| `Yields.YieldMonotone` | libraries/blockchain/balance_operations.cpp:9-66 | older deposits never yield less, exactly when the amount is not everything in circulation (or the pool is one share) |
| `Yields.YieldGrows` | libraries/blockchain/balance_operations.cpp:22-57 | monotone across the minimum period, the branch under a year and the branch after it |
| `Yields.WholeSupply` | libraries/blockchain/balance_operations.cpp:54-61 | an amount equal to everything in circulation yields something a second before the year and nothing when it is over |
| `Yields.YieldIs` | libraries/blockchain/balance_operations.cpp:9-66 | what a withdrawal of part of the circulating supply yields: nothing for a day, and then its share of the pool, by age |
| `Yields.CurveIs` | libraries/blockchain/balance_operations.cpp:28-57 | the part due by age: all of it after a year, and before that four fifths by age and one fifth by its square, but for less than four millionths of a share |
| `Operations.AverageDateBetween` | libraries/blockchain/balance_operations.cpp:128-139 | the date of a balance after a deposit lies between its old date and now |
| `Operations.AverageDateWeighs` | libraries/blockchain/balance_operations.cpp:128-139 | and is the average over what was put in, rounded down |
| `Operations.CallPriceBuysDebt` | libraries/blockchain/market_operations.cpp:241-250 | the call price is the ratio at which two thirds of the collateral buy the debt, rounded down; there is none exactly for collateral of at most one share |
| `Operations.LandingIsHigher` | libraries/blockchain/market_operations.cpp:243-251 | a cover lands at the higher of the requested and the computed price |
| `Conservation.VotesAreWeights` | libraries/blockchain/transaction_evaluation_state.cpp:237-251 | adjusting votes over a slate adds the amount times the slate's signed multiplicity to each delegate's pending votes |
| `Ledgers.WeightIs` | libraries/blockchain/transaction_evaluation_state.cpp:237-251 | that is how often the slate names it, and how often with a minus sign, which counts against it when negative votes are enabled and for it otherwise |
| `Conservation.DepositKeeps` | libraries/blockchain/balance_operations.cpp:111-144 | a deposit keeps supply against holdings, votes against stake, and supply against debt, counting what is pending in the transaction |
| `Conservation.WithdrawKeeps` | libraries/blockchain/balance_operations.cpp:219-366 | a withdrawal with its yield keeps them too |
| `Conservation.WithdrawPays` | libraries/blockchain/balance_operations.cpp:337-366 | what it pays: the yield on the whole balance since its date goes from the asset's fees into the balance, whose date is then now, and the amount from the balance to the transaction |
| `Conservation.ClaimKeeps` | libraries/blockchain/balance_operations.cpp:148-214 | a claim keeps them too |
| `Conservation.BurnKeeps` | libraries/blockchain/balance_operations.cpp:518-544 | a burn keeps them too |
| `Conservation.DefineSlateKeeps` | libraries/blockchain/balance_operations.cpp:83-105 | defining a slate changes no delegate's stake |
| `Conservation.BidKeeps` | libraries/blockchain/market_operations.cpp:16-57 | a bid keeps them, but for one quoted in the base asset |
| `Conservation.AskKeeps` | libraries/blockchain/market_operations.cpp:65-106 | an ask keeps them |
| `Conservation.ShortKeeps` | libraries/blockchain/market_operations.cpp:108-157 | a short order keeps them |
| `Conservation.CoverKeeps` | libraries/blockchain/market_operations.cpp:164-259 | a cover keeps them but for exactly what is lost by storing over another record, by collateral in another base, or by a new price in another market |
| `Conservation.AddCollateralKeeps` | libraries/blockchain/market_operations.cpp:261-291 | adding collateral keeps them but for exactly the same |
| `Conservation.PaymentSplits` | libraries/blockchain/market_operations.cpp:191-229 | a cover's payment splits into principal and interest within what is owed; no guard on it ever fires; a full payment clears the principal |
| `Conservation.RegisterAccountKeeps` | libraries/blockchain/account_operations.cpp:15-63 | registering an account keeps them |
| `Conservation.UpdateAccountKeeps` | libraries/blockchain/account_operations.cpp:70-135 | updating an account, promotion to delegate included, keeps them |
| `Conservation.WithdrawPayKeeps` | libraries/blockchain/account_operations.cpp:137-161 | withdrawing pay keeps them: the pending votes fall with the pay |
| `Conservation.CreateAssetKeeps` | libraries/blockchain/asset_operations.cpp:13-62 | creating an asset keeps them |
| `Conservation.UpdateAssetKeeps` | libraries/blockchain/asset_operations.cpp:68-100 | updating an asset keeps them |
| `Conservation.IssueAssetKeeps` | libraries/blockchain/asset_operations.cpp:106-134 | issuing keeps them |
| `Conservation.ApplyKeeps` | libraries/blockchain/transaction_evaluation_state.cpp:232-235 | every operation keeps all three equations but for exactly Lost and Forgiven |
| `Conservation.ApplyExtends` | libraries/blockchain/transaction_evaluation_state.cpp:232-235 | every operation keeps asset 0 user-issued, the slates of funded deposits known, account ids in range, and market-issued assets market-issued |
| `Conservation.LosesNothing` | libraries/blockchain/market_operations.cpp:16-291 | an accepted operation loses nothing of any asset exactly when it is Counted |
| `Conservation.ForgivesNothing` | libraries/blockchain/market_operations.cpp:164-291 | and forgives no debt of any asset exactly when it is Owed |
| `Transactions.TransactionKeeps` | libraries/blockchain/transaction_evaluation_state.cpp:94-230 | over any list of operations an accepted transaction keeps supply minus holdings of every asset, every delegate's votes against pay and stake, and a market-issued asset's supply minus debt, but for exactly its losses |
| `Transactions.TransactionConserves` | libraries/blockchain/chain_database.cpp:3215-3298 | a transaction whose operations are all Counted and Owed conserves every asset and keeps holdings minus debt of market-issued assets |
| `Transactions.FaithfulLosesNothing` | libraries/blockchain/transaction_evaluation_state.cpp:217-222 | the losses of such a transaction are zero |
| `Transactions.CollectFeesKeeps` | libraries/blockchain/transaction_evaluation_state.cpp:150-162 | leftovers become holdings of the fees, and nothing else moves |
| `Transactions.AddVotesKeeps` | libraries/blockchain/transaction_evaluation_state.cpp:94-106 | the pending votes reach the delegates exactly |
| `Transactions.PayDelegateKeeps` | libraries/blockchain/chain_database.cpp:770-802 | paying the producer keeps every asset's equation, every delegate's votes, and the debt equations |
| `Transactions.PayIsShare` | libraries/blockchain/chain_database.cpp:770-802 | the producer's pay and votes rise by its rate's percentage of the paycheck, rounded down; the paycheck leaves the fees and the rest of it the supply; nobody else's pay or votes move |
| `RequiredFees.RunOwes` | libraries/blockchain/account_operations.cpp:15-135 | what an evaluation asks for at its end is what its operations owe, told from the operations, the delegates and the configuration: each registration, promotion to delegate and new asset |
| `RequiredFees.AcceptedIffPaid` | libraries/blockchain/transaction_evaluation_state.cpp:108-230 | a transaction is accepted exactly when its operations run, its leftovers can be booked, its votes are for delegates, and its base leftover with two thirds of its market-issued leftovers at their median prices covers what it owes |
| `RequiredFees.ApplyFees` | libraries/blockchain/transaction_evaluation_state.cpp:232-235 | no operation takes from the fees of an asset that no market issues |
| `RequiredFees.PaysWhatItOwes` | libraries/blockchain/transaction_evaluation_state.cpp:108-165 | so an accepted transaction pays what it owes into the base asset's fees, but for what its other leftovers are worth |
| `Permissions.ApplyByLeave` | libraries/blockchain/transaction_evaluation_state.cpp:232-235 | an operation takes from a balance, an order, a cover or a delegate's pay only what it names, and with leave; a cover may also be stored over by adding collateral to another of its owner's |
| `Permissions.TakesByLeave` | libraries/blockchain/transaction_evaluation_state.cpp:177-230 | and a transaction without such an operation leaves the holding at least as large |
| `Permissions.IssuesWithin` | libraries/blockchain/asset_operations.cpp:106-134 | issuing takes the issuer's leave and never goes past an asset's maximum supply |
| `Delegates.AlwaysElectable` | libraries/blockchain/transaction_evaluation_state.cpp:94-106 | from a ledger whose slates name only delegates, the votes any operations leave pending are delegates': booking them never fails |
| `Delegates.TransactionStays` | libraries/blockchain/account_operations.cpp:101-122 | a transaction lets no delegate go and raises no pay rate; slates name only delegates, rates are percentages and pay is no less than zero, as before |
| `Acceptance.ApplyAsks` | libraries/blockchain/transaction_evaluation_state.cpp:232-235 | an operation is carried out exactly when what it asks of the ledger, of its leave and of the configuration is there |
| `Acceptance.AcceptedWhen` | libraries/blockchain/transaction_evaluation_state.cpp:177-230 | on a ledger whose slates name delegates a transaction is accepted exactly when each operation finds what it asks in the state the ones before it leave, no leftover is negative or in an unknown asset, and the leftovers cover what is owed |
| `Delegates.PayStays` | libraries/blockchain/chain_database.cpp:770-802 | so paying a producer fails exactly when it is no delegate, and keeps this |
| `Delegates.BlockStays` | libraries/blockchain/chain_database.cpp:1047-1055 | and so does a block |
| `Delegates.ChainStays` | libraries/blockchain/chain_database.cpp:1010-1074 | and any chain of blocks from a genesis of which it holds |
| `Evaluations.PendingState.PayProducer` | libraries/blockchain/chain_database.cpp:770-802 | the method computes that payment |
| `Evaluations.TransactionEvaluationState.AdjustVote` | libraries/blockchain/transaction_evaluation_state.cpp:237-251 | the loop over the slate; throws exactly for an unknown slate |
| `Evaluations.TransactionEvaluationState.AddBalance` | libraries/blockchain/transaction_evaluation_state.cpp:297-313 | moves the running total up |
| `Evaluations.TransactionEvaluationState.SubBalance` | libraries/blockchain/transaction_evaluation_state.cpp:265-295 | moves the running total down |
| `Evaluations.TransactionEvaluationState.Deposit` | libraries/blockchain/balance_operations.cpp:111-144 | throws exactly for a non-positive amount or an unknown slate; otherwise leaves the state of Operations.EvaluateDeposit, average date included |
| `Evaluations.TransactionEvaluationState.Withdraw` | libraries/blockchain/balance_operations.cpp:219-366 | throws exactly when that function does (amount, permission, unknown slate or asset, no circulating supply); otherwise the yield, the votes and the running total move as specified |
| `Evaluations.TransactionEvaluationState.Claim` | libraries/blockchain/balance_operations.cpp:148-214 | throws exactly unless the balance is a genesis balance of the base asset claimed whole; otherwise it is emptied into the transaction with its votes |
| `Evaluations.TransactionEvaluationState.Burn` | libraries/blockchain/balance_operations.cpp:518-544 | throws exactly for a market-issued or unknown asset, too small a burn, or an unknown account; otherwise the amount leaves supply and transaction |
| `Evaluations.TransactionEvaluationState.DefineSlate` | libraries/blockchain/balance_operations.cpp:83-105 | throws exactly for too many entries or one that is no delegate; a slate already defined stays as it was |
| `Evaluations.TransactionEvaluationState.Bid` | libraries/blockchain/market_operations.cpp:16-57 | throws exactly for a zero price or amount, an unknown asset, or a withdrawal of more than there is; otherwise order and running total move oppositely |
| `Evaluations.TransactionEvaluationState.Ask` | libraries/blockchain/market_operations.cpp:65-106 | the same for an ask, in the base asset of its price |
| `Evaluations.TransactionEvaluationState.Short` | libraries/blockchain/market_operations.cpp:108-157 | the same for a short, whose asset must be market-issued and its interest rate below the limit and against asset 0 |
| `Evaluations.TransactionEvaluationState.Cover` | libraries/blockchain/market_operations.cpp:164-259 | throws exactly when Operations.EvaluateCover does; otherwise principal leaves the supply, interest joins the fees, and the cover is moved or closed as specified |
| `Evaluations.TransactionEvaluationState.AddCollateral` | libraries/blockchain/market_operations.cpp:261-291 | throws exactly when Operations.EvaluateAddCollateral does; otherwise the cover moves to its new call price with the collateral added |
| `Evaluations.TransactionEvaluationState.RegisterAccount` | libraries/blockchain/account_operations.cpp:15-63 | adds the account under the next id, and the fees it requires |
| `Evaluations.TransactionEvaluationState.UpdateAccount` | libraries/blockchain/account_operations.cpp:70-135 | throws exactly for an unknown account, a delegate that gives up or raises its pay rate; otherwise stores the new rate, requiring the fee of a promotion |
| `Evaluations.TransactionEvaluationState.WithdrawPay` | libraries/blockchain/account_operations.cpp:137-161 | throws exactly for a non-delegate or too little pay; otherwise pay and pending votes fall together |
| `Evaluations.TransactionEvaluationState.CreateAsset` | libraries/blockchain/asset_operations.cpp:13-62 | throws exactly for a bad maximum, a used id or an unknown issuer; otherwise adds an empty asset under the next id, requiring the fee |
| `Evaluations.TransactionEvaluationState.UpdateAsset` | libraries/blockchain/asset_operations.cpp:68-100 | throws exactly for an unknown asset or issuer; otherwise only the issuer changes |
| `Evaluations.TransactionEvaluationState.IssueAsset` | libraries/blockchain/asset_operations.cpp:106-134 | throws exactly for a non-positive amount, an asset without an issuing account, or one issued past its maximum; otherwise supply and running total grow alike |
| `Evaluations.TransactionEvaluationState.PostEvaluate` | libraries/blockchain/transaction_evaluation_state.cpp:125-173 | succeeds exactly when no leftover is negative and every asset with one is known; books them as fees and values the market-issued ones in the base asset |
| `Evaluations.TransactionEvaluationState.UpdateDelegateVotes` | libraries/blockchain/transaction_evaluation_state.cpp:94-106 | succeeds exactly when every account with pending votes is a delegate, and adds them |
| `Evaluations.TransactionEvaluationState.EvaluateAll` | libraries/blockchain/transaction_evaluation_state.cpp:177-230 | the whole transaction: accepted exactly as specified, leaving the specified ledger |
| `Matching.FillWithin` | libraries/blockchain/market_engine.cpp:145-248 | on the terms two orders meet at, in all four branches, neither side pays more than it holds, a cover gets no more than it owes, the bid pays at least what the ask gets, and the bid gets all the ask pays |
| `Matching.BidAskWithin` | libraries/blockchain/market_engine.cpp:226-248 | bid against ask: paid at least received, and within both balances |
| `Matching.CoverPaysWithin` | libraries/blockchain/market_engine.cpp:145-203 | a cover pays no more than its collateral |
| `Matching.ShortPutsWithin` | libraries/blockchain/market_engine.cpp:145-225 | a short puts up no more than it offers |
| `Matching.TermsRespectLimits` | libraries/blockchain/market_engine.cpp:94-143 | nobody trades past what they asked for: bids and asks at their prices, shorts no higher than feed and limit, covers no lower than nine tenths of the feed and only once called or expired |
| `Matching.MeetWhen` | libraries/blockchain/market_engine.cpp:94-143 | and whoever meets trades: when each of the four pairs does, exactly |
| `Matching.EveryoneGetsTheirPrice` | libraries/blockchain/market_engine.cpp:145-248 | in all four branches the ask gets what it pays at its ratio and the bid what it pays at its own, a short at the ask's, but for less than a unit; and a short puts up twice the value of what it sells |
| `Settlement.PayBidCounts` | libraries/blockchain/market_engine.cpp:416-442 | paying a bid moves exactly what was paid and received; dust becomes quote fees |
| `Settlement.PayAskCounts` | libraries/blockchain/market_engine.cpp:529-555 | paying an ask moves exactly what was paid and received; dust on the quote record changes sides |
| `Settlement.PayShortCounts` | libraries/blockchain/market_engine.cpp:360-414 | a filled short's collateral and proceeds become a cover's, and what it sold new supply and new debt; one that sells nothing moves nothing |
| `Settlement.PayCoverCounts` | libraries/blockchain/market_engine.cpp:444-527 | a cover's payment moves exactly what was paid and received, plus forgiven debt, plus whatever the book held beyond what was loaded |
| `Settlement.RetiresWithin` | libraries/blockchain/market_engine.cpp:452-474 | the principal retired is within the payment and the debt |
| `Settlement.LeavesNoDust` | libraries/blockchain/market_engine.cpp:360-555 | a fill leaves of an order nothing or enough to go on with: a bid that buys a unit, an ask worth one, a short no less than the dust of its market |
| `Backing.ExchangeCounts` | libraries/blockchain/market_engine.cpp:145-271 | one fill keeps supply against holdings and against debt, of every asset, but for its listed losses |
| `Backing.CleanLosesNothing` | libraries/blockchain/market_engine.cpp:204-230 | a fill loses nothing but forgiven debt exactly when the ask's remainder is zero or worth a unit of quote, a short that sells nothing is sold nothing, and the cover is in the book as loaded |
| `Backing.ChecksHold` | libraries/blockchain/market_engine.cpp:307-327 | a round fails only over an asset no market issues, where a filled short's cover would have no call price, or over a cover whose rate of interest is no price of a market; no check on what a side pays ever throws |
| `Backing.MatchKeeps` | libraries/blockchain/market_engine.cpp:83-272 | a round keeps the books but for its losses |
| `Backing.MatchSync` | libraries/blockchain/market_engine.cpp:83-272 | a round keeps every order ahead of the four iterators as the pending state has it |
| `Backing.NextPairSync` | libraries/blockchain/market_engine.cpp:577-651 | the next bid and ask are as the pending state has them |
| `Backing.NextPairTakes` | libraries/blockchain/market_engine.cpp:577-651 | getting the next pair without the fill counter standing still takes an order from an iterator |
| `Backing.RoundsBounded` | libraries/blockchain/market_engine.cpp:83-92 | the number of rounds is bounded by the orders left, plus one, plus one for the first |
| `Backing.LoopEnds` | libraries/blockchain/market_engine.cpp:83-92 | from the start of a run the loop body is entered at most once for each bid, ask, short and cover of the market |
| `Backing.FillSpends` | libraries/blockchain/market_engine.cpp:150-255 | on the terms of a round the fill uses up the bid or the ask |
| `Backing.NeverCaught` | libraries/blockchain/market_engine.cpp:89-96 | the check for a matching loop never fires: a run throws exactly when a round of it does |
| `Backing.ExecuteThrows` | libraries/blockchain/market_engine.cpp:35-305 | and so with a market's whole run, which ChecksHold then explains round by round |
| `Backing.ExecuteKeeps` | libraries/blockchain/market_engine.cpp:35-305 | a market's run keeps, for every asset, supply minus holdings and supply minus debt but for its losses |
| `Backing.IdleShortsLose` | libraries/blockchain/market_engine.cpp:111-187 | where there is no feed or no short, no run misbooks dust or destroys base asset |
| `Backing.IdleShortsCollide` | libraries/blockchain/market_engine.cpp:360-414 | and none opens a cover at another's key |
| `Backing.IdleCoversLose` | libraries/blockchain/market_engine.cpp:141-170 | where there is no feed or the first cover is not called, no run forgives debt or stores over a cover |
| `Backing.ExecuteBacks` | libraries/blockchain/market_engine.cpp:35-305 | told from how the run starts: without trading shorts the quote asset stays exactly as well backed by cover debt, and in base 0 the base asset is conserved; without trading covers its supply moves with cover debt; without either nothing is lost |
| `Priority.OrdersTakenInTurn` | libraries/blockchain/market_engine.cpp:577-651 | at every entry of the loop body the bid and the ask at hand are the next of two lines fixed by the orders the run starts with, and what is left of each line is what came after |
| `Priority.BidLineIs` | libraries/blockchain/market_engine.cpp:577-601 | the bid line is the bids up to the first below the feed, then every short, then the other bids |
| `Priority.CoversGoFirst` | libraries/blockchain/market_engine.cpp:603-651 | in a round with a plain ask at hand every cover up to the first uncalled one has had its turn; in one with a cover at hand every ask is still to come |
| `Priority.ShortsGoBeforeLowBids` | libraries/blockchain/market_engine.cpp:577-601 | in a round with a bid below the feed at hand every short has had its turn; in one with a short at hand every bid up to the first below the feed has, and no other |
| `MarketFrame.ExecuteLeaves` | libraries/blockchain/market_engine.cpp:35-305 | a market's run leaves every delegate's votes against pay and stake, keeps the ledger well formed, and moves no order of another market |
| `Backing.CleanRunLosesNothing` | libraries/blockchain/market_engine.cpp:83-272 | a run of clean fills loses nothing but forgiven debt |
| `Backing.BookedRun` | libraries/blockchain/market_engine.cpp:35-305 | a run forgives, misbooks, destroys and shifts nothing exactly when no round of it does |
| `Backing.ExecuteConserves` | libraries/blockchain/market_engine.cpp:35-305 | such a run conserves the base asset, keeps the quote asset's holdings minus cover debt, and leaves exactly the forgiven debt in its supply |
| `Backing.NothingStale` | libraries/blockchain/market_engine.cpp:384-409 | covers that are in the book as loaded lose nothing to overwriting in a run in which no short opens a cover at the key of one still to be taken |
| `Earnings.FillPays` | libraries/blockchain/market_engine.cpp:416-555 | one fill pays, to plain balances: the bidder, unless it is a short, what the bid received in the base asset; the asker what the ask received in the quote asset; the owner of a cover that is out of debt the rest of its collateral, less a twentieth before its term is over; and nobody else |
| `Earnings.ExecutePays` | libraries/blockchain/market_engine.cpp:35-305 | each balance after a market's run is what it was and what the rounds of the run earned for it |
| `Earnings.OthersUnpaid` | libraries/blockchain/market_engine.cpp:35-305 | so a run leaves the balances of an owner without bid, ask or cover in the market, those with a slate, and those in other assets |
| `Clearing.ExecuteUncrosses` | libraries/blockchain/market_engine.cpp:46-272 | a market's run that gets to its end leaves no bid that can still buy a unit and no ask at crossing prices, when the iterators give bids from the highest price down and asks from the lowest up |
| `MarketEngines.MarketEngine.GetNextShort` | libraries/blockchain/market_engine.cpp:557-575 | takes the next short |
| `MarketEngines.MarketEngine.GetNextBid` | libraries/blockchain/market_engine.cpp:577-601 | takes shorts before bids below the feed, and counts |
| `MarketEngines.MarketEngine.GetNextAsk` | libraries/blockchain/market_engine.cpp:603-651 | takes called covers before asks, drops the covers at the first not called, and counts |
| `MarketEngines.MarketEngine.PayCurrentBid` | libraries/blockchain/market_engine.cpp:416-442 | computes Settlement.PayBid on the order and the asset record at hand |
| `MarketEngines.MarketEngine.PayCurrentAsk` | libraries/blockchain/market_engine.cpp:529-555 | computes Settlement.PayAsk on the order at hand, with the dust on whichever asset record it is handed |
| `MarketEngines.MarketEngine.PayCurrentShort` | libraries/blockchain/market_engine.cpp:360-414 | computes Settlement.PayShort; fails exactly where the new cover has no call price |
| `MarketEngines.MarketEngine.PayCurrentCover` | libraries/blockchain/market_engine.cpp:444-527 | computes Settlement.PayCover, returning the fee of a margin call to be booked after the transaction is accepted |
| `MarketEngines.MarketEngine.PayAsker` | libraries/blockchain/market_engine.cpp:248-271 | in every branch the transaction is accepted and its fees are booked |
| `MarketEngines.MarketEngine.Fill` | libraries/blockchain/market_engine.cpp:145-271 | one fill, in whichever of the four branches, leaves the specified orders and book |
| `MarketEngines.MarketEngine.MatchOrders` | libraries/blockchain/market_engine.cpp:81-272 | the loop ends, and its result is the specified run |
| `MarketEngines.MarketEngine.Execute` | libraries/blockchain/market_engine.cpp:35-305 | the prior state changes exactly when the run gets to its end, and then to what the matching leaves |
| `Schedule.BlockAccountsForSlots` | libraries/blockchain/chain_database.cpp:879-931 | a scheduled block gives each delegate one more block, produced or missed, for each of its slots since the head, so all together get as many as there are slots |
| `Schedule.BlockCounts` | libraries/blockchain/chain_database.cpp:900-931 | a scheduled block counts as produced for its producer and nobody else, and each slot between the head's and its own as missed for the delegate it was |
| `Schedule.ChainAccounts` | libraries/blockchain/chain_database.cpp:838-841 | over any chain of scheduled blocks, blocks produced plus blocks missed grow by the number of slots from its first block (or from the head before it) to its last |
| `Schedule.ChainCounts` | libraries/blockchain/chain_database.cpp:838-841 | over a chain a delegate's produced count grows by the blocks that are its own, and its missed count by the slots between them that were |
| `Schedule.ProduceAccepts` | libraries/blockchain/chain_database.cpp:886-931 | a block is counted exactly if its producer is a delegate that reveals its secret, first blocks aside, and every slot since the head's has a delegate |
| `Schedule.OneSlotMissed` | libraries/blockchain/chain_database.cpp:918-931 | an input: two delegates in turn, the first of whom produces the second slot after the head |
| `Schedule.ProductionInfo.UpdateDelegateProductionInfo` | libraries/blockchain/chain_database.cpp:879-941 | computes the statistics and the required confirmations; throws exactly for an unknown producer or slot delegate or an unrevealed secret |
| `Schedule.ConfirmationsWithin` | libraries/blockchain/chain_database.cpp:933-940 | the required confirmations stay between one and three rounds, and fall by one with each block that misses no slot |
| `Schedule.MadeUp` | libraries/blockchain/chain_database.cpp:918-940 | a block after missed slots costs as many quiet blocks as two for each slot, less itself |
| `Schedule.UpdateActiveDelegateList` | libraries/blockchain/chain_database.cpp:954-973 | the nested-index shuffle stays in bounds, ends, and computes the specified list |
| `Schedule.SwapFour` | libraries/blockchain/chain_database.cpp:966-968 | the inner loop |
| `Schedule.ShufflePermutes` | libraries/blockchain/chain_database.cpp:964-969 | whatever the random words, the shuffle permutes |
| `Schedule.ShuffleIsOnePass` | libraries/blockchain/chain_database.cpp:964-969 | the two nested loops are one pass over the places that swaps each with a random one, but for every fifth |
| `Schedule.ShuffleKeepsDelegates` | libraries/blockchain/chain_database.cpp:954-973 | so distinct delegates stay distinct and the same |
| `Schedule.EachOnce` | libraries/blockchain/chain_database.cpp:1521-1532 | with n distinct delegates any n consecutive slots give each exactly one |
| `Schedule.ShuffledRoundIsFair` | libraries/blockchain/chain_database.cpp:954-973 | and so after the shuffle |
| `Schedule.NextProducibleBlockTimestamp` | libraries/blockchain/chain_database.cpp:1534-1552 | the first slot after now, of the next n, that one of the given delegates owns; nothing exactly when none of them is among the n active |
| `ChainSync.NumbersFacts` | libraries/client/client.cpp:1048-1061 | the numbers in a synopsis are strictly increasing from the lowest, and end at the highest when nothing is expected after it |
| `ChainSync.NumbersLength` | libraries/client/client.cpp:1048-1061 | there are exactly floor(log2 n) + 1 of them for n blocks |
| `ChainSync.SynopsisShape` | libraries/client/client.cpp:970-1064 | the synopsis of a main chain of height H: strictly increasing numbers from 1 to H, floor(log2 H) + 1 of them, each the id of its block |
| `ChainSync.GetBlockchainSynopsis` | libraries/client/client.cpp:970-1064 | the synopsis of the path to the reference block, on the main chain or through a fork history, with room for the blocks expected after it |
| `ChainSync.Locate` | libraries/client/client.cpp:981-1046 | where that path leaves the main chain, and what it has after that |
| `ChainSync.Summarise` | libraries/client/client.cpp:1048-1064 | the loop: entries up to the fork from the main chain, later ones from the fork |
| `ChainSync.GetItemIds` | libraries/client/client.cpp:877-968 | computes the peer's answer, refusing a synopsis over the limit |
| `ChainSync.PeersFindTheFork` | libraries/client/client.cpp:877-1064 | a peer sharing the first k >= 1 blocks answers with a run of its own chain from the greatest shared entry s, with k - s <= H - k, and length plus remaining is its height - s + 1; it refuses exactly when floor(log2 H) reaches its limit |
| `Blocks.TurnsKeep` | libraries/blockchain/chain_database.cpp:975-990 | the dirty markets of a block, one after the other: each starts in step with the pending state the others left, and together they keep the three equations but for what they lose |
| `Blocks.BlockKeeps` | libraries/blockchain/chain_database.cpp:1047-1055 | a whole block - the producer's pay, every dirty market, every transaction - keeps every asset's supply against holdings, every delegate's votes, and market-issued supply against debt, but for what its markets and operations list |
| `Blocks.BlockConserves` | libraries/blockchain/chain_database.cpp:1047-1055 | told from the block: with no short or called cover in its markets and no cover operation or base-asset bid among its operations, every asset is conserved and stays as well backed |
| `Listing.ApplyListable` | libraries/blockchain/market_operations.cpp:16-163 | every operation stores only bids and asks with a price and shorts in the base asset, and gives out asset ids upwards |
| `Listing.ListedLoaded` | libraries/blockchain/market_engine.cpp:49-74 | so whatever the four iterators of a market find in such a ledger, in any order, starts the engine in step with it, and the covers as the book has them |
| `Listing.WholeTable` | libraries/blockchain/market_engine.cpp:49-74 | and there is always a listing of all the orders of a market |
| `Listing.PurgeKeeps` | libraries/blockchain/chain_database.cpp:2579-2609 | dropping spent orders and empty covers when a block is committed moves no equation and makes no order |
| `Listing.PurgeDrops` | libraries/blockchain/chain_database.cpp:2579-2609 | exactly those are dropped |
| `Blocks.ChainKeeps` | libraries/blockchain/chain_database.cpp:1010-1074 | the same over any chain of blocks from genesis, with the iterators of every block's markets finding orders of the ledger before it |
| `Blocks.HeadKeeps` | libraries/blockchain/chain_database.cpp:1674-1737 | and so for the ledger at every consistent head of the chain database, however often it switched forks, covers moved to other markets included |
| `Assembly.TurnsPaid` | libraries/blockchain/chain_database.cpp:975-990 | markets run alike before and after the producer is paid: the pending states differ by the paycheck alone |
| `Assembly.TransactionPaid` | libraries/blockchain/transaction_evaluation_state.cpp:177-230 | a transaction accepted before the producer is paid is accepted after, and the two states still differ by the paycheck alone |
| `Assembly.AssembledBlockApplies` | libraries/blockchain/chain_database.cpp:2036-2092 | the block a node assembles on its head applies to that head whenever its producer can be paid, and ends in the assembled state with the paycheck paid, though the assembly runs without it |
| `BlockObjects.ExecuteMarkets` | libraries/blockchain/chain_database.cpp:975-990 | the loop over the dirty markets, each in an engine of its own, computes their turns |
| `BlockObjects.ApplyTransactions` | libraries/blockchain/chain_database.cpp:713-741 | the loop over a block's transactions computes their evaluation, and fails with the first that fails |
| `BlockObjects.ExtendLedger` | libraries/blockchain/chain_database.cpp:1040-1066 | pay, markets and transactions on the objects compute ApplyBlock |
| `BlockObjects.GenerateBlock` | libraries/blockchain/chain_database.cpp:2036-2080 | the assembly loop, on the real evaluation: the block is what Assemble takes from the transactions tried, the state left is the block's, and the queue is cut short only by the size limit or the five seconds |
| `NullRecords.BlockAlike` | libraries/blockchain/chain_database.cpp:1010-1074 | ledgers that differ in null balance records alone accept the same blocks, to the same effect |
| `NullRecords.BlockGenesis` | libraries/blockchain/balance_operations.cpp:148-214 | no block opens a genesis balance or closes one, so the null records left by its undo can never be claimed |
| `NullRecords.UndoLeavesNoTrace` | libraries/blockchain/chain_database.cpp:1174-1201 | over any blocks applied and undone, in any order: a node whose undo leaves null records accepts exactly the blocks that one without them accepts, and their ledgers differ in null records alone |
| `NullRecords.AlikeCounts` | libraries/blockchain/chain_database.cpp:2983-2989 | null records count in no supply, debt or vote equation |
| `Witnesses.DustIsMisbooked` | libraries/blockchain/market_engine.cpp:529-555 | an input: an ask's remainder booked as quote fees when a short buys |
| `Witnesses.ShareIsDestroyed` | libraries/blockchain/market_engine.cpp:205-230 | an input: an ask of one share that a short is paid for nothing |
| `Witnesses.DebtIsForgiven` | libraries/blockchain/market_engine.cpp:444-527 | an input: a cover out of collateral whose debt stays in the supply |
| `Witnesses.CoverIsStoredOver` | libraries/blockchain/market_engine.cpp:444-527 | an input: a cover stored back over what a short added to it |
| `Witnesses.MarketRunLoses` | libraries/blockchain/market_engine.cpp:35-305 | an input: a whole market run after which the base asset's holdings are 5 short of its supply |
| `Witnesses.ExpiredCoverWaits` | libraries/blockchain/market_engine.cpp:615-643 | an input: a run that sells a plain ask to the bid and leaves an expired cover, because it stands behind an uncalled one |
| `Witnesses.ProceedsArePaid` | libraries/blockchain/market_engine.cpp:416-555 | an input: that run pays the bidder a unit of the base asset, the asker one of the quote asset, and nobody else |
| `Witnesses.RegistrationIsNotFree` | libraries/blockchain/transaction_evaluation_state.cpp:108-120 | an input: registering a full-pay delegate with nothing to pay the two fees from runs and is refused |
| `Witnesses.RateIsRefused` | libraries/blockchain/market_engine.cpp:448 | an input: a cover without a rate of interest makes the round throw |
| `Witnesses.CollateralIsShifted` | libraries/blockchain/market_engine.cpp:444-527 | an input: a cover in the market of asset 3 in asset 2, whose collateral is counted at asset 0 and paid out in asset 2 |
| `Witnesses.CoverLeavesMarket` | libraries/blockchain/market_operations.cpp:164-259 | an input: a cover that asks for a price in that market moves there with its debt |
| `Witnesses.BidIsNotHeld` | libraries/blockchain/market_operations.cpp:16-57 | an input: a bid quoted in the base asset, which no holdings count |
| `Witnesses.CoverIsDisplaced` | libraries/blockchain/market_operations.cpp:261-291 | an input: adding collateral moves a cover over another, losing 100 of collateral and forgiving 7 of debt |
| `Witnesses.UndoFallsShort` | libraries/blockchain/pending_chain_state.cpp:124-236 | an input: burns, balances and dirty markets that applying and undoing an overlay does not restore |
| `PriceText.RatioString` | libraries/blockchain/asset.cpp:148-160 | prints the integer part, a dot and the decimals without trailing zeros |
| `PriceText.SetRatioFromString` | libraries/blockchain/asset.cpp:80-128 | reads the digits before and after a dot, the former in a 64-bit word, and says how much it took |
| `PriceText.RoundTrip` | libraries/blockchain/asset.cpp:80-160 | reading a printed ratio takes all of it and returns the same ratio exactly when its integer part fits 64 bits |
| `PriceText.NothingElseWraps` | libraries/blockchain/asset.cpp:103-126 | with up to 18 decimals neither the decimals, their magnitude nor the ratio wraps |
| `PriceText.ScanWritten` | libraries/blockchain/asset.cpp:80-160 | a written ratio scans as its two parts |

## Left out

- ForkTree.Storable: that a stored block's number is one more than its parent's and one less than its children's is an assumption; the original stores a block of any number, and compares it with the head's only in `verify_header`, when the block is applied. It bears on StoreAndIndex, Record and PushBlock.
- ChainStore.ChainDatabase.PushBlock: which undo records are left is stated in full for a push that tries no fork; for one that does, `SwitchToFork` states it for the blocks above the fork point.
- LedgerRules.BlockRulesLawful: the tables here leave out null balances, burn records and dirty markets, which undo does not give back. That null balances make no difference to a block is in `NullRecords.dfy`; burn records are written and never read by a block; which markets are dirty is an input of a block.
- Layers.ChildIsInPlace: the layers hold one table of any key and record, and a transaction's steps are any functions of what is visible. `BlockObjects.GenerateBlock` is the assembly loop on the real evaluation, with a copy of the pending state for the child overlay.
- Blocks.ApplyBlock: header checks, production statistics, the list of active delegates and the random seed write nothing that is counted and are in `Schedule.dfy` or not modelled; what a block looks up - its producer, the feeds, which markets are dirty - is an input, and its iterators find orders of the ledger, in any order and perhaps not all of them.
- Blocks.ChainRules: the undo record is the ledger before the block; that the original's undo overlay gives its tables back is in `PendingChainState.dfy`, and that the null balances it leaves make no difference in `NullRecords.dfy`.
- ForkTree.Rules: block application is a deterministic function of ledger and block that reads only what undo restores; refusals that depend on the clock, and a header left stale after block 1 is popped that a later block's time is compared with, are not modelled.
- Signatures, names, memos, keys and hashes: ids are opaque, and a permission is a flag of the operation.
- Integer overflow of 64-bit amounts, and rounding in the 128-bit reals of the interest formulas: amounts are unbounded and interest is an exact fraction, truncated once.
- PriceText.SetRatioFromString: with more than 18 decimals the original's signed 64-bit decimals overflow, which the model does not.
- Yields.Yield: the narrowing to 64 bits keeps the low half; the conversion in the `fc` library is not part of this model.
- Overlay.UndoRestores: the transaction table, slot records, market history, market statuses and recent operations are not undone by the original and are not in the model; nor are the indexes by symbol and address.
- Records in `PendingChainState.dfy` carry only what commit and undo look at; the full records are in `Ledgers.dfy`.
- Ledgers.WellFormed: that asset 0 is user-issued, account ids are positive and up to the last one given out, and every funded base-asset deposit supports a known slate (a null one need not) is taken of the starting state and proved kept.
- Conservation.WithdrawKeeps: escrow, multisignature, password and option conditions, withdraw-all, link account and remove-collateral are switched off in the original and not modelled; feeds and burn records hold nothing that is counted.
- Operations.EvaluateShort: the price limit stored with a short is not in the ledger tables; the market model takes it with the order.
- Transactions.Evaluate: expiration, duplicate detection and required deposits, which no enabled operation creates, are left out; deposits, withdraws and deltas kept for display are not modelled.
- Backing.InSync: a short's price limit is in its own market. The choice of starting positions in the database, market history, market statuses and `cancel_all_shorts` are not modelled.
- Clearing.ExecuteUncrosses: that bids come from the highest price down and asks from the lowest up is the order of the database, taken as given; it speaks of bids and asks. A short or a cover that is passed over for one order is not tried again in the run, and may be left facing another it would meet.
- Matching.Age: a cover's age is counted from zero where the original's unsigned subtraction would wrap, for covers that expire later than a new one could.
- Layers.GenerateBlock: markets are run before, and the header, the producer's pay and the production statistics are added after, the transactions are taken; the five-second limit is a parameter.
- Schedule.Produce: the hash that checks a revealed secret is a flag; slot records are not kept.
- Schedule.Shuffled: the chain of hashes is an arbitrary function of round and word.
- ChainSync.GetBlockchainSynopsis: the fork history is what `get_fork_history` returns; a reference block the node has never seen is not modelled.
- Storage, locks, fibers, observers, networking, wallets, RPC and user interfaces.
