/** Slots: who produces in which, what a block changes in the production statistics, and the shuffle
    that orders a round. */
module Schedule {
  import opened Options
  import opened Arithmetic
  import opened Sums

  type DelegateId = int

  const INTERVAL: nat := 10

  // ---------- slots ----------

  function SlotNumber(t: nat): nat {
    t / INTERVAL
  }

  /** The delegate of the slot that starts at t, in a round of n; None where the list is too short. */
  function Signee(active: seq<DelegateId>, n: nat, t: nat): Option<DelegateId>
    requires n > 0
  {
    var position := SlotNumber(t) % n;
    if position < |active| then Some(active[position]) else None
  }

  /** How many of the `count` slots from t on are d's. */
  function Owned(active: seq<DelegateId>, n: nat, t: nat, count: nat, d: DelegateId): nat
    requires n > 0
    decreases count
  {
    if count == 0 then 0
    else (if Signee(active, n, t) == Some(d) then 1 else 0) + Owned(active, n, t + INTERVAL, count - 1, d)
  }

  lemma {:induction false} OwnedSplit(active: seq<DelegateId>, n: nat, t: nat, count: nat, d: DelegateId)
    requires n > 0 && count > 0
    ensures Owned(active, n, t, count, d) ==
      Owned(active, n, t, count - 1, d) + if Signee(active, n, t + INTERVAL * (count - 1)) == Some(d) then 1 else 0
    decreases count
  {
    if count > 1 {
      OwnedSplit(active, n, t + INTERVAL, count - 1, d);
    }
  }

  // ---------- production statistics ----------

  datatype Production = Production(produced: nat, missed: nat)

  type Statistics = map<DelegateId, Production>

  /** A block as far as the schedule goes; whether it reveals the secret committed to is a guard. */
  datatype Block = Block(time: nat, producer: DelegateId, active: seq<DelegateId>, secretMatches: bool)

  function Miss(stats: Statistics, d: DelegateId): Option<Statistics> {
    if d in stats then Some(stats[d := stats[d].(missed := stats[d].missed + 1)]) else None
  }

  /** Every slot from t up to the block's is missed by its delegate. */
  function MissSlots(stats: Statistics, active: seq<DelegateId>, n: nat, t: nat, end: nat): Option<Statistics>
    requires n > 0
    decreases end - t
  {
    if t >= end then Some(stats)
    else
      var d :- Signee(active, n, t);
      var after :- Miss(stats, d);
      MissSlots(after, active, n, t + INTERVAL, end)
  }

  /** The first slot a block answers for: the one after the head's, or its own. */
  function FirstSlot(head: Option<nat>, b: Block): nat {
    match head
    case None => b.time
    case Some(t) => t + INTERVAL
  }

  /** The statistics after a block; `head` is the time of the block before it, if there is one. */
  function Produce(stats: Statistics, n: nat, head: Option<nat>, b: Block): Option<Statistics>
    requires n > 0
  {
    if b.producer !in stats || (stats[b.producer].produced > 0 && !b.secretMatches) then None
    else
      var r := stats[b.producer];
      MissSlots(stats[b.producer := r.(produced := r.produced + 1)], b.active, n, FirstSlot(head, b), b.time)
  }

  /** Confirmations rise by two for each missed slot and fall by one for the block, between one and
      three rounds. */
  function Confirmations(required: int, n: nat, missed: nat): int {
    var c := required + 2 * missed - 1;
    if c < 1 then 1 else if c > 3 * n then 3 * n else c
  }

  lemma ConfirmationsWithin(required: int, n: nat, missed: nat)
    requires n > 0
    ensures 1 <= Confirmations(required, n, missed) <= 3 * n
    ensures 1 <= required <= 3 * n && missed == 0 ==> Confirmations(required, n, missed) == if required == 1 then 1 else required - 1
  {
  }

  /** What n blocks in a row without a missed slot make of it. */
  function AfterQuiet(required: int, n: nat, blocks: nat): int
    decreases blocks
  {
    if blocks == 0 then required else AfterQuiet(Confirmations(required, n, 0), n, blocks - 1)
  }

  lemma {:induction false} QuietLowers(required: int, n: nat, blocks: nat)
    requires n > 0 && blocks < required <= 3 * n
    ensures AfterQuiet(required, n, blocks) == required - blocks
    decreases blocks
  {
    if blocks > 0 {
      QuietLowers(Confirmations(required, n, 0), n, blocks - 1);
    }
  }

  /** A block after missed slots sets the confirmations back by as many blocks as it takes: two for each slot, less
      itself, as long as there is room for them. */
  lemma MadeUp(required: int, n: nat, missed: nat)
    requires n > 0 && missed > 0 && 1 <= required && required + 2 * missed - 1 <= 3 * n
    ensures AfterQuiet(Confirmations(required, n, missed), n, 2 * missed - 1) == required
  {
    QuietLowers(Confirmations(required, n, missed), n, 2 * missed - 1);
  }

  function Gap(from: nat, to: nat): nat {
    if to <= from then 0 else (to - from + INTERVAL - 1) / INTERVAL
  }

  class ProductionInfo {
    const n: nat
    var stats: Statistics
    var requiredConfirmations: int

    constructor (n: nat, stats: Statistics, requiredConfirmations: int)
      ensures this.n == n && this.stats == stats && this.requiredConfirmations == requiredConfirmations
    {
      this.n, this.stats, this.requiredConfirmations := n, stats, requiredConfirmations;
    }

    method UpdateDelegateProductionInfo(head: Option<nat>, b: Block) returns (ok: bool)
      requires n > 0
      modifies this
      ensures ok <==> Produce(old(stats), n, head, b).Some?
      ensures ok ==> stats == Produce(old(stats), n, head, b).value
      ensures ok ==> requiredConfirmations == Confirmations(old(requiredConfirmations), n, Gap(FirstSlot(head, b), b.time))
      ensures ok && Scheduled(n, head, b) ==> forall d :: Counted(old(stats), stats, n, head, b, d)
    {
      if b.producer !in stats {
        return false;
      }
      var record := stats[b.producer];
      if record.produced > 0 && !b.secretMatches {
        return false;
      }
      record := record.(produced := record.produced + 1);
      stats := stats[b.producer := record];
      var required := requiredConfirmations;
      var t := if head.Some? then head.value + INTERVAL else b.time;
      ghost var first := t;
      while t < b.time
        invariant MissSlots(stats, b.active, n, t, b.time) == Produce(old(stats), n, head, b)
        invariant first <= t && required + 2 * Gap(t, b.time) == old(requiredConfirmations) + 2 * Gap(first, b.time)
      {
        var d := Signee(b.active, n, t);
        if d.None? || d.value !in stats {
          return false;
        }
        stats := stats[d.value := stats[d.value].(missed := stats[d.value].missed + 1)];
        t := t + INTERVAL;
        required := required + 2;
      }
      required := required - 1;
      if required < 1 {
        required := 1;
      }
      if required > n * 3 {
        required := 3 * n;
      }
      requiredConfirmations := required;
      ok := true;
      if Scheduled(n, head, b) {
        forall d ensures Counted(old(stats), stats, n, head, b, d) {
          BlockCounts(old(stats), n, head, b, d);
        }
      }
    }
  }

  // ---------- what a block adds ----------

  function Of(stats: Statistics, d: DelegateId): int {
    if d in stats then stats[d].produced + stats[d].missed else 0
  }

  ghost function SlotsOf(): (DelegateId, Production) -> int {
    (d: DelegateId, p: Production) => p.produced + p.missed
  }

  /** Blocks produced and blocks missed, over all delegates. */
  ghost function Slots(stats: Statistics): int {
    Total(stats, SlotsOf())
  }

  lemma {:induction false} MissedSlots(stats: Statistics, active: seq<DelegateId>, n: nat, t: nat, end: nat, d: DelegateId)
    requires n > 0 && MissSlots(stats, active, n, t, end).Some?
    ensures var after := MissSlots(stats, active, n, t, end).value;
      && Of(after, d) == Of(stats, d) + Owned(active, n, t, Gap(t, end), d)
      && Slots(after) == Slots(stats) + Gap(t, end)
      && after.Keys == stats.Keys
    decreases end - t
  {
    if t < end {
      var x := Signee(active, n, t).value;
      var next := Miss(stats, x).value;
      TotalStore(stats, SlotsOf(), x, next[x]);
      MissedSlots(next, active, n, t + INTERVAL, end, d);
    }
  }

  /** The block's time is a slot's, after the head's, and its producer is that slot's delegate. */
  predicate Scheduled(n: nat, head: Option<nat>, b: Block)
    requires n > 0
  {
    && b.time % INTERVAL == 0
    && (head.Some? ==> head.value % INTERVAL == 0 && head.value < b.time)
    && Signee(b.active, n, b.time) == Some(b.producer)
  }

  /** How many slots a block accounts for: all since the head's, its own among them. */
  function SlotsSince(head: Option<nat>, b: Block): int {
    match head case None => 1 case Some(t) => SlotNumber(b.time) - SlotNumber(t)
  }

  lemma GapSlots(t: nat, end: nat)
    requires t % INTERVAL == 0 && end % INTERVAL == 0 && t < end
    ensures Gap(t + INTERVAL, end) == SlotNumber(end) - SlotNumber(t) - 1 >= 0
    ensures t + INTERVAL + INTERVAL * Gap(t + INTERVAL, end) == end
  {
  }

  /** A scheduled block gives each delegate one more block, produced or missed, for each of its slots
      since the head, however many they are; so all together get as many as there are slots. */
  lemma BlockAccountsForSlots(stats: Statistics, n: nat, head: Option<nat>, b: Block, d: DelegateId)
    requires n > 0 && Scheduled(n, head, b) && Produce(stats, n, head, b).Some?
    ensures var after := Produce(stats, n, head, b).value;
      && Of(after, d) == Of(stats, d) + (match head
           case None => if d == b.producer then 1 else 0
           case Some(t) => Owned(b.active, n, t + INTERVAL, SlotsSince(head, b), d))
      && Slots(after) == Slots(stats) + SlotsSince(head, b)
      && after.Keys == stats.Keys
  {
    var r := stats[b.producer];
    var produced := stats[b.producer := r.(produced := r.produced + 1)];
    TotalStore(stats, SlotsOf(), b.producer, produced[b.producer]);
    MissedSlots(produced, b.active, n, FirstSlot(head, b), b.time, d);
    if head.Some? {
      GapSlots(head.value, b.time);
      OwnedSplit(b.active, n, FirstSlot(head, b), SlotsSince(head, b), d);
    }
  }

  // ---------- produced or missed ----------

  function ProducedBy(stats: Statistics, d: DelegateId): nat {
    if d in stats then stats[d].produced else 0
  }

  function MissedBy(stats: Statistics, d: DelegateId): nat {
    if d in stats then stats[d].missed else 0
  }

  lemma {:induction false} MissedEach(stats: Statistics, active: seq<DelegateId>, n: nat, t: nat, end: nat, d: DelegateId)
    requires n > 0 && MissSlots(stats, active, n, t, end).Some?
    ensures var after := MissSlots(stats, active, n, t, end).value;
      && ProducedBy(after, d) == ProducedBy(stats, d)
      && MissedBy(after, d) == MissedBy(stats, d) + Owned(active, n, t, Gap(t, end), d)
    decreases end - t
  {
    if t < end {
      var x := Signee(active, n, t).value;
      MissedEach(Miss(stats, x).value, active, n, t + INTERVAL, end, d);
    }
  }

  /** The slots from t on are all somebody's who has a record. */
  predicate AllKnown(stats: Statistics, active: seq<DelegateId>, n: nat, t: nat, count: nat)
    requires n > 0
  {
    forall i :: 0 <= i < count ==> Known(stats, Signee(active, n, t + INTERVAL * i))
  }

  predicate Known(stats: Statistics, d: Option<DelegateId>) {
    d.Some? && d.value in stats
  }

  lemma {:induction false} MissAccepts(stats: Statistics, active: seq<DelegateId>, n: nat, t: nat, end: nat)
    requires n > 0
    ensures MissSlots(stats, active, n, t, end).Some? <==> AllKnown(stats, active, n, t, Gap(t, end))
    decreases end - t
  {
    if t < end {
      var first, rest := Signee(active, n, t), t + INTERVAL;
      assert Gap(t, end) == Gap(rest, end) + 1;
      KnownSplit(stats, active, n, t, Gap(rest, end));
      if Known(stats, first) {
        var next := Miss(stats, first.value).value;
        MissAccepts(next, active, n, rest, end);
        SameKnown(stats, next, active, n, rest, Gap(rest, end));
      }
    }
  }

  lemma KnownSplit(stats: Statistics, active: seq<DelegateId>, n: nat, t: nat, count: nat)
    requires n > 0
    ensures AllKnown(stats, active, n, t, count + 1) <==>
      Known(stats, Signee(active, n, t)) && AllKnown(stats, active, n, t + INTERVAL, count)
  {
    if AllKnown(stats, active, n, t, count + 1) {
      assert Known(stats, Signee(active, n, t + INTERVAL * 0));
      forall i | 0 <= i < count ensures Known(stats, Signee(active, n, t + INTERVAL + INTERVAL * i)) {
        assert Known(stats, Signee(active, n, t + INTERVAL * (i + 1)));
      }
    } else if Known(stats, Signee(active, n, t)) {
      var i :| 0 <= i < count + 1 && !Known(stats, Signee(active, n, t + INTERVAL * i));
      assert i > 0 && t + INTERVAL * i == t + INTERVAL + INTERVAL * (i - 1);
    }
  }

  lemma SameKnown(stats: Statistics, other: Statistics, active: seq<DelegateId>, n: nat, t: nat, count: nat)
    requires n > 0 && stats.Keys == other.Keys
    ensures AllKnown(stats, active, n, t, count) <==> AllKnown(other, active, n, t, count)
  {
    forall d: Option<DelegateId> ensures Known(stats, d) <==> Known(other, d) {
      if d.Some? {
        assert d.value in stats.Keys <==> d.value in other.Keys;
      }
    }
  }

  /** A block is counted exactly if its producer has a record and, unless this is its first block, reveals the secret it
      committed to, and every slot since the head's has a delegate with a record. */
  lemma ProduceAccepts(stats: Statistics, n: nat, head: Option<nat>, b: Block)
    requires n > 0
    ensures Produce(stats, n, head, b).Some? <==>
      && b.producer in stats && (stats[b.producer].produced == 0 || b.secretMatches)
      && (head.Some? ==> AllKnown(stats, b.active, n, head.value + INTERVAL, Gap(head.value + INTERVAL, b.time)))
  {
    if b.producer in stats {
      var r := stats[b.producer];
      var produced := stats[b.producer := r.(produced := r.produced + 1)];
      MissAccepts(produced, b.active, n, FirstSlot(head, b), b.time);
      SameKnown(stats, produced, b.active, n, FirstSlot(head, b), Gap(FirstSlot(head, b), b.time));
    }
  }

  /** The slots between a head and a scheduled block that are d's. */
  function Skipped(n: nat, head: Option<nat>, b: Block, d: DelegateId): nat
    requires n > 0 && Scheduled(n, head, b)
  {
    match head
    case None => 0
    case Some(t) => Owned(b.active, n, t + INTERVAL, SlotNumber(b.time) - SlotNumber(t) - 1, d)
  }

  predicate Counted(stats: Statistics, after: Statistics, n: nat, head: Option<nat>, b: Block, d: DelegateId)
    requires n > 0 && Scheduled(n, head, b)
  {
    && ProducedBy(after, d) == ProducedBy(stats, d) + (if d == b.producer then 1 else 0)
    && MissedBy(after, d) == MissedBy(stats, d) + Skipped(n, head, b, d)
  }

  /** A scheduled block counts as produced for its producer and for nobody else; and each slot between the head's
      and its own counts as missed for the delegate it was. */
  lemma BlockCounts(stats: Statistics, n: nat, head: Option<nat>, b: Block, d: DelegateId)
    requires n > 0 && Scheduled(n, head, b) && Produce(stats, n, head, b).Some?
    ensures var after := Produce(stats, n, head, b).value;
      Counted(stats, after, n, head, b, d)
  {
    var r := stats[b.producer];
    MissedEach(stats[b.producer := r.(produced := r.produced + 1)], b.active, n, FirstSlot(head, b), b.time, d);
    if head.Some? {
      GapSlots(head.value, b.time);
    }
  }

  // ---------- a chain of blocks ----------

  function ProduceAll(stats: Statistics, n: nat, head: Option<nat>, blocks: seq<Block>): Option<Statistics>
    requires n > 0
    decreases |blocks|
  {
    if blocks == [] then Some(stats)
    else
      var after :- Produce(stats, n, head, blocks[0]);
      ProduceAll(after, n, Some(blocks[0].time), blocks[1..])
  }

  predicate AllScheduled(n: nat, head: Option<nat>, blocks: seq<Block>)
    requires n > 0
    decreases |blocks|
  {
    blocks == [] || (Scheduled(n, head, blocks[0]) && AllScheduled(n, Some(blocks[0].time), blocks[1..]))
  }

  lemma {:induction false} ChainAccounts(stats: Statistics, n: nat, head: Option<nat>, blocks: seq<Block>)
    requires n > 0 && AllScheduled(n, head, blocks) && ProduceAll(stats, n, head, blocks).Some? && blocks != []
    ensures var last := blocks[|blocks| - 1].time;
      Slots(ProduceAll(stats, n, head, blocks).value) == Slots(stats) +
        SlotNumber(last) - match head case None => SlotNumber(blocks[0].time) - 1 case Some(t) => SlotNumber(t)
    decreases |blocks|
  {
    BlockAccountsForSlots(stats, n, head, blocks[0], 0);
    if |blocks| > 1 {
      ChainAccounts(Produce(stats, n, head, blocks[0]).value, n, Some(blocks[0].time), blocks[1..]);
    }
  }

  function BlocksBy(blocks: seq<Block>, d: DelegateId): nat {
    if blocks == [] then 0 else (if blocks[0].producer == d then 1 else 0) + BlocksBy(blocks[1..], d)
  }

  function SkippedInAll(n: nat, head: Option<nat>, blocks: seq<Block>, d: DelegateId): nat
    requires n > 0 && AllScheduled(n, head, blocks)
    decreases |blocks|
  {
    if blocks == [] then 0
    else Skipped(n, head, blocks[0], d) + SkippedInAll(n, Some(blocks[0].time), blocks[1..], d)
  }

  /** Over a chain a delegate's produced count grows by the blocks that are its own, and its missed count by the
      slots between them that were. */
  lemma {:induction false} ChainCounts(stats: Statistics, n: nat, head: Option<nat>, blocks: seq<Block>, d: DelegateId)
    requires n > 0 && AllScheduled(n, head, blocks) && ProduceAll(stats, n, head, blocks).Some?
    ensures var after := ProduceAll(stats, n, head, blocks).value;
      && ProducedBy(after, d) == ProducedBy(stats, d) + BlocksBy(blocks, d)
      && MissedBy(after, d) == MissedBy(stats, d) + SkippedInAll(n, head, blocks, d)
    decreases |blocks|
  {
    if blocks != [] {
      BlockCounts(stats, n, head, blocks[0], d);
      ChainCounts(Produce(stats, n, head, blocks[0]).value, n, Some(blocks[0].time), blocks[1..], d);
    }
  }

  /** Two delegates in turn, the first of whom produces the second slot after the head: the other missed the
      slot between. */
  lemma OneSlotMissed()
    ensures var stats, b := map[5 := Production(0, 0), 6 := Production(0, 0)], Block(20, 5, [5, 6], true);
      && Scheduled(2, Some(0), b)
      && Produce(stats, 2, Some(0), b) == Some(map[5 := Production(1, 0), 6 := Production(0, 1)])
  {
    var stats, b := map[5 := Production(0, 0), 6 := Production(0, 0)], Block(20, 5, [5, 6], true);
    var after := stats[5 := Production(1, 0)];
    assert MissSlots(after, [5, 6], 2, 20, 20) == Some(after);
    assert Signee([5, 6], 2, 10) == Some(6);
    assert MissSlots(after, [5, 6], 2, 10, 20) == MissSlots(after[6 := Production(0, 1)], [5, 6], 2, 20, 20);
    SameTable(after[6 := Production(0, 1)], map[5 := Production(1, 0), 6 := Production(0, 1)]);
  }

  // ---------- the shuffle ----------

  /** The four words of each hash in the chain that starts at the block's random seed. */
  type Hashes = (nat, nat) -> nat

  function Swap<T>(s: seq<T>, i: nat, j: nat): (r: seq<T>)
    requires i < |s| && j < |s|
    ensures |r| == |s|
  {
    s[i := s[j]][j := s[i]]
  }

  /** The inner loop from word x on: how far it gets, and what it leaves. */
  function Swaps(s: seq<DelegateId>, i: nat, x: nat, round: nat, rand: Hashes): (r: (seq<DelegateId>, nat))
    requires x <= 4
    ensures |r.0| == |s| && i <= r.1 && (x < 4 && i < |s| ==> i < r.1)
    decreases 4 - x
  {
    if x < 4 && i < |s| then Swaps(Swap(s, i, rand(round, x) % |s|), i + 1, x + 1, round, rand) else (s, i)
  }

  /** The outer loop. It steps once more after each four swaps, so every fifth place starts no swap. */
  function Shuffled(s: seq<DelegateId>, i: nat, round: nat, rand: Hashes): (r: seq<DelegateId>)
    ensures |r| == |s|
    decreases |s| - i
  {
    if i < |s| then
      var r := Swaps(s, i, 0, round, rand);
      Shuffled(r.0, r.1 + 1, round + 1, rand)
    else s
  }

  /** The elements of a list, each as often as it occurs. */
  ghost function Bag(s: seq<DelegateId>): multiset<DelegateId> {
    if s == [] then multiset{} else multiset{s[0]} + Bag(s[1..])
  }

  lemma {:induction false} BagIs(s: seq<DelegateId>)
    ensures Bag(s) == multiset(s)
  {
    if s != [] {
      BagIs(s[1..]);
      assert s == [s[0]] + s[1..];
    }
  }

  lemma SwapPermutes(s: seq<DelegateId>, i: nat, j: nat)
    requires i < |s| && j < |s|
    ensures Bag(Swap(s, i, j)) == Bag(s)
  {
    BagIs(s);
    BagIs(Swap(s, i, j));
  }

  lemma {:induction false} SwapsPermute(s: seq<DelegateId>, i: nat, x: nat, round: nat, rand: Hashes)
    requires x <= 4
    ensures Bag(Swaps(s, i, x, round, rand).0) == Bag(s)
    decreases 4 - x
  {
    if x < 4 && i < |s| {
      SwapPermutes(s, i, rand(round, x) % |s|);
      SwapsPermute(Swap(s, i, rand(round, x) % |s|), i + 1, x + 1, round, rand);
    }
  }

  lemma ShuffledStep(s: seq<DelegateId>, i: nat, round: nat, rand: Hashes)
    requires i < |s|
    ensures var r := Swaps(s, i, 0, round, rand);
      Shuffled(s, i, round, rand) == Shuffled(r.0, r.1 + 1, round + 1, rand)
  {
  }

  lemma {:induction false} ShufflePermutes(s: seq<DelegateId>, i: nat, round: nat, rand: Hashes)
    ensures Bag(Shuffled(s, i, round, rand)) == Bag(s)
    decreases |s| - i
  {
    if i < |s| {
      var t, j := Swaps(s, i, 0, round, rand).0, Swaps(s, i, 0, round, rand).1;
      ShuffledStep(s, i, round, rand);
      SwapsPermute(s, i, 0, round, rand);
      ShufflePermutes(t, j + 1, round + 1, rand);
    }
  }

  /** The place k of a list, swapped with a random one; every fifth place is left alone. */
  function SwapPlace(s: seq<DelegateId>, k: nat, rand: Hashes): (r: seq<DelegateId>)
    requires k < |s|
    ensures |r| == |s|
  {
    if k % 5 == 4 then s else Swap(s, k, rand(k / 5, k % 5) % |s|)
  }

  lemma PlaceIs(s: seq<DelegateId>, round: nat, x: nat, rand: Hashes)
    requires x <= 4 && 5 * round + x < |s|
    ensures SwapPlace(s, 5 * round + x, rand) == if x == 4 then s else Swap(s, 5 * round + x, rand(round, x) % |s|)
  {
    assert (5 * round + x) / 5 == round && (5 * round + x) % 5 == x;
  }

  /** The shuffle as one pass over the places from k on. */
  function OnePass(s: seq<DelegateId>, k: nat, rand: Hashes): (r: seq<DelegateId>)
    requires k <= |s|
    ensures |r| == |s|
    decreases |s| - k
  {
    if k == |s| then s else OnePass(SwapPlace(s, k, rand), k + 1, rand)
  }

  lemma {:induction false} SwapsArePass(s: seq<DelegateId>, i: nat, x: nat, round: nat, rand: Hashes)
    requires x <= 4 && i == 5 * round + x && i <= |s|
    ensures var r := Swaps(s, i, x, round, rand);
      && r.1 <= |s| && (r.1 == |s| || r.1 == 5 * round + 4)
      && OnePass(s, i, rand) == OnePass(r.0, r.1, rand)
    decreases 4 - x
  {
    if x < 4 && i < |s| {
      PlaceIs(s, round, x, rand);
      SwapsArePass(Swap(s, i, rand(round, x) % |s|), i + 1, x + 1, round, rand);
    }
  }

  lemma PassSkips(s: seq<DelegateId>, round: nat, rand: Hashes)
    requires 5 * round + 4 < |s|
    ensures OnePass(s, 5 * round + 4, rand) == OnePass(s, 5 * round + 5, rand)
  {
    PlaceIs(s, round, 4, rand);
  }

  lemma PassDone(s: seq<DelegateId>, round: nat, rand: Hashes)
    ensures Shuffled(s, |s| + 1, round, rand) == s == OnePass(s, |s|, rand)
  {
  }

  /** After the inner loop, the place it steps over. */
  lemma PassOn(s: seq<DelegateId>, t: seq<DelegateId>, i: nat, next: nat, round: nat, rand: Hashes)
    requires i <= |s| && next <= |t| && (next == |t| || next == 5 * round + 4) && OnePass(s, i, rand) == OnePass(t, next, rand)
    ensures OnePass(s, i, rand) == if next < |t| then OnePass(t, next + 1, rand) else t
  {
    if next < |t| {
      PassSkips(t, round, rand);
    } else {
      PassDone(t, round, rand);
    }
  }

  lemma {:induction false} RoundsArePass(s: seq<DelegateId>, i: nat, round: nat, rand: Hashes)
    requires i == 5 * round && i <= |s|
    ensures Shuffled(s, i, round, rand) == OnePass(s, i, rand)
    decreases |s| - i
  {
    if i < |s| {
      var r := Swaps(s, i, 0, round, rand);
      ShuffledStep(s, i, round, rand);
      SwapsArePass(s, i, 0, round, rand);
      PassOn(s, r.0, i, r.1, round, rand);
      if r.1 < |s| {
        RoundsArePass(r.0, r.1 + 1, round + 1, rand);
      } else {
        PassDone(r.0, round + 1, rand);
      }
    } else {
      PassDone(s, round, rand);
    }
  }

  /** The two nested loops are that pass. */
  lemma ShuffleIsOnePass(s: seq<DelegateId>, rand: Hashes)
    ensures Shuffled(s, 0, 0, rand) == OnePass(s, 0, rand)
  {
    RoundsArePass(s, 0, 0, rand);
  }

  method SwapFour(active: array<DelegateId>, start: nat, round: nat, rand: Hashes) returns (i: nat)
    modifies active
    ensures active[..] == Swaps(old(active[..]), start, 0, round, rand).0
    ensures i == Swaps(old(active[..]), start, 0, round, rand).1
  {
    i := start;
    var x := 0;
    while x < 4 && i < active.Length
      invariant x <= 4
      invariant Swaps(active[..], i, x, round, rand) == Swaps(old(active[..]), start, 0, round, rand)
      decreases 4 - x
    {
      var j := rand(round, x) % active.Length;
      ghost var before := active[..];
      active[i], active[j] := active[j], active[i];
      assert active[..] == Swap(before, i, j);
      x, i := x + 1, i + 1;
    }
  }

  /** One turn of the outer loop. */
  method SwapRound(active: array<DelegateId>, start: nat, round: nat, rand: Hashes) returns (i: nat)
    requires start < active.Length
    modifies active
    ensures i > start && Shuffled(active[..], i, round + 1, rand) == Shuffled(old(active[..]), start, round, rand)
  {
    ShuffledStep(active[..], start, round, rand);
    i := SwapFour(active, start, round, rand);
    i := i + 1;
  }

  method UpdateActiveDelegateList(active: array<DelegateId>, rand: Hashes)
    modifies active
    ensures active[..] == Shuffled(old(active[..]), 0, 0, rand)
  {
    var i, round := 0, 0;
    while i < active.Length
      invariant Shuffled(active[..], i, round, rand) == Shuffled(old(active[..]), 0, 0, rand)
      decreases active.Length - i
    {
      i := SwapRound(active, i, round, rand);
      round := round + 1;
    }
    ShuffledDone(active[..], i, round, rand);
  }

  lemma ShuffledDone(s: seq<DelegateId>, i: nat, round: nat, rand: Hashes)
    requires i >= |s|
    ensures Shuffled(s, i, round, rand) == s
  {
  }

  // ---------- a round ----------

  ghost predicate Distinct(s: seq<DelegateId>) {
    forall i, j :: 0 <= i < j < |s| ==> s[i] != s[j]
  }

  lemma DistinctMultiset(s: seq<DelegateId>, t: seq<DelegateId>)
    requires Distinct(s) && multiset(s) == multiset(t)
    ensures Distinct(t)
  {
    forall i, j | 0 <= i < j < |t| ensures t[i] != t[j] {
      OnceEach(s, t[i]);
      CountsPlaces(t, i, j);
    }
  }

  /** Two places with one delegate count it twice. */
  lemma CountsPlaces(t: seq<DelegateId>, i: nat, j: nat)
    requires i < j < |t|
    ensures t[i] == t[j] ==> multiset(t)[t[i]] >= 2
  {
    assert t == t[..i] + [t[i]] + t[i + 1..j] + [t[j]] + t[j + 1..];
  }

  lemma {:induction false} OnceEach(s: seq<DelegateId>, d: DelegateId)
    requires Distinct(s)
    ensures multiset(s)[d] == if d in s then 1 else 0
  {
    if s != [] {
      assert s == [s[0]] + s[1..];
      OnceEach(s[1..], d);
    }
  }

  /** The shuffle permutes, so it keeps the delegates distinct. */
  lemma ShuffleKeepsDelegates(s: seq<DelegateId>, rand: Hashes)
    requires Distinct(s)
    ensures var t := Shuffled(s, 0, 0, rand);
      |t| == |s| && Distinct(t) && forall d :: d in t <==> d in s
  {
    var t := Shuffled(s, 0, 0, rand);
    ShufflePermutes(s, 0, 0, rand);
    BagIs(s);
    BagIs(t);
    DistinctMultiset(s, t);
    forall d ensures d in t <==> d in s {
      assert d in t <==> d in multiset(t);
      assert d in s <==> d in multiset(s);
    }
  }

  /** Slots t to t + count - 1 are the delegates at the positions from t's on, going round. */
  function Position(n: nat, t: nat, i: nat): nat
    requires n > 0
  {
    (SlotNumber(t) + i) % n
  }

  lemma SigneeAt(active: seq<DelegateId>, n: nat, t: nat, i: nat)
    requires n > 0 && |active| >= n
    ensures Signee(active, n, t + INTERVAL * i) == Some(active[Position(n, t, i)])
  {
  }

  lemma PositionsDiffer(n: nat, t: nat, i: nat, j: nat)
    requires n > 0 && i < j < i + n
    ensures Position(n, t, i) != Position(n, t, j)
  {
    var a := SlotNumber(t) + i;
    ModAdd(a, j - i, n);
  }

  /** Some slot of a round comes to each position. */
  lemma PositionReached(n: nat, t: nat, p: nat) returns (i: nat)
    requires p < n
    ensures i < n && Position(n, t, i) == p
  {
    var r := SlotNumber(t) % n;
    i := if r <= p then p - r else p + n - r;
    ModAdd(SlotNumber(t), i, n);
  }

  // ---------- fairness ----------

  /** The slots of a round from t on up to the k-th that are d's. */
  lemma {:induction false} OwnedPrefix(active: seq<DelegateId>, n: nat, t: nat, k: nat, p: nat)
    requires 0 < n <= |active| && Distinct(active) && p < n && k <= n
    ensures Owned(active, n, t, k, active[p]) == if exists i :: 0 <= i < k && Position(n, t, i) == p then 1 else 0
    decreases k
  {
    if k > 0 {
      OwnedPrefix(active, n, t, k - 1, p);
      OwnedSplit(active, n, t, k, active[p]);
      SigneeAt(active, n, t, k - 1);
      if Position(n, t, k - 1) == p {
        forall i | 0 <= i < k - 1 ensures Position(n, t, i) != p {
          PositionsDiffer(n, t, i, k - 1);
        }
      }
    }
  }

  /** In any n consecutive slots each of the n delegates gets exactly one, wherever the slots start. */
  lemma EachOnce(active: seq<DelegateId>, n: nat, t: nat, d: DelegateId)
    requires 0 < n == |active| && Distinct(active)
    ensures Owned(active, n, t, n, d) == if d in active then 1 else 0
  {
    if d in active {
      var p :| 0 <= p < n && active[p] == d;
      var i := PositionReached(n, t, p);
      OwnedPrefix(active, n, t, n, p);
    } else {
      OwnedNone(active, n, t, n, d);
    }
  }

  lemma {:induction false} OwnedNone(active: seq<DelegateId>, n: nat, t: nat, k: nat, d: DelegateId)
    requires 0 < n <= |active| && d !in active
    ensures Owned(active, n, t, k, d) == 0
    decreases k
  {
    if k > 0 {
      OwnedNone(active, n, t + INTERVAL, k - 1, d);
    }
  }

  /** And so after the shuffle: whatever the random words, a round of n distinct delegates gives each of
      them exactly one of any n consecutive slots. */
  lemma ShuffledRoundIsFair(chosen: seq<DelegateId>, rand: Hashes, t: nat, d: DelegateId)
    requires chosen != [] && Distinct(chosen)
    ensures Owned(Shuffled(chosen, 0, 0, rand), |chosen|, t, |chosen|, d) == if d in chosen then 1 else 0
  {
    ShuffleKeepsDelegates(chosen, rand);
    EachOnce(Shuffled(chosen, 0, 0, rand), |chosen|, t, d);
  }

  // ---------- the next slot to produce in ----------

  datatype Search = Found(time: nat) | Nothing | TooFewDelegates

  /** The first slot after now, of the next n, that is one of the given delegates'. */
  method NextProducibleBlockTimestamp(now: nat, active: seq<DelegateId>, n: nat, ids: set<DelegateId>) returns (r: Search)
    requires n > 0
    ensures r.Found? ==>
      && r.time % INTERVAL == 0 && now < r.time < now + INTERVAL * (n + 1)
      && Signee(active, n, r.time).Some? && Signee(active, n, r.time).value in ids
    ensures r.Found? ==> forall i: nat :: Upcoming(now, i) < r.time ==>
      Signee(active, n, Upcoming(now, i)).Some? && Signee(active, n, Upcoming(now, i)).value !in ids
    ensures |active| >= n ==> (r.Nothing? <==> forall p :: 0 <= p < n ==> active[p] !in ids)
    ensures |active| >= n ==> !r.TooFewDelegates?
  {
    var next := SlotNumber(now) * INTERVAL;
    if next <= now {
      next := next + INTERVAL;
    }
    var i := 0;
    while i < n
      invariant i <= n && next == Upcoming(now, i)
      invariant forall j: nat :: j < i ==> Signee(active, n, Upcoming(now, j)).Some? && Signee(active, n, Upcoming(now, j)).value !in ids
    {
      var d := Signee(active, n, next);
      if d.None? {
        return TooFewDelegates;
      }
      if d.value in ids {
        AnyoneOwns(now, active, n, i);
        return Found(next);
      }
      i, next := i + 1, next + INTERVAL;
    }
    if |active| >= n {
      NobodyOwns(now, active, n, ids);
    }
    return Nothing;
  }

  /** The slots after now. */
  function Upcoming(now: nat, i: nat): nat {
    (SlotNumber(now) + 1) * INTERVAL + INTERVAL * i
  }

  lemma AnyoneOwns(now: nat, active: seq<DelegateId>, n: nat, i: nat)
    requires n > 0 && i < n
    ensures |active| >= n ==> exists p :: 0 <= p < n && Signee(active, n, Upcoming(now, i)) == Some(active[p])
    ensures now < Upcoming(now, i) < now + INTERVAL * (n + 1)
  {
    if |active| >= n {
      SigneeAt(active, n, Upcoming(now, 0), i);
      assert Signee(active, n, Upcoming(now, i)) == Some(active[Position(n, Upcoming(now, 0), i)]);
    }
  }

  /** If none of the next n slots is theirs, none of the n delegates is one of them. */
  lemma NobodyOwns(now: nat, active: seq<DelegateId>, n: nat, ids: set<DelegateId>)
    requires 0 < n <= |active|
    requires forall j: nat :: j < n ==> Signee(active, n, Upcoming(now, j)).Some? && Signee(active, n, Upcoming(now, j)).value !in ids
    ensures forall p :: 0 <= p < n ==> active[p] !in ids
  {
    forall p | 0 <= p < n ensures active[p] !in ids {
      var i := PositionReached(n, Upcoming(now, 0), p);
      SigneeAt(active, n, Upcoming(now, 0), i);
      assert Signee(active, n, Upcoming(now, i)) == Some(active[p]);
    }
  }
}
