/** The tree of blocks a node has stored, seen as values: which blocks reach genesis, who descends
    from whom, the path from genesis to a block, and the ledger that folding block application
    along that path gives. */
module ForkTree {

  import opened Options

  /** Block ids are hashes: opaque, and one id stands for one block. */
  type BlockId = nat

  const GENESIS: BlockId := 0

  datatype Block = Block(id: BlockId, previous: BlockId, num: nat)

  type Blocks = map<BlockId, Block>

  datatype ForkData = ForkData(next: set<BlockId>, linked: bool, validity: Option<bool>, included: bool, known: bool)
  {
    predicate CanLink() {
      linked && validity != Some(false)
    }
  }

  type ForkDb = map<BlockId, ForkData>

  const EMPTY_FORK: ForkData := ForkData({}, false, None, false, false)

  /** How blocks act on a ledger: a deterministic partial application that also yields an undo record. */
  datatype Rules<!L, !U> = Rules(genesis: L, apply: (L, Block) -> Option<(L, U)>, revert: (L, U) -> L)

  ghost predicate Lawful<L(!new), U>(rules: Rules<L, U>) {
    forall l, b :: rules.apply(l, b).Some? ==>
      rules.revert(rules.apply(l, b).value.0, rules.apply(l, b).value.1) == l
  }

  // ---------- shape of the stored blocks ----------

  function Num(blocks: Blocks, x: BlockId): nat {
    if x in blocks then blocks[x].num else 0
  }

  ghost predicate Fits(blocks: Blocks, b: Block) {
    && b.id != GENESIS
    && b.num >= 1
    && (b.previous == GENESIS <==> b.num == 1)
    && (b.previous in blocks ==> blocks[b.previous].num + 1 == b.num)
  }

  ghost predicate WellFormed(blocks: Blocks) {
    && GENESIS !in blocks
    && (forall x :: x in blocks ==> blocks[x].id == x && blocks[x].num >= 1)
    && (forall x {:trigger blocks[x].previous} :: x in blocks ==> Fits(blocks, blocks[x]))
  }

  /** What is assumed of a block about to be stored: its id names only it, which its hash guarantees, and
      its number follows its parent's and precedes its children's, which is an assumption: only
      verify_header, when the block is applied, compares it with the head's. */
  ghost predicate Storable(blocks: Blocks, b: Block) {
    && (b.id in blocks ==> blocks[b.id] == b)
    && WellFormed(blocks[b.id := b])
  }

  /** Parents are numbered below their children, which is what makes the walks below end. */
  predicate StepsDown(blocks: Blocks, x: BlockId)
    requires x in blocks
  {
    Num(blocks, blocks[x].previous) < blocks[x].num
  }

  ghost predicate Reaches(blocks: Blocks, x: BlockId)
    decreases Num(blocks, x)
  {
    x == GENESIS || (x in blocks && StepsDown(blocks, x) && Reaches(blocks, blocks[x].previous))
  }

  /** x is a proper descendant of root. */
  ghost predicate Below(blocks: Blocks, root: BlockId, x: BlockId)
    decreases Num(blocks, x)
  {
    x in blocks && (blocks[x].previous == root || (StepsDown(blocks, x) && Below(blocks, root, blocks[x].previous)))
  }

  function Children(blocks: Blocks, x: BlockId): set<BlockId> {
    set c | c in blocks && blocks[c].previous == x
  }

  lemma BelowIsHigher(blocks: Blocks, root: BlockId, x: BlockId)
    requires WellFormed(blocks) && (root == GENESIS || root in blocks)
    requires Below(blocks, root, x)
    ensures Num(blocks, x) > Num(blocks, root)
    decreases Num(blocks, x)
  {
    if blocks[x].previous != root {
      BelowIsHigher(blocks, root, blocks[x].previous);
    }
  }

  lemma NotItsOwnParent(blocks: Blocks, b: Block)
    requires Storable(blocks, b)
    ensures b.id != b.previous && b.id != GENESIS
  {
    var after := blocks[b.id := b];
    assert after[b.id].previous == b.previous;
  }

  lemma NotBelowItself(blocks: Blocks, x: BlockId)
    requires WellFormed(blocks) && (x == GENESIS || x in blocks)
    ensures !Below(blocks, x, x)
  {
    if Below(blocks, x, x) {
      BelowIsHigher(blocks, x, x);
    }
  }

  /** A descendant two or more levels down has its parent among the descendants. */
  lemma BelowByLevel(blocks: Blocks, root: BlockId, level: nat)
    requires WellFormed(blocks) && (root == GENESIS || root in blocks)
    requires level > Num(blocks, root)
    ensures forall x :: x in blocks && blocks[x].num == level + 1 ==>
      (Below(blocks, root, x) <==>
        Below(blocks, root, blocks[x].previous) && Num(blocks, blocks[x].previous) == level)
  {
    forall x | x in blocks && blocks[x].num == level + 1
      ensures Below(blocks, root, x) <==>
        Below(blocks, root, blocks[x].previous) && Num(blocks, blocks[x].previous) == level
    {
      assert blocks[x].previous != root;
    }
  }

  lemma FirstLevel(blocks: Blocks, root: BlockId)
    requires WellFormed(blocks) && (root == GENESIS || root in blocks)
    ensures forall x :: x in blocks && Below(blocks, root, x) && blocks[x].num <= Num(blocks, root) + 1 ==>
      blocks[x].previous == root
    ensures forall x :: x in Children(blocks, root) ==>
      Below(blocks, root, x) && blocks[x].num == Num(blocks, root) + 1
  {
    forall x | x in blocks && Below(blocks, root, x) && blocks[x].num <= Num(blocks, root) + 1
      ensures blocks[x].previous == root
    {
      if blocks[x].previous != root {
        BelowIsHigher(blocks, root, blocks[x].previous);
      }
    }
  }

  /** Storing b links exactly b and the descendants already waiting for it, and only when the
      parent of b is itself linked. */
  lemma {:induction false} ReachesAfterStore(blocks: Blocks, b: Block, x: BlockId)
    requires WellFormed(blocks) && Storable(blocks, b)
    ensures var after := blocks[b.id := b];
      Reaches(after, x) <==>
        Reaches(blocks, x) || (Reaches(blocks, b.previous) && (x == b.id || Below(after, b.id, x)))
    decreases Num(blocks[b.id := b], x)
  {
    var after := blocks[b.id := b];
    if x == b.id {
      if b.previous != GENESIS && b.previous in after {
        ReachesAfterStore(blocks, b, b.previous);
        if Below(after, b.id, b.previous) {
          BelowIsHigher(after, b.id, b.previous);
        }
      }
    } else if x in blocks {
      if x != GENESIS {
        ReachesAfterStore(blocks, b, blocks[x].previous);
      }
    }
  }

  // ---------- the path from genesis ----------

  ghost function Path(blocks: Blocks, x: BlockId): (p: seq<BlockId>)
    requires Reaches(blocks, x)
    ensures |p| >= 1 && p[0] == GENESIS && p[|p| - 1] == x
    decreases Num(blocks, x)
  {
    if x == GENESIS then [GENESIS] else Path(blocks, blocks[x].previous) + [x]
  }

  /** Position n of a path holds the ancestor numbered n. */
  lemma {:induction false} PathFacts(blocks: Blocks, x: BlockId)
    requires WellFormed(blocks) && Reaches(blocks, x)
    ensures var p := Path(blocks, x);
      && |p| == Num(blocks, x) + 1
      && (forall i :: 0 <= i < |p| ==> Num(blocks, p[i]) == i && (i > 0 ==> p[i] in blocks))
      && (forall i {:trigger blocks[p[i]].previous} :: 0 < i < |p| ==> blocks[p[i]].previous == p[i - 1])
    decreases Num(blocks, x)
  {
    if x != GENESIS {
      PathFacts(blocks, blocks[x].previous);
    }
  }

  lemma {:induction false} PathPrefix(blocks: Blocks, x: BlockId, i: nat)
    requires WellFormed(blocks) && Reaches(blocks, x)
    requires i < |Path(blocks, x)|
    ensures Reaches(blocks, Path(blocks, x)[i])
    ensures Path(blocks, Path(blocks, x)[i]) == Path(blocks, x)[..i + 1]
    decreases Num(blocks, x)
  {
    var p := Path(blocks, x);
    if i == |p| - 1 {
      assert p[..i + 1] == p;
    } else {
      PathPrefix(blocks, blocks[x].previous, i);
      assert p[..i + 1] == Path(blocks, blocks[x].previous)[..i + 1];
    }
  }

  /** The ledger after applying every block on the path to x, in order; None if one is refused. */
  ghost function Replay<L, U>(rules: Rules<L, U>, blocks: Blocks, x: BlockId): Option<L>
    requires WellFormed(blocks)
    decreases Num(blocks, x)
  {
    if x == GENESIS then Some(rules.genesis)
    else if x !in blocks then None
    else match Replay(rules, blocks, blocks[x].previous)
         case None => None
         case Some(l) => match rules.apply(l, blocks[x]) case None => None case Some(r) => Some(r.0)
  }

  /** Storing another block changes nothing about blocks that already reach genesis. */
  lemma {:induction false} StoreKeepsPath(blocks: Blocks, b: Block, x: BlockId)
    requires WellFormed(blocks) && Storable(blocks, b) && Reaches(blocks, x)
    ensures Reaches(blocks[b.id := b], x)
    ensures Path(blocks[b.id := b], x) == Path(blocks, x)
    decreases Num(blocks, x)
  {
    if x != GENESIS {
      StoreKeepsPath(blocks, b, blocks[x].previous);
    }
  }

  lemma {:induction false} StoreKeepsReplay<L, U>(rules: Rules<L, U>, blocks: Blocks, b: Block, x: BlockId)
    requires WellFormed(blocks) && Storable(blocks, b) && Reaches(blocks, x)
    ensures Replay(rules, blocks[b.id := b], x) == Replay(rules, blocks, x)
    decreases Num(blocks, x)
  {
    if x != GENESIS {
      StoreKeepsReplay(rules, blocks, b, blocks[x].previous);
    }
  }

  // ---------- where a fork leaves the main chain ----------

  /** The nearest proper ancestor of target on the path to head. */
  ghost function ForkPoint(blocks: Blocks, head: BlockId, target: BlockId): (f: BlockId)
    requires Reaches(blocks, head) && Reaches(blocks, target) && target != GENESIS
    ensures f in Path(blocks, head)
    decreases Num(blocks, target)
  {
    var p := blocks[target].previous;
    if p in Path(blocks, head) then p
    else
      assert Path(blocks, head)[0] == GENESIS;
      ForkPoint(blocks, head, p)
  }

  /** The highest block on the path to target that still applies. */
  ghost function LastGood<L, U>(rules: Rules<L, U>, blocks: Blocks, target: BlockId): (g: BlockId)
    requires WellFormed(blocks) && Reaches(blocks, target)
    ensures Reaches(blocks, g) && Replay(rules, blocks, g).Some?
    decreases Num(blocks, target)
  {
    if Replay(rules, blocks, target).Some? then target else LastGood(rules, blocks, blocks[target].previous)
  }

  /** When a prefix applies and its successor does not, the prefix is where the replay stops. */
  lemma {:induction false} LastGoodIs<L, U>(rules: Rules<L, U>, blocks: Blocks, target: BlockId, i: nat)
    requires WellFormed(blocks) && Reaches(blocks, target) && i < |Path(blocks, target)| - 1
    requires Replay(rules, blocks, Path(blocks, target)[i]).Some?
    requires Replay(rules, blocks, Path(blocks, target)[i + 1]).None?
    ensures Replay(rules, blocks, target).None?
    ensures LastGood(rules, blocks, target) == Path(blocks, target)[i]
    decreases Num(blocks, target)
  {
    if i + 2 < |Path(blocks, target)| {
      LastGoodIs(rules, blocks, blocks[target].previous, i);
    }
  }

  lemma AncestorsOnPath(blocks: Blocks, head: BlockId, p: BlockId)
    requires WellFormed(blocks) && Reaches(blocks, head) && p in Path(blocks, head)
    ensures Reaches(blocks, p) && Num(blocks, p) < |Path(blocks, head)|
    ensures Path(blocks, p) == Path(blocks, head)[..Num(blocks, p) + 1]
  {
    var k :| 0 <= k < |Path(blocks, head)| && Path(blocks, head)[k] == p;
    PathPrefix(blocks, head, k);
    PathFacts(blocks, head);
  }

  lemma {:induction false} OffTheMainChain(blocks: Blocks, head: BlockId, target: BlockId)
    requires WellFormed(blocks) && Reaches(blocks, head) && Reaches(blocks, target) && target != GENESIS
    ensures var f := ForkPoint(blocks, head, target);
      && f in Path(blocks, target) && Num(blocks, f) < Num(blocks, target)
      && forall i :: Num(blocks, f) < i < |Path(blocks, target)| - 1 ==> Path(blocks, target)[i] !in Path(blocks, head)
    decreases Num(blocks, target)
  {
    var p := blocks[target].previous;
    PathStep(blocks, target);
    if p !in Path(blocks, head) {
      assert p != GENESIS;
      OffTheMainChain(blocks, head, p);
    } else {
      assert |Path(blocks, target)| == Num(blocks, p) + 2;
    }
  }

  /** The two chains agree exactly up to the fork point. */
  lemma ForkPointSplits(blocks: Blocks, head: BlockId, target: BlockId)
    requires WellFormed(blocks) && Reaches(blocks, head) && Reaches(blocks, target) && target != GENESIS
    ensures var f := ForkPoint(blocks, head, target);
      && f in Path(blocks, target) && Reaches(blocks, f)
      && Num(blocks, f) < Num(blocks, target) && Num(blocks, f) <= Num(blocks, head)
      && Num(blocks, f) + 1 < |Path(blocks, target)| && Num(blocks, f) < |Path(blocks, head)|
      && Path(blocks, f) == Path(blocks, head)[..Num(blocks, f) + 1] == Path(blocks, target)[..Num(blocks, f) + 1]
      && forall i :: Num(blocks, f) < i < |Path(blocks, target)| - 1 ==> Path(blocks, target)[i] !in Path(blocks, head)
  {
    OffTheMainChain(blocks, head, target);
    AncestorsOnPath(blocks, head, ForkPoint(blocks, head, target));
    AncestorsOnPath(blocks, target, ForkPoint(blocks, head, target));
    PathLength(blocks, head);
    PathLength(blocks, target);
  }

  lemma PathLength(blocks: Blocks, x: BlockId)
    requires WellFormed(blocks) && Reaches(blocks, x)
    ensures |Path(blocks, x)| == Num(blocks, x) + 1
  {
    PathFacts(blocks, x);
  }

  /** The fork point is the position after which the target's path stays off the main chain. */
  lemma {:induction false} ForkPointIs(blocks: Blocks, head: BlockId, target: BlockId, k: nat)
    requires WellFormed(blocks) && Reaches(blocks, head) && Reaches(blocks, target)
    requires k < |Path(blocks, target)| - 1 && Path(blocks, target)[k] in Path(blocks, head)
    requires forall i :: k < i < |Path(blocks, target)| - 1 ==> Path(blocks, target)[i] !in Path(blocks, head)
    ensures target != GENESIS && ForkPoint(blocks, head, target) == Path(blocks, target)[k]
    decreases Num(blocks, target)
  {
    var p := blocks[target].previous;
    var q := Path(blocks, p);
    assert Path(blocks, target) == q + [target];
    if k < |q| - 1 {
      assert Path(blocks, target)[|q| - 1] == p;
      forall i | k < i < |q| - 1
        ensures q[i] !in Path(blocks, head)
      {
        assert q[i] == Path(blocks, target)[i];
      }
      ForkPointIs(blocks, head, p, k);
    }
  }

  /** The undo records at hand for the chain above position lo. */
  ghost predicate AllUndo<U>(blocks: Blocks, undo: map<BlockId, U>, head: BlockId, lo: nat)
    requires Reaches(blocks, head)
  {
    forall i :: lo < i < |Path(blocks, head)| ==> Path(blocks, head)[i] in undo
  }

  /** Where popping from head gets stuck: the highest block of head's chain without an undo record, or
      genesis when there is none. */
  ghost function HighestGap<U>(blocks: Blocks, undo: map<BlockId, U>, head: BlockId): BlockId
    requires Reaches(blocks, head)
    decreases Num(blocks, head)
  {
    if head == GENESIS || head !in undo then head else HighestGap(blocks, undo, blocks[head].previous)
  }

  lemma {:induction false} GapIsLower<U>(blocks: Blocks, undo: map<BlockId, U>, head: BlockId)
    requires Reaches(blocks, head)
    ensures Num(blocks, HighestGap(blocks, undo, head)) <= Num(blocks, head)
    ensures Num(blocks, HighestGap(blocks, undo, head)) == Num(blocks, head) ==> head == GENESIS || head !in undo
    decreases Num(blocks, head)
  {
    if head != GENESIS && head in undo {
      GapIsLower(blocks, undo, blocks[head].previous);
    }
  }

  /** The gap is the position without a record above which every position has one. */
  lemma {:induction false} GapIs<U>(blocks: Blocks, undo: map<BlockId, U>, head: BlockId, i: nat)
    requires WellFormed(blocks) && Reaches(blocks, head) && i < |Path(blocks, head)|
    requires Path(blocks, head)[i] !in undo && AllUndo(blocks, undo, head, i)
    ensures HighestGap(blocks, undo, head) == Path(blocks, head)[i]
    decreases Num(blocks, head)
  {
    var p := Path(blocks, head);
    if i < |p| - 1 {
      PathStep(blocks, head);
      assert p[|p| - 1] in undo;
      var q := Path(blocks, blocks[head].previous);
      assert forall j :: 0 <= j < |q| ==> q[j] == p[j];
      GapIs(blocks, undo, blocks[head].previous, i);
    }
  }

  /** What a run of extensions from position lo to the end of path p leaves of the undo records:
      those of the last maxUndo + 1 positions, counting position lo only if it had one before. */
  ghost predicate UndoWindow(p: seq<BlockId>, before: set<BlockId>, undo: set<BlockId>, lo: nat, maxUndo: nat) {
    forall i :: lo <= i < |p| ==> (p[i] in undo <==> (i == lo ==> p[i] in before) && i + maxUndo >= |p| - 1)
  }

  /** One extension keeps the window: x enters, and the position maxUndo below the old end leaves. */
  lemma UndoWindowStep(p: seq<BlockId>, before: set<BlockId>, undo: set<BlockId>, x: BlockId, lo: nat, maxUndo: nat)
    requires lo < |p| && maxUndo >= 1 && x !in p && p[0] !in before && p[0] !in undo
    requires forall i, j :: 0 <= i < j < |p| ==> p[i] != p[j]
    requires UndoWindow(p, before, undo, lo, maxUndo)
    ensures UndoWindow(p + [x], before, undo + {x} - ExpiredAt(p, maxUndo), lo, maxUndo)
  {
  }

  ghost function ExpiredAt(p: seq<BlockId>, maxUndo: nat): set<BlockId>
  {
    if |p| - 1 > maxUndo then {p[|p| - 1 - maxUndo]} else {}
  }

  lemma PathStep(blocks: Blocks, x: BlockId)
    requires WellFormed(blocks) && x in blocks && Reaches(blocks, x)
    ensures Reaches(blocks, blocks[x].previous) && Num(blocks, x) == Num(blocks, blocks[x].previous) + 1
    ensures Path(blocks, x) == Path(blocks, blocks[x].previous) + [x]
    ensures |Path(blocks, x)| == Num(blocks, x) + 1
    ensures forall y :: y in Path(blocks, x) <==> y == x || y in Path(blocks, blocks[x].previous)
    ensures x !in Path(blocks, blocks[x].previous)
  {
    PathFacts(blocks, x);
    PathFacts(blocks, blocks[x].previous);
  }

  // ---------- the fork database ----------

  /** There is an entry for genesis, for every stored block, and for every parent of one; each lists
      exactly its stored children. */
  ghost predicate Keyed(blocks: Blocks, fork: ForkDb) {
    && (forall x {:trigger x in fork} :: x in fork <==> x == GENESIS || x in blocks || Children(blocks, x) != {})
    && (forall x {:trigger fork[x].next} :: x in fork ==> fork[x].next == Children(blocks, x))
  }

  /** `linked` says whether the chain of parents reaches genesis through stored blocks. */
  ghost predicate LinkedRight(blocks: Blocks, fork: ForkDb)
  {
    forall x {:trigger fork[x].linked} :: x in fork ==> (fork[x].linked <==> Reaches(blocks, x))
  }

  ghost predicate Indexed(blocks: Blocks, fork: ForkDb)
  {
    Keyed(blocks, fork) && LinkedRight(blocks, fork)
  }

  /** The fork database with b hooked to its parent's entry and given one of its own. */
  ghost predicate Hooked(was: ForkDb, b: Block, now: ForkDb) {
    && now.Keys == was.Keys + {b.id, b.previous}
    && (forall x :: x in now ==>
         now[x].next == (if x in was then was[x].next else {}) + if x == b.previous then {b.id} else {})
  }

  lemma ChildrenAfterStore(blocks: Blocks, b: Block, x: BlockId)
    requires b.id in blocks ==> blocks[b.id] == b
    ensures Children(blocks[b.id := b], x) == Children(blocks, x) + if x == b.previous then {b.id} else {}
  {
  }

  lemma HookedKeys(blocks: Blocks, was: ForkDb, b: Block, x: BlockId)
    requires b.id in blocks ==> blocks[b.id] == b
    requires x in was <==> x == GENESIS || x in blocks || Children(blocks, x) != {}
    ensures x in was || x == b.id || x == b.previous <==>
      x == GENESIS || x in blocks[b.id := b] || Children(blocks[b.id := b], x) != {}
  {
    ChildrenAfterStore(blocks, b, x);
    if x == b.previous {
      assert b.id in Children(blocks[b.id := b], x);
    }
  }

  lemma HookedIsKeyed(blocks: Blocks, was: ForkDb, b: Block, now: ForkDb)
    requires b.id in blocks ==> blocks[b.id] == b
    requires Keyed(blocks, was) && Hooked(was, b, now)
    ensures Keyed(blocks[b.id := b], now)
  {
    var after := blocks[b.id := b];
    forall x
      ensures x in now <==> x == GENESIS || x in after || Children(after, x) != {}
    {
      assert x in now <==> x in was || x == b.id || x == b.previous;
      HookedKeys(blocks, was, b, x);
    }
    forall x | x in now
      ensures now[x].next == Children(after, x)
    {
      ChildrenAfterStore(blocks, b, x);
      if x in was {
        assert was[x].next == Children(blocks, x);
      } else {
        assert Children(blocks, x) == {};
      }
    }
  }

  /** The links one new block later: b and everything below it, exactly when its parent is linked. */
  ghost predicate Relinked(blocks: Blocks, was: ForkDb, b: Block, now: ForkDb)
  {
    forall x :: x in now ==> (now[x].linked <==>
      (x in was && was[x].linked) ||
      (Reaches(blocks, b.previous) && (x == b.id || Below(blocks[b.id := b], b.id, x))))
  }

  lemma RelinkedIsRight(blocks: Blocks, was: ForkDb, b: Block, now: ForkDb)
    requires WellFormed(blocks) && Storable(blocks, b)
    requires GENESIS in was && blocks.Keys <= was.Keys
    requires LinkedRight(blocks, was) && Relinked(blocks, was, b, now)
    ensures LinkedRight(blocks[b.id := b], now)
  {
    forall x | x in now
      ensures now[x].linked <==> Reaches(blocks[b.id := b], x)
    {
      ReachesAfterStore(blocks, b, x);
      assert x !in was ==> !Reaches(blocks, x);
    }
  }

  lemma ParentUnmoved(blocks: Blocks, b: Block)
    requires WellFormed(blocks) && Storable(blocks, b)
    ensures Reaches(blocks[b.id := b], b.previous) <==> Reaches(blocks, b.previous)
  {
    ReachesAfterStore(blocks, b, b.previous);
    if Below(blocks[b.id := b], b.id, b.previous) {
      BelowIsHigher(blocks[b.id := b], b.id, b.previous);
    }
  }

  lemma {:induction false} BelowReaches(blocks: Blocks, root: BlockId, x: BlockId)
    requires WellFormed(blocks) && Reaches(blocks, root) && Below(blocks, root, x)
    ensures Reaches(blocks, x)
    decreases Num(blocks, x)
  {
    if blocks[x].previous != root {
      BelowReaches(blocks, root, blocks[x].previous);
    }
  }

  lemma {:induction false} NothingBelow(blocks: Blocks, root: BlockId, x: BlockId)
    requires WellFormed(blocks) && Children(blocks, root) == {}
    ensures !Below(blocks, root, x)
    decreases Num(blocks, x)
  {
    if x in blocks {
      assert x !in Children(blocks, root);
      if blocks[x].previous in blocks && StepsDown(blocks, x) {
        NothingBelow(blocks, root, blocks[x].previous);
      }
    }
  }

  /** When b was linked already, or has no children yet, storing it links at most b. */
  lemma NothingWaiting(blocks: Blocks, b: Block)
    requires WellFormed(blocks) && Storable(blocks, b)
    requires Reaches(blocks, b.id) || Children(blocks, b.id) == {}
    ensures forall x :: Below(blocks[b.id := b], b.id, x) ==> Reaches(blocks, x)
  {
    var after := blocks[b.id := b];
    forall x | Below(after, b.id, x)
      ensures Reaches(blocks, x)
    {
      if Reaches(blocks, b.id) {
        assert after == blocks;
        BelowReaches(blocks, b.id, x);
      } else {
        assert Children(after, b.id) == {};
        NothingBelow(after, b.id, x);
      }
    }
  }

  /** fork after b is added to its parent's next_blocks, or to a placeholder for an unknown parent. */
  ghost function HookParent(fork: ForkDb, b: Block): ForkDb {
    var p := if b.previous in fork then fork[b.previous] else EMPTY_FORK;
    fork[b.previous := p.(next := p.next + {b.id})]
  }

  /** Storing b judges nobody: entries keep their flags, new ones are unjudged, and only the entry
      of b itself can be new and known. */
  ghost predicate Unjudged(was: ForkDb, b: Block, now: ForkDb) {
    && was.Keys <= now.Keys
    && forall x :: x in now ==>
         if x in was
         then now[x].validity == was[x].validity && now[x].included == was[x].included && now[x].known == was[x].known
         else now[x].validity == None && !now[x].included && (now[x].known <==> x == b.id)
  }

  /** The block store_and_index points at after storing b: b itself or, when b supplied a missing link,
      a highest descendant of b. */
  ghost predicate PointsAt(blocks: Blocks, was: ForkDb, b: Block, lastId: BlockId) {
    if b.id in was && !was[b.id].linked && Reaches(blocks, b.previous)
    then Below(blocks, b.id, lastId) && forall x :: Below(blocks, b.id, x) ==> Num(blocks, x) <= Num(blocks, lastId)
    else lastId == b.id
  }

  /** b supplies a missing link: its entry existed as a placeholder and everything below gets linked. */
  lemma MissingLinkHooked(blocks: Blocks, was: ForkDb, b: Block, now: ForkDb)
    requires b.id != b.previous && b.id in was
    requires now == MarkBelow(blocks[b.id := b], HookParent(was, b), b.id, Link)[b.id := Link(was[b.id])]
    ensures Hooked(was, b, now)
  {
  }

  lemma MissingLinkFilled(blocks: Blocks, was: ForkDb, b: Block, now: ForkDb)
    requires b.id != b.previous
    requires b.id in was && Reaches(blocks, b.previous)
    requires now == MarkBelow(blocks[b.id := b], HookParent(was, b), b.id, Link)[b.id := Link(was[b.id])]
    ensures Relinked(blocks, was, b, now)
  {
  }

  lemma MissingLinkUnjudged(blocks: Blocks, was: ForkDb, b: Block, now: ForkDb)
    requires b.id != b.previous && b.id in was
    requires now == MarkBelow(blocks[b.id := b], HookParent(was, b), b.id, Link)[b.id := Link(was[b.id])]
    ensures Unjudged(was, b, now)
  {
  }

  lemma EntryStored(blocks: Blocks, was: ForkDb, b: Block, current: ForkData, now: ForkDb)
    requires b.id != b.previous
    requires b.id in was ==> current == was[b.id]
    requires b.id !in was ==> current == EMPTY_FORK.(known := true, linked := Reaches(blocks, b.previous))
    requires now == HookParent(was, b)[b.id := current]
    ensures Hooked(was, b, now) && Unjudged(was, b, now)
  {
  }

  lemma EntryLinked(blocks: Blocks, was: ForkDb, b: Block, current: ForkData, now: ForkDb)
    requires WellFormed(blocks) && Storable(blocks, b) && b.id != b.previous
    requires Keyed(blocks, was) && LinkedRight(blocks, was)
    requires b.id in was ==> current == was[b.id] && (was[b.id].linked || !Reaches(blocks, b.previous))
    requires b.id !in was ==> current == EMPTY_FORK.(known := true, linked := Reaches(blocks, b.previous))
    requires now == HookParent(was, b)[b.id := current]
    ensures Relinked(blocks, was, b, now)
  {
    if Reaches(blocks, b.previous) {
      if b.id in was {
        assert was[b.id].linked;
      }
      NothingWaiting(blocks, b);
    }
    forall x | x in now
      ensures now[x].linked <==> (
        || (x in was && was[x].linked)
        || (Reaches(blocks, b.previous) && (x == b.id || Below(blocks[b.id := b], b.id, x))))
    {
      if x in was {
        assert was[x].linked <==> Reaches(blocks, x);
      } else {
        assert !Reaches(blocks, x);
      }
    }
  }

  /** The two ways store_and_index ends both leave the fork database describing the larger tree. */
  lemma FilledTree(blocks: Blocks, was: ForkDb, b: Block, now: ForkDb)
    requires WellFormed(blocks) && Storable(blocks, b) && Indexed(blocks, was)
    requires b.id in was && Reaches(blocks, b.previous)
    requires now == MarkBelow(blocks[b.id := b], HookParent(was, b), b.id, Link)[b.id := Link(HookParent(was, b)[b.id])]
    ensures Indexed(blocks[b.id := b], now) && Unjudged(was, b, now)
  {
    NotItsOwnParent(blocks, b);
    MissingLinkHooked(blocks, was, b, now);
    MissingLinkFilled(blocks, was, b, now);
    MissingLinkUnjudged(blocks, was, b, now);
    HookedIsKeyed(blocks, was, b, now);
    RelinkedIsRight(blocks, was, b, now);
  }

  lemma EntryTree(blocks: Blocks, was: ForkDb, b: Block, current: ForkData, now: ForkDb)
    requires WellFormed(blocks) && Storable(blocks, b) && Indexed(blocks, was)
    requires b.id in was ==> current == was[b.id] && (was[b.id].linked || !Reaches(blocks, b.previous))
    requires b.id !in was ==> current == EMPTY_FORK.(known := true, linked := Reaches(blocks, b.previous))
    requires now == HookParent(was, b)[b.id := current]
    ensures Indexed(blocks[b.id := b], now) && Unjudged(was, b, now)
  {
    NotItsOwnParent(blocks, b);
    EntryStored(blocks, was, b, current, now);
    EntryLinked(blocks, was, b, current, now);
    HookedIsKeyed(blocks, was, b, now);
    RelinkedIsRight(blocks, was, b, now);
  }

  /** After hooking, every stored block lists its children, which the marking needs. */
  lemma HookedListsChildren(blocks: Blocks, was: ForkDb, b: Block)
    requires Storable(blocks, b) && Keyed(blocks, was)
    requires b.id in was
    ensures var after := blocks[b.id := b];
      forall x :: x in after ==> x in HookParent(was, b) && HookParent(was, b)[x].next == Children(after, x)
  {
    var after := blocks[b.id := b];
    HookedIsKeyed(blocks, was, b, HookParent(was, b));
  }

  ghost function AtLevel(blocks: Blocks, root: BlockId, level: nat): set<BlockId>
  {
    set x | x in blocks && Below(blocks, root, x) && blocks[x].num == level
  }

  lemma {:induction false} NoneAbove(blocks: Blocks, root: BlockId, level: nat, x: BlockId)
    requires WellFormed(blocks) && (root == GENESIS || root in blocks)
    requires level > Num(blocks, root) && AtLevel(blocks, root, level) == {}
    requires Below(blocks, root, x)
    ensures Num(blocks, x) < level
    decreases Num(blocks, x)
  {
    if blocks[x].num >= level {
      assert x !in AtLevel(blocks, root, level);
      FirstLevel(blocks, root);
      NoneAbove(blocks, root, level, blocks[x].previous);
    }
  }

  function Link(f: ForkData): ForkData {
    f.(linked := true)
  }

  function Invalidate(f: ForkData): ForkData {
    f.(validity := Some(false))
  }

  /** `was` with mark applied to every proper descendant of root. */
  ghost function MarkBelow(blocks: Blocks, was: ForkDb, root: BlockId, mark: ForkData -> ForkData): ForkDb
  {
    map x | x in was :: if Below(blocks, root, x) then mark(was[x]) else was[x]
  }

  /** `was` with mark applied to the listed entries. */
  ghost function MarkThese(was: ForkDb, ids: set<BlockId>, mark: ForkData -> ForkData): ForkDb {
    map x | x in was :: if x in ids then mark(was[x]) else was[x]
  }

  /** The proper descendants of root numbered below level are marked and nothing else. */
  ghost predicate MarkedUpTo(blocks: Blocks, was: ForkDb, now: ForkDb, root: BlockId, level: nat, mark: ForkData -> ForkData)
  {
    && now.Keys == was.Keys
    && forall x :: x in was ==>
         now[x] == if Below(blocks, root, x) && Num(blocks, x) < level then mark(was[x]) else was[x]
  }

  lemma MarkOneLevel(blocks: Blocks, start: ForkDb, was: ForkDb, root: BlockId, level: nat, mark: ForkData -> ForkData)
    requires MarkedUpTo(blocks, start, was, root, level, mark)
    ensures MarkedUpTo(blocks, start, MarkThese(was, AtLevel(blocks, root, level), mark), root, level + 1, mark)
  {
  }

  /** The next level to mark is untouched, so its entries still list their children. */
  lemma StillLists(blocks: Blocks, start: ForkDb, was: ForkDb, root: BlockId, level: nat, mark: ForkData -> ForkData)
    requires forall x :: x in blocks ==> x in start && start[x].next == Children(blocks, x)
    requires MarkedUpTo(blocks, start, was, root, level, mark)
    ensures forall x :: x in AtLevel(blocks, root, level) ==> x in was && was[x].next == Children(blocks, x)
  {
  }

  /** The children of one level are the next. */
  lemma NextLevel(blocks: Blocks, root: BlockId, level: nat)
    requires WellFormed(blocks) && (root == GENESIS || root in blocks)
    requires level > Num(blocks, root)
    ensures (set c | c in blocks && blocks[c].previous in AtLevel(blocks, root, level)) == AtLevel(blocks, root, level + 1)
  {
    BelowByLevel(blocks, root, level);
  }

  /** Once a level is empty the marking is complete. */
  lemma MarkedAll(blocks: Blocks, start: ForkDb, was: ForkDb, root: BlockId, level: nat, mark: ForkData -> ForkData)
    requires WellFormed(blocks) && (root == GENESIS || root in blocks)
    requires level > Num(blocks, root) && AtLevel(blocks, root, level) == {}
    requires MarkedUpTo(blocks, start, was, root, level, mark)
    ensures was == MarkBelow(blocks, start, root, mark)
    ensures forall x :: Below(blocks, root, x) ==> Num(blocks, x) < level
  {
    forall x | Below(blocks, root, x)
      ensures Num(blocks, x) < level
    {
      NoneAbove(blocks, root, level, x);
    }
  }

  ghost function AtOrAbove(blocks: Blocks, level: nat): set<BlockId> {
    set x | x in blocks && blocks[x].num >= level
  }

  lemma AtOrAboveShrinks(blocks: Blocks, level: nat, x: BlockId)
    requires x in blocks && blocks[x].num == level
    ensures AtOrAbove(blocks, level + 1) < AtOrAbove(blocks, level)
  {
    assert x in AtOrAbove(blocks, level) && x !in AtOrAbove(blocks, level + 1);
  }

  // ---------- the main chain ----------

  /** The included flags and the number index describe exactly the path from genesis to head. */
  ghost predicate MainChain(blocks: Blocks, fork: ForkDb, numToId: map<nat, BlockId>, head: BlockId) {
    && Reaches(blocks, head)
    && (forall x {:trigger fork[x].included} :: x in fork ==> (fork[x].included <==> x in Path(blocks, head)))
    && (forall n :: n in numToId <==> 1 <= n < |Path(blocks, head)|)
    && (forall n :: n in numToId ==> numToId[n] == Path(blocks, head)[n])
  }

  /** Every undo record kept is the one that applying its block to its parent's ledger gave. */
  ghost predicate UndoRight<L, U>(rules: Rules<L, U>, blocks: Blocks, undo: map<BlockId, U>)
    requires WellFormed(blocks)
  {
    forall x :: x in undo ==>
      && x in blocks && Reaches(blocks, x)
      && Replay(rules, blocks, blocks[x].previous).Some?
      && rules.apply(Replay(rules, blocks, blocks[x].previous).value, blocks[x]).Some?
      && rules.apply(Replay(rules, blocks, blocks[x].previous).value, blocks[x]).value.1 == undo[x]
  }

  lemma MainChainPop(blocks: Blocks, fork: ForkDb, numToId: map<nat, BlockId>, head: BlockId)
    requires WellFormed(blocks) && MainChain(blocks, fork, numToId, head) && head in blocks && head in fork
    ensures MainChain(blocks, fork[head := fork[head].(included := false)], numToId - {Num(blocks, head)}, blocks[head].previous)
  {
    PathStep(blocks, head);
  }

  lemma MainChainExtend(blocks: Blocks, fork: ForkDb, now: ForkDb, numToId: map<nat, BlockId>, head: BlockId, x: BlockId)
    requires WellFormed(blocks) && MainChain(blocks, fork, numToId, head) && x in blocks && blocks[x].previous == head
    requires now.Keys == fork.Keys && forall y :: y in now ==> now[y].included == (y == x || fork[y].included)
    ensures MainChain(blocks, now, numToId[blocks[x].num := x], x)
  {
    PathStep(blocks, x);
  }

  lemma PathHasEntries(blocks: Blocks, fork: ForkDb, head: BlockId)
    requires WellFormed(blocks) && Reaches(blocks, head) && Keyed(blocks, fork)
    ensures forall x :: x in Path(blocks, head) ==> x in fork
  {
    PathFacts(blocks, head);
  }

  lemma MainChainStore(blocks: Blocks, fork: ForkDb, numToId: map<nat, BlockId>, head: BlockId, b: Block, now: ForkDb)
    requires WellFormed(blocks) && MainChain(blocks, fork, numToId, head) && Storable(blocks, b)
    requires Keyed(blocks, fork) && Unjudged(fork, b, now)
    ensures MainChain(blocks[b.id := b], now, numToId, head)
  {
    PathHasEntries(blocks, fork, head);
    StoreKeepsPath(blocks, b, head);
    SameFlags(fork, b, now, Path(blocks, head));
  }

  lemma SameFlags(fork: ForkDb, b: Block, now: ForkDb, p: seq<BlockId>)
    requires Unjudged(fork, b, now) && forall x :: x in p ==> x in fork
    requires forall x {:trigger fork[x].included} :: x in fork ==> (fork[x].included <==> x in p)
    ensures forall x {:trigger now[x].included} :: x in now ==> (now[x].included <==> x in p)
  {
  }

  lemma UndoStore<L, U>(rules: Rules<L, U>, blocks: Blocks, undo: map<BlockId, U>, b: Block)
    requires WellFormed(blocks) && Storable(blocks, b) && UndoRight(rules, blocks, undo)
    ensures UndoRight(rules, blocks[b.id := b], undo)
  {
    forall x | x in undo
      ensures Reaches(blocks[b.id := b], x)
      ensures Replay(rules, blocks[b.id := b], blocks[x].previous) == Replay(rules, blocks, blocks[x].previous)
    {
      StoreKeepsPath(blocks, b, x);
      StoreKeepsReplay(rules, blocks, b, blocks[x].previous);
    }
  }

  lemma MainChainRejudge(blocks: Blocks, fork: ForkDb, now: ForkDb, numToId: map<nat, BlockId>, head: BlockId)
    requires MainChain(blocks, fork, numToId, head)
    requires now.Keys == fork.Keys && forall y :: y in now ==> now[y].included == fork[y].included
    ensures MainChain(blocks, now, numToId, head)
  {
  }

  /** Applying x to its parent's ledger gives the ledger replayed to x, and its undo record joins the
      right ones; dropping another record harms nothing. */
  lemma ApplyNext<L, U>(rules: Rules<L, U>, blocks: Blocks, undo: map<BlockId, U>, x: BlockId, ledger: L, gone: set<BlockId>)
    requires WellFormed(blocks) && UndoRight(rules, blocks, undo) && x in blocks && Reaches(blocks, x)
    requires Replay(rules, blocks, blocks[x].previous) == Some(ledger) && rules.apply(ledger, blocks[x]).Some?
    ensures Replay(rules, blocks, x) == Some(rules.apply(ledger, blocks[x]).value.0)
    ensures UndoRight(rules, blocks, undo[x := rules.apply(ledger, blocks[x]).value.1] - gone)
  {
  }

  lemma ChildReaches(blocks: Blocks, x: BlockId)
    requires WellFormed(blocks) && x in blocks && Reaches(blocks, blocks[x].previous)
    ensures Reaches(blocks, x) && blocks[x].num == Num(blocks, blocks[x].previous) + 1
  {
  }

  /** The main chain's undo records are those of its upper end, which starts maxUndo below the highest number
      a head has had so far. */
  ghost predicate UndoTail<U>(blocks: Blocks, undo: map<BlockId, U>, head: BlockId, reached: nat, maxUndo: nat)
    requires Reaches(blocks, head)
  {
    && Num(blocks, head) <= reached <= Num(blocks, head) + maxUndo + 1
    && forall i :: 1 <= i < |Path(blocks, head)| ==> (Path(blocks, head)[i] in undo <==> i + maxUndo >= reached)
  }

  function Higher(x: nat, y: nat): nat {
    if x < y then y else x
  }

  lemma TailPop<U>(blocks: Blocks, undo: map<BlockId, U>, head: BlockId, reached: nat, maxUndo: nat)
    requires WellFormed(blocks) && Reaches(blocks, head) && head in blocks && head in undo
    requires UndoTail(blocks, undo, head, reached, maxUndo)
    ensures Reaches(blocks, blocks[head].previous)
    ensures UndoTail(blocks, undo, blocks[head].previous, reached, maxUndo)
  {
    var p := Path(blocks, head);
    PathStep(blocks, head);
    assert p[|p| - 1] in undo;
    assert forall i :: 0 <= i < |p| - 1 ==> Path(blocks, blocks[head].previous)[i] == p[i];
  }

  /** An extension adds the new head's record and drops the one maxUndo below the old head. */
  lemma TailExtend<U>(blocks: Blocks, undo: map<BlockId, U>, x: BlockId, record: U, reached: nat, maxUndo: nat)
    requires WellFormed(blocks) && x in blocks && Reaches(blocks, blocks[x].previous)
    requires UndoTail(blocks, undo, blocks[x].previous, reached, maxUndo)
    ensures Reaches(blocks, x)
    ensures UndoTail(blocks, undo[x := record] - ExpiredAt(Path(blocks, blocks[x].previous), maxUndo), x,
                     Higher(reached, blocks[x].num), maxUndo)
  {
    var p := Path(blocks, blocks[x].previous);
    ChildReaches(blocks, x);
    PathStep(blocks, x);
    PathLength(blocks, blocks[x].previous);
    PathDistinct(blocks, blocks[x].previous);
    TailSteps(p, undo.Keys, x, reached, maxUndo);
    assert (undo[x := record] - ExpiredAt(p, maxUndo)).Keys == undo.Keys + {x} - ExpiredAt(p, maxUndo);
  }

  lemma TailSteps(p: seq<BlockId>, before: set<BlockId>, x: BlockId, reached: nat, maxUndo: nat)
    requires |p| >= 1 && x !in p && forall i, j :: 0 <= i < j < |p| ==> p[i] != p[j]
    requires |p| - 1 <= reached <= |p| + maxUndo
    requires forall i :: 1 <= i < |p| ==> (p[i] in before <==> i + maxUndo >= reached)
    ensures forall i :: 1 <= i < |p + [x]| ==>
      ((p + [x])[i] in before + {x} - ExpiredAt(p, maxUndo) <==> i + maxUndo >= Higher(reached, |p|))
  {
  }

  lemma TailStore<U>(blocks: Blocks, undo: map<BlockId, U>, head: BlockId, reached: nat, maxUndo: nat, b: Block)
    requires WellFormed(blocks) && Storable(blocks, b) && Reaches(blocks, head)
    requires UndoTail(blocks, undo, head, reached, maxUndo)
    ensures Reaches(blocks[b.id := b], head)
    ensures UndoTail(blocks[b.id := b], undo, head, reached, maxUndo)
  {
    StoreKeepsPath(blocks, b, head);
  }

  /** Flags, number index, ledger and undo records all belong to the chain ending in head, and the records kept
      of it are those of its upper end. */
  ghost predicate AlignedTo<L(!new), U>(rules: Rules<L, U>, blocks: Blocks, fork: ForkDb,
                                        numToId: map<nat, BlockId>, head: BlockId, ledger: L, undo: map<BlockId, U>,
                                        reached: nat, maxUndo: nat)
  {
    && WellFormed(blocks) && Indexed(blocks, fork) && Lawful(rules)
    && MainChain(blocks, fork, numToId, head)
    && Replay(rules, blocks, head) == Some(ledger)
    && UndoRight(rules, blocks, undo) && UndoTail(blocks, undo, head, reached, maxUndo)
  }

  function Include(f: ForkData): ForkData {
    f.(included := true, validity := Some(true))
  }

  lemma AlignedExtend<L(!new), U>(rules: Rules<L, U>, blocks: Blocks, fork: ForkDb, numToId: map<nat, BlockId>,
                                  head: BlockId, ledger: L, undo: map<BlockId, U>, reached: nat, maxUndo: nat, b: Block, num: nat)
    requires AlignedTo(rules, blocks, fork, numToId, head, ledger, undo, reached, maxUndo) && maxUndo >= 1
    requires b.id in blocks && blocks[b.id] == b && b.previous == head && rules.apply(ledger, b).Some?
    requires num == Num(blocks, head) || (head == GENESIS && num <= 1)
    ensures b.num == Num(blocks, head) + 1 && b.id in fork
    ensures var r := rules.apply(ledger, b).value;
      AlignedTo(rules, blocks, fork[b.id := Include(fork[b.id])], numToId[b.num := b.id], b.id, r.0,
                undo[b.id := r.1] - Expired(numToId, num, maxUndo), Higher(reached, b.num), maxUndo)
  {
    ChildReaches(blocks, b.id);
    ApplyNext(rules, blocks, undo, b.id, ledger, Expired(numToId, num, maxUndo));
    ExpiredMatches(blocks, fork, numToId, head, num, maxUndo);
    TailExtend(blocks, undo, b.id, rules.apply(ledger, b).value.1, reached, maxUndo);
    MainChainExtend(blocks, fork, fork[b.id := Include(fork[b.id])], numToId, head, b.id);
  }

  /** Undoing the head with its own undo record restores exactly what its parent was head of. */
  lemma AlignedPop<L(!new), U>(rules: Rules<L, U>, blocks: Blocks, fork: ForkDb, numToId: map<nat, BlockId>,
                               head: BlockId, ledger: L, undo: map<BlockId, U>, reached: nat, maxUndo: nat)
    requires AlignedTo(rules, blocks, fork, numToId, head, ledger, undo, reached, maxUndo)
    requires head in blocks && head in undo && head in fork
    ensures AlignedTo(rules, blocks, fork[head := fork[head].(included := false)], numToId - {Num(blocks, head)},
                      blocks[head].previous, rules.revert(ledger, undo[head]), undo, reached, maxUndo)
  {
    TailPop(blocks, undo, head, reached, maxUndo);
    MainChainPop(blocks, fork, numToId, head);
  }

  lemma AlignedStore<L(!new), U>(rules: Rules<L, U>, blocks: Blocks, fork: ForkDb, numToId: map<nat, BlockId>,
                                 head: BlockId, ledger: L, undo: map<BlockId, U>, reached: nat, maxUndo: nat, b: Block, now: ForkDb)
    requires AlignedTo(rules, blocks, fork, numToId, head, ledger, undo, reached, maxUndo) && Storable(blocks, b)
    requires Indexed(blocks[b.id := b], now) && Unjudged(fork, b, now)
    ensures AlignedTo(rules, blocks[b.id := b], now, numToId, head, ledger, undo, reached, maxUndo)
  {
    TailStore(blocks, undo, head, reached, maxUndo, b);
    MainChainStore(blocks, fork, numToId, head, b, now);
    UndoStore(rules, blocks, undo, b);
    StoreKeepsReplay(rules, blocks, b, head);
  }

  lemma AlignedRefuse<L(!new), U>(rules: Rules<L, U>, blocks: Blocks, fork: ForkDb, numToId: map<nat, BlockId>,
                                  head: BlockId, ledger: L, undo: map<BlockId, U>, reached: nat, maxUndo: nat, x: BlockId)
    requires AlignedTo(rules, blocks, fork, numToId, head, ledger, undo, reached, maxUndo) && x in fork
    ensures AlignedTo(rules, blocks, MarkBelow(blocks, fork, x, Invalidate)[x := Invalidate(fork[x])], numToId, head, ledger, undo,
                      reached, maxUndo)
  {
    MainChainRejudge(blocks, fork, MarkBelow(blocks, fork, x, Invalidate)[x := Invalidate(fork[x])], numToId, head);
  }

  lemma IndexedRejudge(blocks: Blocks, fork: ForkDb, now: ForkDb)
    requires Indexed(blocks, fork)
    requires now.Keys == fork.Keys && forall y :: y in now ==> now[y].next == fork[y].next && now[y].linked == fork[y].linked
    ensures Indexed(blocks, now)
  {
  }

  /** h lists path p backwards from its end to position k. */
  ghost predicate BackTo(h: seq<BlockId>, p: seq<BlockId>, k: nat) {
    k < |p| && |h| == |p| - k && forall j :: 0 <= j < |h| ==> h[j] == p[|p| - 1 - j]
  }

  /** The walk back from id has reached next, still above the fork point. */
  ghost predicate Walked(blocks: Blocks, head: BlockId, id: BlockId, next: BlockId, history: seq<BlockId>)
    requires Reaches(blocks, head) && Reaches(blocks, id) && id != GENESIS
  {
    && Reaches(blocks, next) && next != GENESIS
    && Num(blocks, next) < |Path(blocks, id)| && Path(blocks, id)[Num(blocks, next)] == next
    && BackTo(history, Path(blocks, id), Num(blocks, next))
    && ForkPoint(blocks, head, next) == ForkPoint(blocks, head, id)
  }

  lemma BackToStep(h: seq<BlockId>, p: seq<BlockId>, k: nat)
    requires BackTo(h, p, k) && k > 0
    ensures BackTo(h + [p[k - 1]], p, k - 1)
  {
  }

  lemma WalkStep(blocks: Blocks, head: BlockId, id: BlockId, next: BlockId, history: seq<BlockId>)
    requires WellFormed(blocks) && Reaches(blocks, head) && Reaches(blocks, id) && id != GENESIS
    requires Walked(blocks, head, id, next, history)
    ensures var previous := blocks[next].previous;
      && Reaches(blocks, previous) && Num(blocks, previous) + 1 == Num(blocks, next)
      && BackTo(history + [previous], Path(blocks, id), Num(blocks, previous))
      && (if previous in Path(blocks, head) then ForkPoint(blocks, head, id) == previous
          else Walked(blocks, head, id, previous, history + [previous]))
  {
    var p := Path(blocks, id);
    var k := Num(blocks, next);
    PathFacts(blocks, id);
    PathStep(blocks, next);
    assert p[k - 1] == blocks[next].previous;
    BackToStep(history, p, k);
    assert Path(blocks, head)[0] == GENESIS;
  }

  /** Position c + 1 of a path is the child of position c, and both prefixes are paths. */
  lemma PathNext(blocks: Blocks, x: BlockId, c: nat)
    requires WellFormed(blocks) && Reaches(blocks, x) && c + 1 < |Path(blocks, x)|
    ensures var p := Path(blocks, x);
      && p[c + 1] in blocks && blocks[p[c + 1]].previous == p[c] && blocks[p[c + 1]].id == p[c + 1]
      && Reaches(blocks, p[c]) && Reaches(blocks, p[c + 1])
      && Path(blocks, p[c]) == p[..c + 1] && Path(blocks, p[c + 1]) == Path(blocks, p[c]) + [p[c + 1]]
      && Num(blocks, p[c]) == c && Num(blocks, p[c + 1]) == c + 1
  {
    var p := Path(blocks, x);
    PathPrefix(blocks, x, c);
    PathPrefix(blocks, x, c + 1);
    PathFacts(blocks, x);
    assert blocks[p[c + 1]].previous == p[c];
    PathStep(blocks, p[c + 1]);
  }

  lemma PathDistinct(blocks: Blocks, x: BlockId)
    requires WellFormed(blocks) && Reaches(blocks, x)
    ensures forall i, j :: 0 <= i < j < |Path(blocks, x)| ==> Path(blocks, x)[i] != Path(blocks, x)[j]
  {
    PathFacts(blocks, x);
  }

  /** The block whose undo record is dropped when a head numbered num is extended. */
  ghost function Expired(numToId: map<nat, BlockId>, num: nat, maxUndo: nat): set<BlockId> {
    if num > maxUndo && num - maxUndo in numToId then {numToId[num - maxUndo]} else {}
  }

  /** The record dropped at an extension belongs to the position maxUndo below the head. */
  lemma ExpiredMatches(blocks: Blocks, fork: ForkDb, numToId: map<nat, BlockId>, head: BlockId, n: nat, maxUndo: nat)
    requires WellFormed(blocks) && MainChain(blocks, fork, numToId, head)
    requires n == Num(blocks, head) || (head == GENESIS && n <= maxUndo)
    ensures ExpiredAt(Path(blocks, head), maxUndo) == Expired(numToId, n, maxUndo)
  {
    PathFacts(blocks, head);
  }

  lemma NoGenesisRecord<L, U>(rules: Rules<L, U>, blocks: Blocks, undo: map<BlockId, U>)
    requires WellFormed(blocks) && UndoRight(rules, blocks, undo)
    ensures GENESIS !in undo
  {
  }

  // ---------- how far down the main chain can be undone ----------

  /** The main chain can be undone down to a fork point exactly when the first block above it is at most
      maxUndo below the highest number reached. */
  lemma CanUndoTo<U>(blocks: Blocks, undo: map<BlockId, U>, head: BlockId, reached: nat, maxUndo: nat, k: nat)
    requires WellFormed(blocks) && Reaches(blocks, head) && UndoTail(blocks, undo, head, reached, maxUndo)
    requires k < Num(blocks, head)
    ensures AllUndo(blocks, undo, head, k) <==> k + 1 + maxUndo >= reached
  {
    PathLength(blocks, head);
    assert Path(blocks, head)[k + 1] in undo <==> k + 1 + maxUndo >= reached;
  }

  /** A block that would branch off the main chain: the chain can be undone to its parent exactly when it is
      numbered at most maxUndo below the highest number reached. push_block compares it with the head's
      instead. So what is kept can be switched to, as far as undo records go, unless a head has been higher
      than this one by more than the block is too high to be refused; and what is refused could not have been,
      but for a block exactly maxUndo below a head that is the highest so far. */
  lemma KeptOrOutOfReach<U>(blocks: Blocks, undo: map<BlockId, U>, head: BlockId, reached: nat, maxUndo: nat, b: Block)
    requires WellFormed(blocks) && Storable(blocks, b) && Reaches(blocks, head) && UndoTail(blocks, undo, head, reached, maxUndo)
    requires b.previous in Path(blocks, head) && b.num <= Num(blocks, head)
    ensures var after := blocks[b.id := b];
      && Num(after, head) == Num(blocks, head) && Reaches(after, head) && Reaches(after, b.id)
      && ForkPoint(after, head, b.id) == b.previous && Num(after, b.previous) + 1 == b.num
    ensures var kept, undoable := b.num + maxUndo > Num(blocks, head), AllUndo(blocks[b.id := b], undo, head, b.num - 1);
      && (undoable <==> b.num + maxUndo >= reached)
      && (kept && !undoable <==> Num(blocks, head) < b.num + maxUndo < reached)
      && (!kept && undoable <==> b.num + maxUndo == Num(blocks, head) == reached)
  {
    var after := blocks[b.id := b];
    TailStore(blocks, undo, head, reached, maxUndo, b);
    NumKept(blocks, b, head);
    BranchesAt(blocks, head, b);
    CanUndoTo(after, undo, head, reached, maxUndo, b.num - 1);
  }

  lemma BranchesAt(blocks: Blocks, head: BlockId, b: Block)
    requires WellFormed(blocks) && Storable(blocks, b) && Reaches(blocks, head) && b.previous in Path(blocks, head)
    ensures var after := blocks[b.id := b];
      && Reaches(after, head) && Reaches(after, b.id)
      && ForkPoint(after, head, b.id) == b.previous && Num(after, b.previous) + 1 == b.num
  {
    var after := blocks[b.id := b];
    StoreKeepsPath(blocks, b, head);
    AncestorsOnPath(after, head, b.previous);
    ChildReaches(after, b.id);
  }

  lemma NumKept(blocks: Blocks, b: Block, x: BlockId)
    requires WellFormed(blocks) && Storable(blocks, b) && Reaches(blocks, x)
    ensures Num(blocks[b.id := b], x) == Num(blocks, x)
  {
  }

  /** What is on one of two sequences but not on the other is past the part they share. */
  lemma OffSharedPart(p: seq<BlockId>, q: seq<BlockId>, k: nat, x: BlockId)
    requires k < |p| && k < |q| && p[..k + 1] == q[..k + 1] && x in q && x !in p
    ensures exists j :: k < j < |q| && q[j] == x
  {
    forall i | 0 <= i <= k ensures p[i] == q[i] {
      assert p[..k + 1][i] == q[..k + 1][i];
    }
    var j :| 0 <= j < |q| && q[j] == x;
  }

  /** A chain forks off below every block of it that is off the main chain. */
  lemma ForkedBelow(blocks: Blocks, head: BlockId, target: BlockId, x: BlockId)
    requires WellFormed(blocks) && Reaches(blocks, head) && Reaches(blocks, target) && target != GENESIS
    requires x in Path(blocks, target) && x !in Path(blocks, head)
    ensures Num(blocks, ForkPoint(blocks, head, target)) < Num(blocks, x)
  {
    ForkPointSplits(blocks, head, target);
    PathFacts(blocks, target);
    OffSharedPart(Path(blocks, head), Path(blocks, target), Num(blocks, ForkPoint(blocks, head, target)), x);
  }

  /** No chain through a block off the main chain that is more than maxUndo below the head can be switched to:
      some block above where it forks off has no undo record any more. */
  lemma TooLowToReach<L, U>(rules: Rules<L, U>, blocks: Blocks, undo: map<BlockId, U>, head: BlockId, reached: nat, maxUndo: nat,
                            x: BlockId, target: BlockId)
    requires WellFormed(blocks) && Reaches(blocks, head) && Reaches(blocks, target) && target != GENESIS
    requires UndoTail(blocks, undo, head, reached, maxUndo)
    requires x in Path(blocks, target) && x !in Path(blocks, head) && Num(blocks, x) + maxUndo < Num(blocks, head)
    ensures !AllUndo(blocks, undo, head, Num(blocks, ForkPoint(blocks, head, target)))
    ensures !Switches(rules, blocks, undo, head, target)
  {
    var k := Num(blocks, ForkPoint(blocks, head, target));
    ForkedBelow(blocks, head, target, x);
    CanUndoTo(blocks, undo, head, reached, maxUndo, k);
  }

  /** So it is for a block that push_block refuses at more than maxUndo below the head. */
  lemma RefusedIsOutOfReach<L, U>(rules: Rules<L, U>, blocks: Blocks, undo: map<BlockId, U>, head: BlockId, reached: nat,
                                  maxUndo: nat, b: Block, target: BlockId)
    requires WellFormed(blocks) && Storable(blocks, b) && Reaches(blocks, head) && UndoTail(blocks, undo, head, reached, maxUndo)
    requires b.num + maxUndo < Num(blocks, head) && b.id !in Path(blocks, head)
    requires Reaches(blocks[b.id := b], target) && b.id in Path(blocks[b.id := b], target) && target != GENESIS
    ensures Reaches(blocks[b.id := b], head) && !Switches(rules, blocks[b.id := b], undo, head, target)
  {
    TailStore(blocks, undo, head, reached, maxUndo, b);
    StoreKeepsPath(blocks, b, head);
    NumKept(blocks, b, head);
    TooLowToReach(rules, blocks[b.id := b], undo, head, reached, maxUndo, b.id, target);
  }

  // ---------- rolling back a failed switch ----------

  /** Everything before a block that applies applies. */
  lemma {:induction false} ReplayPrefix<L, U>(rules: Rules<L, U>, blocks: Blocks, x: BlockId, i: nat)
    requires WellFormed(blocks) && Reaches(blocks, x) && i < |Path(blocks, x)|
    requires Replay(rules, blocks, x).Some?
    ensures Replay(rules, blocks, Path(blocks, x)[i]).Some?
    decreases Num(blocks, x)
  {
    if i < |Path(blocks, x)| - 1 {
      ReplayPrefix(rules, blocks, blocks[x].previous, i);
    }
  }

  lemma {:induction false} LastGoodAtLeast<L, U>(rules: Rules<L, U>, blocks: Blocks, target: BlockId, i: nat)
    requires WellFormed(blocks) && Reaches(blocks, target) && i < |Path(blocks, target)|
    requires Replay(rules, blocks, Path(blocks, target)[i]).Some?
    ensures LastGood(rules, blocks, target) in Path(blocks, target)
    ensures i <= Num(blocks, LastGood(rules, blocks, target)) < |Path(blocks, target)|
    ensures Path(blocks, LastGood(rules, blocks, target)) == Path(blocks, target)[..Num(blocks, LastGood(rules, blocks, target)) + 1]
    decreases Num(blocks, target)
  {
    PathFacts(blocks, target);
    if Replay(rules, blocks, target).None? {
      PathStep(blocks, target);
      LastGoodAtLeast(rules, blocks, blocks[target].previous, i);
    }
  }

  lemma GoodPastFork<L, U>(rules: Rules<L, U>, blocks: Blocks, head: BlockId, target: BlockId)
    requires WellFormed(blocks) && Reaches(blocks, head) && Reaches(blocks, target) && head != GENESIS
    requires Num(blocks, target) > Num(blocks, head) && Replay(rules, blocks, head).Some?
    ensures var k, g := Num(blocks, ForkPoint(blocks, head, target)), LastGood(rules, blocks, target);
      && k <= Num(blocks, g) && k < |Path(blocks, g)| && Path(blocks, g)[k] == ForkPoint(blocks, head, target)
      && k < |Path(blocks, head)| && Path(blocks, head)[k] == ForkPoint(blocks, head, target)
      && Path(blocks, g) <= Path(blocks, target)
  {
    var k := Num(blocks, ForkPoint(blocks, head, target));
    ForkPointSplits(blocks, head, target);
    PathFacts(blocks, head);
    PathFacts(blocks, target);
    ReplayPrefix(rules, blocks, head, k);
    assert Path(blocks, target)[k] == Path(blocks, head)[k];
    LastGoodAtLeast(rules, blocks, target, k);
  }

  /** Seen from where a failed switch stopped, the old head branches off where the new fork did, or, when
      the new fork grew on the old head itself, one block below it. */
  lemma RevertPoint<L, U>(rules: Rules<L, U>, blocks: Blocks, head: BlockId, target: BlockId)
    requires WellFormed(blocks) && Reaches(blocks, head) && Reaches(blocks, target) && head != GENESIS
    requires Num(blocks, target) > Num(blocks, head) && Replay(rules, blocks, head).Some?
    ensures var f := ForkPoint(blocks, head, target);
      var g := LastGood(rules, blocks, target);
      && Num(blocks, f) <= Num(blocks, g) && f in Path(blocks, g)
      && ForkPoint(blocks, g, head) == if f == head then blocks[head].previous else f
  {
    var f := ForkPoint(blocks, head, target);
    var g := LastGood(rules, blocks, target);
    var k := Num(blocks, f);
    GoodPastFork(rules, blocks, head, target);
    if f == head {
      ParentIsFork(blocks, g, head, k);
    } else {
      PathFacts(blocks, head);
      PathFacts(blocks, target);
      OffTheNewFork(blocks, head, target, g);
      ForkPointIs(blocks, g, head, k);
    }
  }

  lemma ParentOnPath(blocks: Blocks, g: BlockId, k: nat)
    requires WellFormed(blocks) && Reaches(blocks, g) && 1 <= k < |Path(blocks, g)|
    ensures Path(blocks, g)[k] in blocks && blocks[Path(blocks, g)[k]].previous in Path(blocks, g)
  {
    PathFacts(blocks, g);
    assert blocks[Path(blocks, g)[k]].previous == Path(blocks, g)[k - 1];
  }

  /** A head on another block's path forks from it at its parent. */
  lemma ParentIsFork(blocks: Blocks, g: BlockId, head: BlockId, k: nat)
    requires WellFormed(blocks) && Reaches(blocks, g) && Reaches(blocks, head) && head != GENESIS
    requires k < |Path(blocks, g)| && Path(blocks, g)[k] == head && k == Num(blocks, head)
    ensures ForkPoint(blocks, g, head) == blocks[head].previous
  {
    ParentOnPath(blocks, g, k);
  }

  lemma OffTheNewFork(blocks: Blocks, head: BlockId, target: BlockId, g: BlockId)
    requires WellFormed(blocks) && Reaches(blocks, head) && Reaches(blocks, target) && Reaches(blocks, g)
    requires target != GENESIS && Num(blocks, target) > Num(blocks, head)
    requires Path(blocks, g) <= Path(blocks, target)
    ensures forall i :: Num(blocks, ForkPoint(blocks, head, target)) < i < |Path(blocks, head)| ==>
      Path(blocks, head)[i] !in Path(blocks, g)
  {
    ForkPointSplits(blocks, head, target);
    PathFacts(blocks, head);
    PathFacts(blocks, target);
    ApartAbove(blocks, Path(blocks, head), Path(blocks, target), Path(blocks, g), Num(blocks, ForkPoint(blocks, head, target)));
  }

  /** Numbered sequences h and t that share nothing above position k share nothing there with a prefix of t. */
  lemma ApartAbove(blocks: Blocks, h: seq<BlockId>, t: seq<BlockId>, q: seq<BlockId>, k: nat)
    requires forall i :: 0 <= i < |h| ==> Num(blocks, h[i]) == i
    requires forall i :: 0 <= i < |t| ==> Num(blocks, t[i]) == i
    requires |h| < |t| && q <= t && forall i :: k < i < |t| - 1 ==> t[i] !in h
    ensures forall i :: k < i < |h| ==> h[i] !in q
  {
    forall i, j | k < i < |h| && 0 <= j < |q|
      ensures h[i] != q[j]
    {
      assert q[j] == t[j] && Num(blocks, t[j]) == j && Num(blocks, h[i]) == i;
    }
  }

  /** Exactly when switching from head to target ends with a damaged database: a block that has to be
      undone has no undo record; or target does not apply and the way back is barred, because the
      fork grew on the head itself and that is block 1 or has no record left, or because the records
      of the blocks just applied have already been dropped. */
  ghost predicate RollbackLost<L, U>(rules: Rules<L, U>, maxUndo: nat, blocks: Blocks, undo: map<BlockId, U>,
                                     head: BlockId, target: BlockId)
    requires WellFormed(blocks) && Reaches(blocks, head) && Reaches(blocks, target) && target != GENESIS
  {
    var f := ForkPoint(blocks, head, target);
    var k := Num(blocks, f);
    var g := LastGood(rules, blocks, target);
    || !AllUndo(blocks, undo, head, k)
    || (g != target && f == head && head != GENESIS && (k == 1 || f !in undo || k + maxUndo < Num(blocks, g)))
    || (g != target && f != GENESIS && f != head && k + 1 + maxUndo < Num(blocks, g))
  }

  /** push_block goes after target rather than merely recording b: target is linked, not marked invalid,
      and higher than a head that b does not extend. */
  ghost predicate Follows(blocks: Blocks, judged: ForkDb, head: BlockId, b: Block, target: BlockId) {
    && b.previous != head && Reaches(blocks, target) && Num(blocks, target) > Num(blocks, head)
    && !(target in judged && judged[target].validity == Some(false))
  }

  /** Storing b changes no verdict. */
  lemma SameVerdict(blocks: Blocks, was: ForkDb, now: ForkDb, head: BlockId, b: Block, target: BlockId)
    requires Unjudged(was, b, now)
    ensures Follows(blocks, was, head, b, target) <==> Follows(blocks, now, head, b, target)
  {
  }

  /** Switching from head to target goes through: every block above the fork point can be undone, the
      fork point is not a genesis that would have to be rewound to, and target's whole chain applies. */
  ghost predicate Switches<L, U>(rules: Rules<L, U>, blocks: Blocks, undo: map<BlockId, U>, head: BlockId, target: BlockId)
    requires WellFormed(blocks) && Reaches(blocks, head) && Reaches(blocks, target) && target != GENESIS
  {
    var f := ForkPoint(blocks, head, target);
    AllUndo(blocks, undo, head, Num(blocks, f)) && (f == GENESIS ==> head == GENESIS) && Replay(rules, blocks, target).Some?
  }

  /** Where a failed switch from head, by way of fork point f and as far as g, and the attempt to go back
      leave the head: at the block that could not be undone on the way down, or on the way back, or at
      genesis when the way back pops block 1, or else where it was. From genesis there is no way back
      to try. */
  ghost function RestingAt<U>(maxUndo: nat, blocks: Blocks, undo: map<BlockId, U>, head: BlockId, f: BlockId, g: BlockId): BlockId
    requires Reaches(blocks, head) && Reaches(blocks, g)
  {
    var lowest := if f == head then Num(blocks, f) else Num(blocks, f) + 1;
    if head == GENESIS then g
    else if !AllUndo(blocks, undo, head, Num(blocks, f)) then HighestGap(blocks, undo, head)
    else if f == GENESIS then head
    else if lowest + maxUndo < Num(blocks, g) < |Path(blocks, g)| then Path(blocks, g)[Num(blocks, g) - maxUndo - 1]
    else if f == head && head in undo && Num(blocks, f) == 1 then GENESIS
    else head
  }

  ghost function RestingHead<L, U>(rules: Rules<L, U>, maxUndo: nat, blocks: Blocks, undo: map<BlockId, U>,
                                   head: BlockId, target: BlockId): BlockId
    requires WellFormed(blocks) && Reaches(blocks, head) && Reaches(blocks, target) && target != GENESIS
  {
    RestingAt(maxUndo, blocks, undo, head, ForkPoint(blocks, head, target), LastGood(rules, blocks, target))
  }

  /** The head that pushing b leaves, when following target was tried or not. */
  ghost function NextHead<L, U>(rules: Rules<L, U>, maxUndo: nat, blocks: Blocks, undo: map<BlockId, U>, head: BlockId,
                                b: Block, target: BlockId, tried: bool): BlockId
    requires WellFormed(blocks) && Reaches(blocks, head)
    requires tried ==> Reaches(blocks, target) && target != GENESIS
  {
    if b.previous == head then (if Replay(rules, blocks, b.id).Some? then b.id else head)
    else if !tried then head
    else if Switches(rules, blocks, undo, head, target) then target
    else RestingHead(rules, maxUndo, blocks, undo, head, target)
  }

  /** The highest number a head has had once push_block has tried target or not: a switch that fails has still
      been as far as the last block that applies, unless it got stuck before it turned. */
  ghost function ReachedBy<L, U>(rules: Rules<L, U>, blocks: Blocks, undo: map<BlockId, U>, reached: nat, head: BlockId,
                                 target: BlockId): nat
    requires WellFormed(blocks) && Reaches(blocks, head) && Reaches(blocks, target) && target != GENESIS
  {
    var f := ForkPoint(blocks, head, target);
    if !AllUndo(blocks, undo, head, Num(blocks, f)) || f == GENESIS != head then reached
    else Higher(reached, Num(blocks, LastGood(rules, blocks, target)))
  }

  ghost function NextReached<L, U>(rules: Rules<L, U>, blocks: Blocks, undo: map<BlockId, U>, reached: nat, head: BlockId,
                                   b: Block, target: BlockId, tried: bool): nat
    requires WellFormed(blocks) && Reaches(blocks, head)
    requires tried ==> Reaches(blocks, target) && target != GENESIS
  {
    if b.previous == head then (if Replay(rules, blocks, b.id).Some? then Higher(reached, Num(blocks, b.id)) else reached)
    else if !tried then reached
    else ReachedBy(rules, blocks, undo, reached, head, target)
  }

  /** Exactly when trying target costs the head height: the head itself can be undone but some block above the
      fork point cannot; or target does not apply and either the way back pops block 1, or the records
      of the new fork have been dropped so far down that what is left of it ends below the old head. */
  ghost predicate HeightLost<L, U>(rules: Rules<L, U>, maxUndo: nat, blocks: Blocks, undo: map<BlockId, U>,
                                   head: BlockId, target: BlockId)
    requires WellFormed(blocks) && Reaches(blocks, head) && Reaches(blocks, target) && target != GENESIS
  {
    var f := ForkPoint(blocks, head, target);
    var k := Num(blocks, f);
    var g := LastGood(rules, blocks, target);
    if !AllUndo(blocks, undo, head, k) then head in undo
    else g != target && LowerEnd(maxUndo, head in undo, f == head, k, Num(blocks, head), Num(blocks, g))
  }

  /** The same by block numbers: the head at h can be undone or not, the fork leaves at k, on the head or
      not, and applies up to n. */
  ghost predicate LowerEnd(maxUndo: nat, undoable: bool, onHead: bool, k: nat, h: nat, n: nat) {
    if onHead then k == 1 && undoable && k + maxUndo >= n
    else k != 0 && k + 1 + maxUndo < n <= h + maxUndo
  }

  /** A push lowers the head exactly when it tries a fork and HeightLost holds. */
  lemma HeightDrops<L, U>(rules: Rules<L, U>, maxUndo: nat, blocks: Blocks, judged: ForkDb, undo: map<BlockId, U>,
                          head: BlockId, b: Block, target: BlockId)
    requires WellFormed(blocks) && Reaches(blocks, head) && b.id in blocks && blocks[b.id] == b
    requires target in blocks && Replay(rules, blocks, head).Some?
    ensures var tried := Follows(blocks, judged, head, b, target);
      Num(blocks, NextHead(rules, maxUndo, blocks, undo, head, b, target, tried)) < Num(blocks, head) <==>
        tried && HeightLost(rules, maxUndo, blocks, undo, head, target)
  {
    if b.previous == head {
      ChildReaches(blocks, b.id);
    } else if Follows(blocks, judged, head, b, target) {
      if head == GENESIS {
        assert Path(blocks, GENESIS) == [GENESIS];
      } else {
        RestsLower(rules, maxUndo, blocks, undo, head, target);
      }
    }
  }

  lemma RestsLower<L, U>(rules: Rules<L, U>, maxUndo: nat, blocks: Blocks, undo: map<BlockId, U>, head: BlockId, target: BlockId)
    requires WellFormed(blocks) && Reaches(blocks, head) && Reaches(blocks, target) && head != GENESIS
    requires Num(blocks, target) > Num(blocks, head) && Replay(rules, blocks, head).Some?
    ensures Switches(rules, blocks, undo, head, target) ==> !HeightLost(rules, maxUndo, blocks, undo, head, target)
    ensures !Switches(rules, blocks, undo, head, target) ==>
      (Num(blocks, RestingHead(rules, maxUndo, blocks, undo, head, target)) < Num(blocks, head) <==>
        HeightLost(rules, maxUndo, blocks, undo, head, target))
  {
    var f, g := ForkPoint(blocks, head, target), LastGood(rules, blocks, target);
    GoodPastFork(rules, blocks, head, target);
    ForkPointSplits(blocks, head, target);
    RestsLowerAt(maxUndo, blocks, undo, head, f, g);
  }

  lemma RestsLowerAt<U>(maxUndo: nat, blocks: Blocks, undo: map<BlockId, U>, head: BlockId, f: BlockId, g: BlockId)
    requires WellFormed(blocks) && Reaches(blocks, head) && Reaches(blocks, f) && Reaches(blocks, g) && head != GENESIS
    ensures Num(blocks, RestingAt(maxUndo, blocks, undo, head, f, g)) < Num(blocks, head) <==>
      if !AllUndo(blocks, undo, head, Num(blocks, f)) then head in undo
      else LowerEnd(maxUndo, head in undo, f == head, Num(blocks, f), Num(blocks, head), Num(blocks, g))
  {
    PathFacts(blocks, g);
    GapIsLower(blocks, undo, head);
  }

  /** When nothing is damaged a failed switch leaves the head where it was. */
  lemma RestsUnmoved<L, U>(rules: Rules<L, U>, maxUndo: nat, blocks: Blocks, undo: map<BlockId, U>, head: BlockId, target: BlockId)
    requires WellFormed(blocks) && Reaches(blocks, head) && Reaches(blocks, target) && target != GENESIS
    requires !Switches(rules, blocks, undo, head, target) && !RollbackLost(rules, maxUndo, blocks, undo, head, target)
    ensures RestingHead(rules, maxUndo, blocks, undo, head, target) ==
      if head == GENESIS then LastGood(rules, blocks, target) else head
  {
  }

  /** Whether the way back from a failed switch has all its undo records. */
  lemma WayBack<L, U>(rules: Rules<L, U>, maxUndo: nat, blocks: Blocks, undo: map<BlockId, U>, now: map<BlockId, U>,
                      head: BlockId, target: BlockId)
    requires WellFormed(blocks) && Reaches(blocks, head) && Reaches(blocks, target) && head != GENESIS
    requires Num(blocks, target) > Num(blocks, head) && Replay(rules, blocks, head).Some?
    requires AllUndo(blocks, undo, head, Num(blocks, ForkPoint(blocks, head, target)))
    requires var g := LastGood(rules, blocks, target);
      && g != target && (ForkPoint(blocks, head, target) == GENESIS ==> head == GENESIS)
      && UndoWindow(Path(blocks, g), undo.Keys, now.Keys, Num(blocks, ForkPoint(blocks, head, target)), maxUndo)
    ensures var g := LastGood(rules, blocks, target);
      var back := ForkPoint(blocks, g, head);
      && g != GENESIS
      && (RollbackLost(rules, maxUndo, blocks, undo, head, target) <==>
           !AllUndo(blocks, now, g, Num(blocks, back)) || back == GENESIS)
  {
    var f := ForkPoint(blocks, head, target);
    var g := LastGood(rules, blocks, target);
    var k := Num(blocks, f);
    var p := Path(blocks, g);
    RevertPoint(rules, blocks, head, target);
    PathFacts(blocks, g);
    PathStep(blocks, head);
    assert p[k] == f;
    assert Path(blocks, GENESIS) == [GENESIS];
    if f != head && k + 1 < |p| {
      assert p[k + 1] in now <==> k + 1 + maxUndo >= Num(blocks, g);
    }
  }

  /** Where the way back from a failed switch leaves the head, by the undo records kept on the way up. */
  lemma WayBackEnds<L, U>(rules: Rules<L, U>, maxUndo: nat, blocks: Blocks, undo: map<BlockId, U>, now: map<BlockId, U>,
                          head: BlockId, target: BlockId)
    requires WellFormed(blocks) && Reaches(blocks, head) && Reaches(blocks, target) && head != GENESIS
    requires Num(blocks, target) > Num(blocks, head) && Replay(rules, blocks, head).Some?
    requires AllUndo(blocks, undo, head, Num(blocks, ForkPoint(blocks, head, target)))
    requires ForkPoint(blocks, head, target) != GENESIS
    requires UndoWindow(Path(blocks, LastGood(rules, blocks, target)), undo.Keys, now.Keys,
                        Num(blocks, ForkPoint(blocks, head, target)), maxUndo)
    ensures var g := LastGood(rules, blocks, target);
      var back := ForkPoint(blocks, g, head);
      && head != GENESIS && g != GENESIS
      && RestingHead(rules, maxUndo, blocks, undo, head, target) ==
           if !AllUndo(blocks, now, g, Num(blocks, back)) then HighestGap(blocks, now, g)
           else if back == GENESIS then GENESIS
           else head
  {
    var f, g := ForkPoint(blocks, head, target), LastGood(rules, blocks, target);
    RevertPoint(rules, blocks, head, target);
    GoodPastFork(rules, blocks, head, target);
    EndsAt(maxUndo, blocks, undo, now, head, f, g);
  }

  lemma EndsAt<U>(maxUndo: nat, blocks: Blocks, undo: map<BlockId, U>, now: map<BlockId, U>, head: BlockId, f: BlockId, g: BlockId)
    requires WellFormed(blocks) && Reaches(blocks, head) && Reaches(blocks, g) && head != GENESIS
    requires f != GENESIS && Num(blocks, f) < |Path(blocks, g)| && Path(blocks, g)[Num(blocks, f)] == f
    requires AllUndo(blocks, undo, head, Num(blocks, f))
    requires UndoWindow(Path(blocks, g), undo.Keys, now.Keys, Num(blocks, f), maxUndo)
    ensures var back := if f == head then blocks[head].previous else f;
      && g != GENESIS
      && RestingAt(maxUndo, blocks, undo, head, f, g) ==
           if !AllUndo(blocks, now, g, Num(blocks, back)) then HighestGap(blocks, now, g)
           else if back == GENESIS then GENESIS
           else head
  {
    var k := Num(blocks, f);
    var lowest := if f == head then k else k + 1;
    PathFacts(blocks, g);
    PathStep(blocks, head);
    assert k != 0;
    if lowest + maxUndo < Num(blocks, g) {
      WindowPassed(blocks, undo.Keys, now, g, k, lowest, maxUndo);
    } else {
      WindowHolds(blocks, undo.Keys, now, g, k, lowest, maxUndo);
    }
  }

  /** The window seen from the top: once it has passed position lowest, popping gets stuck just below it. */
  lemma WindowPassed<U>(blocks: Blocks, before: set<BlockId>, now: map<BlockId, U>, g: BlockId, lo: nat, lowest: nat, maxUndo: nat)
    requires WellFormed(blocks) && Reaches(blocks, g) && 1 <= lowest && lo <= lowest <= lo + 1
    requires UndoWindow(Path(blocks, g), before, now.Keys, lo, maxUndo)
    requires lowest + maxUndo < Num(blocks, g)
    ensures |Path(blocks, g)| == Num(blocks, g) + 1 && !AllUndo(blocks, now, g, lowest - 1)
    ensures HighestGap(blocks, now, g) == Path(blocks, g)[Num(blocks, g) - maxUndo - 1]
  {
    PathFacts(blocks, g);
    GapIs(blocks, now, g, Num(blocks, g) - maxUndo - 1);
  }

  /** Until then only the record of position lo itself can be missing. */
  lemma WindowHolds<U>(blocks: Blocks, before: set<BlockId>, now: map<BlockId, U>, g: BlockId, lo: nat, lowest: nat, maxUndo: nat)
    requires WellFormed(blocks) && Reaches(blocks, g) && 1 <= lowest && lo <= lowest <= lo + 1 && lo <= Num(blocks, g)
    requires UndoWindow(Path(blocks, g), before, now.Keys, lo, maxUndo)
    requires lowest + maxUndo >= Num(blocks, g)
    ensures |Path(blocks, g)| == Num(blocks, g) + 1
    ensures if lowest == lo && Path(blocks, g)[lo] !in before
      then !AllUndo(blocks, now, g, lowest - 1) && HighestGap(blocks, now, g) == Path(blocks, g)[lo]
      else AllUndo(blocks, now, g, lowest - 1)
  {
    PathFacts(blocks, g);
    if lowest == lo && Path(blocks, g)[lo] !in before {
      GapIs(blocks, now, g, lo);
    }
  }

  // ---------- nothing grows on genesis but the first head ----------

  /** While genesis is the head, no stored first block applies. */
  ghost predicate FirstBlocksRefused<L, U>(rules: Rules<L, U>, blocks: Blocks, head: BlockId)
    requires WellFormed(blocks)
  {
    head == GENESIS ==> forall x :: x in blocks && blocks[x].previous == GENESIS ==> Replay(rules, blocks, x).None?
  }

  lemma {:induction false} NothingApplies<L, U>(rules: Rules<L, U>, blocks: Blocks, target: BlockId)
    requires WellFormed(blocks) && FirstBlocksRefused(rules, blocks, GENESIS) && Reaches(blocks, target) && target != GENESIS
    ensures Replay(rules, blocks, target).None? && LastGood(rules, blocks, target) == GENESIS
    decreases Num(blocks, target)
  {
    if blocks[target].previous != GENESIS {
      NothingApplies(rules, blocks, blocks[target].previous);
    }
  }

  /** So a failed switch that damages nothing leaves the head where it was, at genesis too. */
  lemma RestsWhereItWas<L, U>(rules: Rules<L, U>, maxUndo: nat, blocks: Blocks, undo: map<BlockId, U>, head: BlockId, target: BlockId)
    requires WellFormed(blocks) && Reaches(blocks, head) && Reaches(blocks, target) && target != GENESIS
    requires FirstBlocksRefused(rules, blocks, head)
    requires !Switches(rules, blocks, undo, head, target) && !RollbackLost(rules, maxUndo, blocks, undo, head, target)
    ensures RestingHead(rules, maxUndo, blocks, undo, head, target) == head
  {
    RestsUnmoved(rules, maxUndo, blocks, undo, head, target);
    if head == GENESIS {
      NothingApplies(rules, blocks, target);
    }
  }

  /** A push that damages nothing keeps it so. */
  lemma FirstBlocksStayRefused<L, U>(rules: Rules<L, U>, maxUndo: nat, blocks: Blocks, undo: map<BlockId, U>, head: BlockId,
                                     b: Block, target: BlockId, tried: bool)
    requires WellFormed(blocks) && Storable(blocks, b) && Reaches(blocks, head) && FirstBlocksRefused(rules, blocks, head)
    requires Reaches(blocks[b.id := b], head)
    requires tried ==> b.previous != head && Reaches(blocks[b.id := b], target) && target != GENESIS
    requires tried ==> !RollbackLost(rules, maxUndo, blocks[b.id := b], undo, head, target)
    ensures FirstBlocksRefused(rules, blocks[b.id := b],
                               NextHead(rules, maxUndo, blocks[b.id := b], undo, head, b, target, tried))
  {
    var after := blocks[b.id := b];
    var now := NextHead(rules, maxUndo, after, undo, head, b, target, tried);
    if now == GENESIS {
      if head != GENESIS {
        assert Replay(rules, after, GENESIS).Some?;
        assert tried && !Switches(rules, after, undo, head, target);
        RestsUnmoved(rules, maxUndo, after, undo, head, target);
        assert false;
      }
      forall x | x in after && after[x].previous == GENESIS
        ensures Replay(rules, after, x).None?
      {
        if x in blocks {
          StoreKeepsReplay(rules, blocks, b, x);
        }
      }
    }
  }
}
